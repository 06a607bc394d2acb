/**
  A container in a buffer, changed in place: the mutators, which keep the size
  policy but do not search for the smallest representation.
*/
module Mutators {
  import opened Sets
  import opened Containers
  import opened Images
  import opened ImageScans
  import opened Searches
  import opened RunSplices
  import opened RunRanges
  import opened Conversions
  import opened Canonical
  import opened Filters

  /* ---------- the policy ---------- */

  // Bytes add() may write when it keeps the representation, 0 when it would not.
  function InplaceNeed(c: Container, lo: nat): nat {
    match c.rep
    case Bitmap(k, _) => if WordOf(lo) < k then SizeOf(c.rep) else 0
    case Array(_) => if c.card >= ARRAY_MAX then 0 else SizeOf(c.rep) + 2
    case Runs(runs) => if |runs| >= RUNS_MAX then 0 else SizeOf(c.rep) + 4
  }

  ghost predicate NextTo(s: set<nat>, lo: nat) { lo + 1 in s || (lo > 0 && lo - 1 in s) }

  ghost predicate Inside(s: set<nat>, lo: nat) { lo + 1 in s && lo > 0 && lo - 1 in s }

  // The representation a value that is not a member leaves when it is added.
  ghost function KindAfterAdd(c: Container, lo: nat): Kind {
    match c.rep
    case Array(_) => if c.card >= ARRAY_MAX then AsBitmap(BITSET_WIDTH) else AsArray
    case Bitmap(k, _) =>
      if WordOf(lo) < k then AsBitmap(k)
      else if LoWidth(lo) <= NARROW_MAX_WIDTH then AsBitmap(LoWidth(lo)) else AsBitmap(BITSET_WIDTH)
    case Runs(runs) =>
      if NextTo(Members(c.rep), lo) || |runs| < RUNS_MAX then AsRuns
      else if c.card < ARRAY_MAX then AsArray else AsBitmap(BITSET_WIDTH)
  }

  // The representation a member leaves when it is removed.
  ghost function KindAfterRemove(c: Container, lo: nat): Kind {
    match c.rep
    case Array(_) => AsArray
    case Bitmap(k, _) => if c.card <= WidthArrayCard(k) + 1 then AsArray else AsBitmap(k)
    case Runs(runs) =>
      if !Inside(Members(c.rep), lo) || |runs| < RUNS_MAX then AsRuns
      else if c.card <= ARRAY_MAX + 1 then AsArray else AsBitmap(BITSET_WIDTH)
  }

  /* ---------- one value in or out of a set ---------- */

  lemma OneMore(s: set<nat>, x: nat)
    ensures |s + {x}| == |s| + if x in s then 0 else 1
  {
    if x in s {
      assert s + {x} == s;
    }
  }

  lemma OneLess(s: set<nat>, x: nat)
    ensures |s - {x}| + (if x in s then 1 else 0) == |s|
  {
    if x !in s {
      assert s - {x} == s;
    }
  }

  lemma AtMostRange(rep: Rep)
    ensures |Members(rep)| <= RANGE
  {
    IntervalSize(0, RANGE);
    SubsetSize(Members(rep), Interval(0, RANGE));
  }

  lemma ArrayInserted(vals: seq<nat>, lo: nat, pos: nat)
    requires ArrayOk(vals) && lo < RANGE && IsLowerBound(vals, lo, pos) && lo !in vals && |vals| < ARRAY_MAX
    ensures ArrayOk(vals[..pos] + [lo] + vals[pos..])
    ensures Members(Array(vals[..pos] + [lo] + vals[pos..])) == Members(Array(vals)) + {lo}
  {
    var r := vals[..pos] + [lo] + vals[pos..];
    InsertedAt(vals, lo, pos);
    hide Members;
    forall i, j | 0 <= i < j < |r|
      ensures r[i] < r[j]
    {
    }
    InsertedMembers(vals, lo, pos);
  }

  lemma InsertedAt(vals: seq<nat>, lo: nat, pos: nat)
    requires pos <= |vals|
    ensures var r := vals[..pos] + [lo] + vals[pos..];
            |r| == |vals| + 1 && forall i :: 0 <= i < |r| ==>
              r[i] == if i < pos then vals[i] else if i == pos then lo else vals[i - 1]
  {
  }

  lemma InsertedMembers(vals: seq<nat>, lo: nat, pos: nat)
    requires pos <= |vals| && lo < RANGE
    ensures Members(Array(vals[..pos] + [lo] + vals[pos..])) == Members(Array(vals)) + {lo}
  {
    assert vals == vals[..pos] + vals[pos..];
    assert forall x :: x in vals[..pos] + [lo] + vals[pos..] <==> x in vals || x == lo;
  }

  lemma ArrayCut(vals: seq<nat>, from: nat, to: nat, lo: nat, hi: nat)
    requires ArrayOk(vals) && IsLowerBound(vals, lo, from) && IsLowerBound(vals, hi + 1, to) && from <= to
    ensures ArrayOk(vals[..from] + vals[to..])
    ensures Members(Array(vals[..from] + vals[to..])) == Without(Members(Array(vals)), lo, hi)
  {
    var r := vals[..from] + vals[to..];
    CutAt(vals, from, to);
    hide Members;
    forall i, j | 0 <= i < j < |r|
      ensures r[i] < r[j]
    {
    }
    CutMembers(vals, from, to, lo, hi);
  }

  lemma CutAt(vals: seq<nat>, from: nat, to: nat)
    requires from <= to <= |vals|
    ensures var r := vals[..from] + vals[to..];
            |r| == |vals| - (to - from) && forall i :: 0 <= i < |r| ==>
              r[i] == if i < from then vals[i] else vals[i - from + to]
  {
  }

  lemma CutMembers(vals: seq<nat>, from: nat, to: nat, lo: nat, hi: nat)
    requires IsLowerBound(vals, lo, from) && IsLowerBound(vals, hi + 1, to) && from <= to
    ensures Members(Array(vals[..from] + vals[to..])) == Without(Members(Array(vals)), lo, hi)
  {
    var r := vals[..from] + vals[to..];
    CutAt(vals, from, to);
    forall x: nat
      ensures x in r <==> x in vals && !(lo <= x <= hi)
    {
      if x in vals && !(lo <= x <= hi) {
        var i :| 0 <= i < |vals| && vals[i] == x;
        assert i < from || to <= i;
        assert i < from ==> r[i] == x;
        assert to <= i ==> r[i - to + from] == x;
      }
    }
  }

  // Growth in place: add() to a container with room for it keeps the
  // representation, and its bytes.
  lemma GrowsInPlace(c: Container, lo: nat, r: Container)
    requires WellFormed(c) && WellFormed(r) && lo < RANGE && Members(r.rep) == Members(c.rep) + {lo}
    requires if lo in Members(c.rep) then r.rep == c.rep else KindOf(r.rep) == KindAfterAdd(c, lo)
    requires InplaceNeed(c, lo) != 0
    ensures KindOf(r.rep) == KindOf(c.rep) && SizeOf(r.rep) <= InplaceNeed(c, lo)
  {
    if lo !in Members(c.rep) {
      match c.rep {
        case Array(vals) =>
          ArrayMembers(vals);
          ArrayMembers(r.rep.vals);
          OneMore(Members(c.rep), lo);
        case Bitmap(_, _) =>
        case Runs(runs) =>
          RunsCountRuns(runs);
          RunsCountRuns(r.rep.runs);
          OneRunMore(Members(c.rep), lo);
      }
    }
  }

  // There is no need exactly when a value that touches none of the members would
  // change the representation; and such a value takes exactly the need.
  lemma NeedIsExact(c: Container, lo: nat, r: Container)
    requires WellFormed(c) && WellFormed(r) && lo < RANGE && Members(r.rep) == Members(c.rep) + {lo}
    requires lo !in Members(c.rep) && !NextTo(Members(c.rep), lo) && KindOf(r.rep) == KindAfterAdd(c, lo)
    ensures InplaceNeed(c, lo) == 0 <==> KindOf(r.rep) != KindOf(c.rep)
    ensures InplaceNeed(c, lo) != 0 ==> SizeOf(r.rep) == InplaceNeed(c, lo)
  {
    OneMore(Members(c.rep), lo);
    OneMoreRun(Members(c.rep), lo);
    if r.rep.Array? {
      ArrayMembers(r.rep.vals);
    } else if r.rep.Runs? {
      RunsCountRuns(r.rep.runs);
    }
    if c.rep.Array? {
      ArrayMembers(c.rep.vals);
    } else if c.rep.Runs? {
      RunsCountRuns(c.rep.runs);
    }
    hide Members, RunStarts, NextTo;
  }

  lemma OneMoreRun(s: set<nat>, x: nat)
    requires x !in s && !NextTo(s, x)
    ensures |RunStarts(s + {x})| == |RunStarts(s)| + 1
  {
    forall y
      ensures y in RunStarts(s + {x}) <==> y in RunStarts(s) || y == x
    {
      assert StartsRun(s + {x}, y) <==> StartsRun(s, y) || y == x;
    }
    hide StartsRun;
    assert RunStarts(s + {x}) == RunStarts(s) + {x};
  }

  // A value more starts at most one run more.
  lemma OneRunMore(s: set<nat>, x: nat)
    ensures |RunStarts(s + {x})| <= |RunStarts(s)| + 1
  {
    OneMore(RunStarts(s), x);
    SubsetSize(RunStarts(s + {x}), RunStarts(s) + {x});
  }

  class Buffer {
    var ckey: nat
    var card: nat
    var rep: Rep

    function Value(): Container
      reads this
    {
      Container(ckey, card, rep)
    }

    ghost predicate Valid()
      reads this
    {
      WellFormed(Value())
    }

    ghost function Elements(): set<nat>
      reads this
    {
      Members(rep)
    }

    // lion_container_init(): an empty ARRAY.
    constructor (ckey: nat)
      ensures Valid() && this.ckey == ckey && Elements() == {} && rep == Array([])
    {
      this.ckey, card, rep := ckey, 0, Array([]);
      new;
      assert Members(Array([])) == {};
    }

    constructor Copy(c: Container)
      requires WellFormed(c)
      ensures Valid() && Value() == c
    {
      ckey, card, rep := c.ckey, c.card, c.rep;
    }

    // Another representation of the same members.
    method Become(c: Container)
      requires Valid() && WellFormed(c) && c.ckey == ckey && Members(c.rep) == Elements()
      modifies this
      ensures Valid() && Value() == c && ckey == old(ckey) && Elements() == old(Elements()) && card == old(card)
    {
      card, rep := c.card, c.rep;
    }

    /* ---------- add ---------- */

    method Add(lo: nat) returns (changed: bool)
      requires Valid() && lo < RANGE
      modifies this
      ensures Valid() && ckey == old(ckey)
      ensures Elements() == old(Elements()) + {lo}
      ensures changed <==> lo !in old(Elements())
      ensures !changed ==> rep == old(rep)
      ensures changed ==> KindOf(rep) == old(KindAfterAdd(Value(), lo))
      decreases if rep.Runs? then 1 else 0, 2
    {
      OneMore(Members(rep), lo);
      match rep {
        case Array(vals) =>
          var pos := LowerBound(vals, lo);
          FoundAtLowerBound(vals, lo, pos);
          ArrayMembers(vals);
          if pos < |vals| && vals[pos] == lo {
            return false;
          }
          if |vals| >= ARRAY_MAX {
            FitsFull(rep);
            var b := MakeBitmap(Value(), BITSET_WIDTH);
            Become(b);
            SetIn(lo);
            return true;
          }
          ArrayInserted(vals, lo, pos);
          rep := Array(vals[..pos] + [lo] + vals[pos..]);
          card := card + 1;
          return true;
        case Bitmap(k, w) =>
          if !(WordOf(lo) < k) {
            var wide := LoWidth(lo);
            if wide > NARROW_MAX_WIDTH {
              wide := BITSET_WIDTH;
            }
            FitsWider(rep, wide);
            var b := MakeBitmap(Value(), wide);
            Become(b);
          }
          TestDecides(rep.blocks, rep.width, lo);
          ImageIsMembers(rep.blocks, rep.width);
          if Test(rep.blocks, rep.width, lo) {
            return false;
          }
          SetIn(lo);
          return true;
        case Runs(_) =>
          changed := RunAdd(lo);
      }
    }

    // lo's bit set, of a bitmap that has one.
    method SetIn(lo: nat)
      requires Valid() && rep.Bitmap? && lo < RANGE && WordOf(lo) < rep.width && lo !in Elements()
      modifies this
      ensures Valid() && ckey == old(ckey) && Elements() == old(Elements()) + {lo} && KindOf(rep) == old(KindOf(rep))
    {
      OneMore(Members(rep), lo);
      SetBitAdds(rep.blocks, rep.width, lo);
      ImageIsMembers(rep.blocks, rep.width);
      ImageIsMembers(SetBit(rep.blocks, rep.width, lo), rep.width);
      rep := Bitmap(rep.width, SetBit(rep.blocks, rep.width, lo));
      card := card + 1;
    }

    method RunAdd(lo: nat) returns (changed: bool)
      requires Valid() && lo < RANGE && rep.Runs?
      modifies this
      ensures Valid() && ckey == old(ckey)
      ensures Elements() == old(Elements()) + {lo}
      ensures changed <==> lo !in old(Elements())
      ensures !changed ==> rep == old(rep)
      ensures changed ==> KindOf(rep) == old(KindAfterAdd(Value(), lo))
      decreases 1, 1
    {
      hide RunSet, Spliced, Members, NextTo;
      RunsShape(Value());
      var idx := RunLocate(rep.runs, lo);
      LocatedDecides(rep.runs, lo, idx);
      RunsMembers(rep.runs);
      if idx >= 0 && lo <= rep.runs[idx].Last() {
        return false;
      }
      var extended := RunExtend(idx, lo);
      if extended {
        return true;
      }
      if |rep.runs| >= RUNS_MAX {
        RunOverflow(lo);
        return true;
      }
      NewRun(rep.runs, idx + 1, lo);
      Respliced(idx + 1, idx + 1, [Run(lo, 0)], lo);
      return true;
    }

    // lo at the end of run idx, or before the start of the next, or closing the
    // gap between the two.
    method RunExtend(idx: int, lo: nat) returns (done: bool)
      requires Valid() && rep.Runs? && Located(rep.runs, idx, lo) && lo !in Elements()
      modifies this
      ensures Valid() && ckey == old(ckey)
      ensures done <==> old(NextTo(Elements(), lo))
      ensures done ==> rep.Runs? && Elements() == old(Elements()) + {lo}
      ensures !done ==> Value() == old(Value()) && (idx >= 0 ==> lo != rep.runs[idx].Last() + 1) &&
                        (idx + 1 < |rep.runs| ==> rep.runs[idx + 1].start != lo + 1)
    {
      hide Spliced, RunSet, RunsAscend, Members;
      var runs := rep.runs;
      if idx >= 0 && lo == runs[idx].Last() + 1 {
        RunHolds(runs, idx, runs[idx].Last());
        if idx + 1 < |runs| && runs[idx + 1].start == lo + 1 {
          MergedRuns(runs, idx, lo);
          Respliced(idx, idx + 2, [Run(runs[idx].start, runs[idx + 1].Last() - runs[idx].start)], lo);
        } else {
          ExtendedRight(runs, idx, lo);
          Respliced(idx, idx + 1, [Run(runs[idx].start, runs[idx].more + 1)], lo);
        }
        return true;
      }
      if idx + 1 < |runs| && runs[idx + 1].start == lo + 1 {
        RunHolds(runs, idx + 1, lo + 1);
        ExtendedLeft(runs, idx, lo);
        Respliced(idx + 1, idx + 2, [Run(lo, runs[idx + 1].more + 1)], lo);
        return true;
      }
      NotNextTo(runs, idx, lo);
      return false;
    }

    // No room for a run more: an ARRAY when the members fit one with lo in, and
    // a BITSET otherwise.
    method RunOverflow(lo: nat)
      requires Valid() && rep.Runs? && |rep.runs| >= RUNS_MAX && lo < RANGE && lo !in Elements()
      modifies this
      ensures Valid() && ckey == old(ckey) && Elements() == old(Elements()) + {lo}
      ensures KindOf(rep) == if old(card) < ARRAY_MAX then AsArray else AsBitmap(BITSET_WIDTH)
      decreases 1, 0
    {
      if card < ARRAY_MAX {
        var a := MakeArray(Value());
        Become(a);
      } else {
        FitsFull(rep);
        var b := MakeBitmap(Value(), BITSET_WIDTH);
        Become(b);
      }
      var changed := Add(lo);
    }

    // Runs i .. j - 1 replaced by repl, which adds lo.
    method Respliced(i: nat, j: nat, repl: seq<Run>, lo: nat)
      requires Valid() && rep.Runs? && i <= j <= |rep.runs| && lo !in Elements()
      requires RunsAscend(Spliced(rep.runs, i, j, repl)) && |rep.runs| - (j - i) + |repl| <= RUNS_MAX
      requires RunSet(Spliced(rep.runs, i, j, repl)) == RunSet(rep.runs) + {lo}
      modifies this
      ensures Valid() && ckey == old(ckey) && rep == Runs(Spliced(old(rep.runs), i, j, repl))
      ensures Elements() == old(Elements()) + {lo}
    {
      OneMore(Members(rep), lo);
      RunsMembers(rep.runs);
      RunsMembers(Spliced(rep.runs, i, j, repl));
      hide Spliced, RunSet, RunsAscend;
      rep := Runs(Spliced(rep.runs, i, j, repl));
      card := card + 1;
    }

    /* ---------- remove ---------- */

    method Remove(lo: nat) returns (changed: bool)
      requires Valid() && lo < RANGE
      modifies this
      ensures Valid() && ckey == old(ckey)
      ensures Elements() == old(Elements()) - {lo}
      ensures changed <==> lo in old(Elements())
      ensures !changed ==> rep == old(rep)
      ensures changed ==> KindOf(rep) == old(KindAfterRemove(Value(), lo))
      decreases if rep.Runs? then 1 else 0, 2
    {
      if rep.Array? {
        changed := ArrayRemove(lo);
      } else if rep.Runs? {
        changed := RunRemove(lo);
      } else {
        TestDecides(rep.blocks, rep.width, lo);
        ImageIsMembers(rep.blocks, rep.width);
        if !Test(rep.blocks, rep.width, lo) {
          return false;
        }
        ClearIn(lo);
        Shrink();
        changed := true;
      }
    }

    method ArrayRemove(lo: nat) returns (changed: bool)
      requires Valid() && rep.Array? && lo < RANGE
      modifies this
      ensures Valid() && ckey == old(ckey) && rep.Array?
      ensures Elements() == old(Elements()) - {lo}
      ensures changed <==> lo in old(Elements())
      ensures !changed ==> rep == old(rep)
    {
      OneLess(Members(rep), lo);
      var vals := rep.vals;
      var pos := LowerBound(vals, lo);
      FoundAtLowerBound(vals, lo, pos);
      ArrayMembers(vals);
      if pos >= |vals| || vals[pos] != lo {
        return false;
      }
      ArrayCut(vals, pos, pos + 1, lo, lo);
      WithoutOne(Members(rep), lo);
      rep := Array(vals[..pos] + vals[pos + 1..]);
      card := card - 1;
      changed := true;
    }

    // lo's bit cleared.
    method ClearIn(lo: nat)
      requires Valid() && rep.Bitmap? && lo < RANGE && lo in Elements()
      modifies this
      ensures Valid() && ckey == old(ckey) && Elements() == old(Elements()) - {lo}
      ensures KindOf(rep) == old(KindOf(rep)) && card == old(card) - 1
    {
      OneLess(Members(rep), lo);
      ClearBitRemoves(rep.blocks, rep.width, lo);
      ImageIsMembers(rep.blocks, rep.width);
      ImageIsMembers(ClearBit(rep.blocks, rep.width, lo), rep.width);
      rep := Bitmap(rep.width, ClearBit(rep.blocks, rep.width, lo));
      card := card - 1;
    }

    // A bitmap that has shrunk to an ARRAY's size becomes one.
    method Shrink()
      requires Valid()
      modifies this
      ensures Valid() && ckey == old(ckey) && card == old(card) && Elements() == old(Elements())
      ensures KindOf(rep) ==
              if old(rep.Bitmap?) && card <= WidthArrayCard(old(rep).width) then AsArray else old(KindOf(rep))
    {
      if rep.Bitmap? && card <= WidthArrayCard(rep.width) {
        var a := MakeArray(Value());
        Become(a);
      }
    }

    method RunRemove(lo: nat) returns (changed: bool)
      requires Valid() && lo < RANGE && rep.Runs?
      modifies this
      ensures Valid() && ckey == old(ckey)
      ensures Elements() == old(Elements()) - {lo}
      ensures changed <==> lo in old(Elements())
      ensures !changed ==> rep == old(rep)
      ensures changed ==> KindOf(rep) == old(KindAfterRemove(Value(), lo))
      decreases 1, 1
    {
      var runs := rep.runs;
      var idx := RunLocate(runs, lo);
      LocatedDecides(runs, lo, idx);
      RunsMembers(runs);
      if idx < 0 || lo > runs[idx].Last() {
        return false;
      }
      InsideDecides(runs, idx, lo);
      var repl := Pieces(runs[idx], runs[idx], lo, lo);
      if |repl| == 2 && |runs| >= RUNS_MAX {
        RunSplitOverflow(lo);
        return true;
      }
      CutOne(idx, repl, lo);
      return true;
    }

    // lo out of run idx.
    method CutOne(idx: nat, repl: seq<Run>, lo: nat)
      requires Valid() && rep.Runs? && idx < |rep.runs| && Reaches(rep.runs, idx, idx, lo, lo) && lo in Elements()
      requires repl == Pieces(rep.runs[idx], rep.runs[idx], lo, lo)
      requires |rep.runs| - 1 + |repl| <= RUNS_MAX
      modifies this
      ensures Valid() && ckey == old(ckey) && Elements() == old(Elements()) - {lo} && rep.Runs?
    {
      RunsMembers(rep.runs);
      hide RunSet, RunsAscend, Spliced, Reaches, Pieces, Within, Without;
      WithoutOne(RunSet(rep.runs), lo);
      PiecesFit(rep.runs, idx, idx, lo, lo);
      CutRuns(idx, idx + 1, repl, lo, lo, 1);
    }

    method RunSplitOverflow(lo: nat)
      requires Valid() && rep.Runs? && |rep.runs| >= RUNS_MAX && lo < RANGE && lo in Elements()
      modifies this
      ensures Valid() && ckey == old(ckey) && Elements() == old(Elements()) - {lo}
      ensures KindOf(rep) == if old(card) <= ARRAY_MAX + 1 then AsArray else AsBitmap(BITSET_WIDTH)
      decreases 1, 0
    {
      if card <= ARRAY_MAX {
        var a := MakeArray(Value());
        Become(a);
      } else {
        FitsFull(rep);
        var b := MakeBitmap(Value(), BITSET_WIDTH);
        Become(b);
      }
      var changed := Remove(lo);
    }

    // Runs i .. j - 1 replaced by repl, which leaves the values s .. e out.
    method CutRuns(i: nat, j: nat, repl: seq<Run>, ghost s: nat, ghost e: nat, removed: nat)
      requires Valid() && rep.Runs? && i <= j <= |rep.runs| && |rep.runs| - (j - i) + |repl| <= RUNS_MAX
      requires RunsAscend(Spliced(rep.runs, i, j, repl))
      requires RunSet(Spliced(rep.runs, i, j, repl)) == Without(RunSet(rep.runs), s, e)
      requires removed == |Within(RunSet(rep.runs), s, e)|
      modifies this
      ensures Valid() && ckey == old(ckey) && rep == Runs(Spliced(old(rep.runs), i, j, repl))
      ensures Elements() == Without(old(Elements()), s, e) && card == old(card) - removed
    {
      RunsMembers(rep.runs);
      RunsMembers(Spliced(rep.runs, i, j, repl));
      hide Spliced, RunSet, RunsAscend, Within, Without;
      WithoutSize(RunSet(rep.runs), s, e);
      rep := Runs(Spliced(rep.runs, i, j, repl));
      card := card - removed;
    }

    /* ---------- ranges ---------- */

    // Through a BITSET, which the removal then shrinks to an ARRAY if it can.
    method RemoveRangeBitset(s: nat, e: nat) returns (removed: nat)
      requires Valid() && s <= e < RANGE
      modifies this
      ensures Valid() && ckey == old(ckey) && Elements() == Without(old(Elements()), s, e)
      ensures removed == |Within(old(Elements()), s, e)|
      ensures rep.Bitmap? ==> card > ARRAY_MAX
    {
      FitsFull(rep);
      var b := MakeBitmap(Value(), BITSET_WIDTH);
      Become(b);
      removed := ClearBits(s, e);
      Shrink();
    }

    method ClearBits(s: nat, e: nat) returns (removed: nat)
      requires Valid() && rep.Bitmap? && s <= e < RANGE
      modifies this
      ensures Valid() && ckey == old(ckey) && Elements() == Without(old(Elements()), s, e)
      ensures removed == |Within(old(Elements()), s, e)| && card == old(card) - removed
      ensures KindOf(rep) == old(KindOf(rep))
    {
      var k, w := rep.width, rep.blocks;
      ImageIsMembers(w, k);
      removed := RangeCardinality(w, k, s, e);
      WithoutSize(ImageSet(w), s, e);
      var r := MarkRange(w, k, s, e, false);
      ImageIsMembers(r, k);
      rep := Bitmap(k, r);
      card := card - removed;
    }

    method ClearRange(s: nat, e: nat) returns (removed: nat)
      requires Valid() && rep.Bitmap? && s <= e < RANGE
      modifies this
      ensures Valid() && ckey == old(ckey) && Elements() == Without(old(Elements()), s, e)
      ensures removed == |Within(old(Elements()), s, e)| && card == old(card) - removed
      ensures removed > 0 ==>
                KindOf(rep) == if card <= WidthArrayCard(old(rep).width) then AsArray else old(KindOf(rep))
      ensures removed == 0 ==> rep == old(rep)
    {
      ImageIsMembers(rep.blocks, rep.width);
      removed := RangeCardinality(rep.blocks, rep.width, s, e);
      if removed > 0 {
        removed := ClearBits(s, e);
        Shrink();
      } else {
        WithoutNone(Members(rep), s, e);
      }
    }

    method RemoveRange(s: nat, e: nat) returns (removed: nat)
      requires Valid() && s < RANGE && e < RANGE
      modifies this
      ensures Valid() && ckey == old(ckey)
      ensures Elements() == Without(old(Elements()), s, e)
      ensures removed == |Within(old(Elements()), s, e)|
      ensures old(!rep.Bitmap?) && rep.Bitmap? ==> card > ARRAY_MAX
      ensures old(rep.Bitmap?) && removed > 0 ==>
                KindOf(rep) == if card <= WidthArrayCard(old(rep).width) then AsArray else old(KindOf(rep))
    {
      if s > e || card == 0 {
        EmptyRange(Members(rep), s, e);
        return 0;
      }
      match rep {
        case Array(vals) =>
          var from := LowerBound(vals, s);
          var to := UpperBound(vals, e);
          BoundsInOrder(vals, s, e, from, to);
          removed := to - from;
          ArrayCut(vals, from, to, s, e);
          CutArray(vals[..from] + vals[to..], s, e, removed);
        case Bitmap(_, _) =>
          removed := ClearRange(s, e);
        case Runs(runs) =>
          removed := RunRemoveRange(s, e);
      }
    }

    // The runs that reach into the range give way to what they leave of
    // themselves; with no room for that, the removal goes through a BITSET.
    method RunRemoveRange(s: nat, e: nat) returns (removed: nat)
      requires Valid() && rep.Runs? && s <= e < RANGE
      modifies this
      ensures Valid() && ckey == old(ckey)
      ensures Elements() == Without(old(Elements()), s, e)
      ensures removed == |Within(old(Elements()), s, e)|
      ensures rep.Bitmap? ==> card > ARRAY_MAX
    {
      hide RunSet, RunsAscend, Spliced, Reaches, Pieces, Within, Without;
      var runs := rep.runs;
      RunsMembers(runs);
      var i, j := FindReach(runs, s, e);
      if i > j {
        WithoutNone(RunSet(runs), s, e);
        return 0;
      }
      removed := ClippedCount(runs, i, j, s, e);
      var repl := Pieces(runs[i], runs[j], s, e);
      if |runs| - (j - i + 1) + |repl| > RUNS_MAX {
        removed := RemoveRangeBitset(s, e);
      } else {
        PiecesFit(runs, i, j, s, e);
        CutRuns(i, j + 1, repl, s, e, removed);
      }
    }

    // The ARRAY's members replaced by those of kept, removed fewer.
    method CutArray(kept: seq<nat>, ghost s: nat, ghost e: nat, removed: nat)
      requires Valid() && rep.Array? && ArrayOk(kept) && Members(Array(kept)) == Without(Elements(), s, e)
      requires |kept| + removed == |rep.vals|
      modifies this
      ensures Valid() && ckey == old(ckey) && rep == Array(kept) && Elements() == Without(old(Elements()), s, e)
      ensures removed == |Within(old(Elements()), s, e)|
    {
      ArrayMembers(rep.vals);
      ArrayMembers(kept);
      hide Members, ArrayOk, Within, Without;
      WithoutSize(Members(rep), s, e);
      rep := Array(kept);
      card := card - removed;
    }

    /* ---------- many at once ---------- */

    // Every member gone has, out.
    method RemoveIf(gone: set<nat>) returns (removed: nat)
      requires Valid()
      modifies this
      ensures Valid() && ckey == old(ckey)
      ensures Elements() == old(Elements()) - gone
      ensures removed == |old(Elements()) * gone|
      ensures old(rep.Array?) ==> rep.Array?
      ensures old(rep.Bitmap?) ==>
                KindOf(rep) == if card <= WidthArrayCard(old(rep).width) then AsArray else old(KindOf(rep))
      ensures old(rep.Runs?) && removed == 0 ==> rep == old(rep)
      ensures old(!rep.Bitmap?) && rep.Bitmap? ==> card > ARRAY_MAX
    {
      match rep {
        case Array(vals) =>
          var kept, n := FilterArray(vals, gone);
          ArrayMembers(vals);
          ArrayMembers(kept);
          removed := n;
          Filtered(Array(kept), |kept|, removed, gone);
        case Bitmap(k, w) =>
          var r, n := FilterImage(w, k, gone);
          ImageIsMembers(w, k);
          ImageIsMembers(r, k);
          removed := n;
          Filtered(Bitmap(k, r), card - removed, removed, gone);
          Shrink();
        case Runs(runs) =>
          RunsMembers(runs);
          var w, kept, n := FilterRuns(runs, gone);
          removed := n;
          FilterCounts(Members(rep), gone, kept, removed);
          if removed == 0 {
            return;
          }
          var c := Rebuild(ckey, w, kept);
          Filtered(c.rep, kept, removed, gone);
      }
    }

    // The members kept, in r, and how many they are.
    method Filtered(r: Rep, kept: nat, removed: nat, ghost gone: set<nat>)
      requires Valid() && RepOk(r) && Members(r) == Elements() - gone
      requires kept == |Members(r)| && kept + removed == card
      modifies this
      ensures Valid() && ckey == old(ckey) && rep == r && card == kept
      ensures Elements() == old(Elements()) - gone && removed == |old(Elements()) * gone|
    {
      FilterCounts(Members(rep), gone, kept, removed);
      rep, card := r, kept;
    }

    // A builder's next member, masked into range: what Add() would leave,
    // without a search when it ascends.
    method AppendSorted(value: nat)
      requires Valid()
      modifies this
      ensures Valid() && ckey == old(ckey) && Elements() == old(Elements()) + {value % RANGE}
      ensures value % RANGE in old(Elements()) ==> rep == old(rep)
      ensures value % RANGE !in old(Elements()) ==> KindOf(rep) == old(KindAfterAdd(Value(), value % RANGE))
    {
      hide Members, ArrayOk, RunsOk, Image;
      var lo := value % RANGE;
      if rep.Array? && Ends(rep.vals, lo) {
        PastTheEnd(rep.vals, lo);
        ArrayMembers(rep.vals);
        if |rep.vals| < ARRAY_MAX {
          PutLast(lo);
          return;
        }
        FitsFull(rep);
        var b := MakeBitmap(Value(), BITSET_WIDTH);
        Become(b);
      }
      if rep.Bitmap? && WordOf(lo) < rep.width {
        TestDecides(rep.blocks, rep.width, lo);
        ImageIsMembers(rep.blocks, rep.width);
        if Test(rep.blocks, rep.width, lo) {
          HasAlready(Members(rep), lo);
          return;
        }
        SetIn(lo);
        return;
      }
      var added := Add(lo);
    }

    method PutLast(lo: nat)
      requires Valid() && rep.Array? && |rep.vals| < ARRAY_MAX && lo < RANGE && Ends(rep.vals, lo)
      modifies this
      ensures Valid() && ckey == old(ckey) && rep.Array? && Elements() == old(Elements()) + {lo}
    {
      hide Members, ArrayOk, Ends;
      PutAtEnd(rep.vals, lo);
      rep, card := Array(rep.vals + [lo]), |rep.vals| + 1;
    }

    // Accumulation in a BITSET, which stays one whatever it holds.
    method OrInPlace(c: Container) returns (added: nat)
      requires Valid() && WellFormed(c) && KindOf(rep) == AsBitmap(BITSET_WIDTH)
      modifies this
      ensures Valid() && ckey == old(ckey) && KindOf(rep) == AsBitmap(BITSET_WIDTH)
      ensures Elements() == old(Elements()) + Members(c.rep)
      ensures card == old(card) + added
    {
      ghost var s, n := Members(rep), card;
      ImageIsMembers(rep.blocks, BITSET_WIDTH);
      var w;
      match c.rep {
        case Array(vals) =>
          ArrayMembers(vals);
          w, added := SetNew(vals, rep.blocks, s, n);
        case Bitmap(k, words) =>
          ImageIsMembers(words, k);
          w, added := SetNewWords(words, k, rep.blocks, s, n);
        case Runs(runs) =>
          RunsMembers(runs);
          w, added := SetNewRuns(runs, rep.blocks, s, n);
      }
      ImageIsMembers(w, BITSET_WIDTH);
      rep := Bitmap(BITSET_WIDTH, w);
      card := card + added;
    }

    // Values in any order, repeats allowed, each masked into range.
    method AddMany(vals: seq<nat>)
      requires Valid()
      modifies this
      ensures Valid() && ckey == old(ckey) && Optimal(Value())
      ensures Elements() == old(Elements()) + Masked(vals, |vals|)
    {
      hide Members, ImageSet, Image, Masked, Narrowed, RepOk;
      MembersInRange(rep);
      FullWidthHoldsAll(Members(rep));
      var w := FillBitmap(Value(), BITSET_WIDTH);
      w := SetMasked(vals, w);
      BitsetIsOk(w);
      var n := Cardinality(w, BITSET_WIDTH);
      ImageIsMembers(w, BITSET_WIDTH);
      rep, card := Bitmap(BITSET_WIDTH, w), n;
      OptimizeInPlace();
    }

    method OptimizeInPlace()
      requires Valid()
      modifies this
      ensures Valid() && ckey == old(ckey) && card == old(card) && Elements() == old(Elements()) && Optimal(Value())
    {
      var c := Optimize(Value(), true);
      Become(c);
    }
  }

  predicate Ends(vals: seq<nat>, lo: nat) { vals == [] || vals[|vals| - 1] < lo }

  lemma PastTheEnd(vals: seq<nat>, lo: nat)
    requires ArrayOk(vals) && Ends(vals, lo)
    ensures IsLowerBound(vals, lo, |vals|) && lo !in vals && lo !in Members(Array(vals))
  {
  }

  lemma PutAtEnd(vals: seq<nat>, lo: nat)
    requires ArrayOk(vals) && |vals| < ARRAY_MAX && lo < RANGE && Ends(vals, lo)
    ensures ArrayOk(vals + [lo]) && Members(Array(vals + [lo])) == Members(Array(vals)) + {lo}
    ensures |Members(Array(vals + [lo]))| == |vals| + 1
  {
    PastTheEnd(vals, lo);
    ArrayInserted(vals, lo, |vals|);
    assert vals[..|vals|] + [lo] + vals[|vals|..] == vals + [lo];
    hide ArrayOk;
    ArrayMembers(vals + [lo]);
  }

  lemma HasAlready(s: set<nat>, x: nat)
    requires x in s
    ensures s + {x} == s
  {
  }

  lemma BitsetIsOk(w: Blocks)
    requires Image(w, BITSET_WIDTH)
    ensures RepOk(Bitmap(BITSET_WIDTH, w))
  {
  }

  method SetMasked(vals: seq<nat>, w0: Blocks) returns (w: Blocks)
    requires Image(w0, BITSET_WIDTH)
    ensures Image(w, BITSET_WIDTH) && ImageSet(w) == ImageSet(w0) + Masked(vals, |vals|)
  {
    w := w0;
    for i := 0 to |vals|
      invariant Image(w, BITSET_WIDTH) && ImageSet(w) == ImageSet(w0) + Masked(vals, i)
    {
      SetBitAdds(w, BITSET_WIDTH, vals[i] % RANGE);
      w := SetBit(w, BITSET_WIDTH, vals[i] % RANGE);
    }
  }

  // The values of the first n, masked into range.
  ghost function Masked(vals: seq<nat>, n: nat): set<nat>
    requires n <= |vals|
  {
    if n == 0 then {} else Masked(vals, n - 1) + {vals[n - 1] % RANGE}
  }

  lemma FilterCounts(s: set<nat>, gone: set<nat>, kept: nat, removed: nat)
    requires kept == |s - gone| && kept + removed == |s|
    ensures removed == |s * gone| && (removed == 0 ==> s - gone == s)
  {
    DifferenceSize(s, gone);
    if removed == 0 {
      SubsetSize(s - gone, s);
    }
  }

  lemma EmptyRange(m: set<nat>, s: nat, e: nat)
    requires s > e || |m| == 0
    ensures Without(m, s, e) == m && |Within(m, s, e)| == 0
  {
    assert Within(m, s, e) == {};
  }

  lemma BoundsInOrder(vals: seq<nat>, s: nat, e: nat, from: nat, to: nat)
    requires s <= e && IsLowerBound(vals, s, from) && IsLowerBound(vals, e + 1, to)
    ensures from <= to
  {
    assert to < |vals| ==> vals[to] >= e + 1;
  }

  /* ---------- the runs of an addition ---------- */

  lemma FitsWider(rep: Rep, k: nat)
    requires rep.Bitmap? && RepOk(rep) && k > rep.width
    ensures FitsWidth(Members(rep), k)
  {
  }

  lemma RunHolds(runs: seq<Run>, i: nat, x: nat)
    requires RunsAscend(runs) && i < |runs| && InRun(runs[i], x)
    ensures x in Members(Runs(runs))
  {
    RunsMembers(runs);
    InRunSetTo(runs, |runs|, x);
  }

  // Located: lo lies past run idx and before run idx + 1.
  ghost predicate Located(runs: seq<Run>, idx: int, lo: nat) {
    && RunsAscend(runs) && -1 <= idx < |runs| && lo < RANGE
    && (idx >= 0 ==> runs[idx].Last() < lo)
    && (idx + 1 < |runs| ==> lo < runs[idx + 1].start)
  }

  lemma RunsShape(c: Container)
    requires WellFormed(c) && c.rep.Runs?
    ensures RunsAscend(c.rep.runs) && |c.rep.runs| <= RUNS_MAX
  {
  }

  lemma NotNextTo(runs: seq<Run>, idx: int, lo: nat)
    requires Located(runs, idx, lo)
    requires idx >= 0 ==> lo != runs[idx].Last() + 1
    requires idx + 1 < |runs| ==> runs[idx + 1].start != lo + 1
    ensures !NextTo(Members(Runs(runs)), lo)
  {
    RunsMembers(runs);
    forall q | 0 <= q < |runs|
      ensures !InRun(runs[q], lo + 1) && (lo > 0 ==> !InRun(runs[q], lo - 1))
    {
      if q <= idx {
        InOrder(runs, q, idx);
      } else {
        InOrder(runs, idx + 1, q);
      }
    }
    InRunSetTo(runs, |runs|, lo + 1);
    if lo > 0 {
      InRunSetTo(runs, |runs|, lo - 1);
    }
  }

  lemma MergedRuns(runs: seq<Run>, idx: nat, lo: nat)
    requires Located(runs, idx, lo) && idx + 1 < |runs| && lo == runs[idx].Last() + 1 && runs[idx + 1].start == lo + 1
    ensures var r := Spliced(runs, idx, idx + 2, [Run(runs[idx].start, runs[idx + 1].Last() - runs[idx].start)]);
            RunsAscend(r) && RunSet(r) == RunSet(runs) + {lo}
  {
    var one := Run(runs[idx].start, runs[idx + 1].Last() - runs[idx].start);
    forall x: nat
      ensures x in RunSet([one]) <==> InSome(runs, idx, idx + 2, x) || x in {lo}
    {
      SetOfOne(one, x);
      assert InRun(one, x) <==> InRun(runs[idx], x) || InRun(runs[idx + 1], x) || x == lo;
    }
    SpliceAdds(runs, idx, idx + 2, [one], {lo});
  }

  lemma ExtendedRight(runs: seq<Run>, idx: nat, lo: nat)
    requires Located(runs, idx, lo) && idx < |runs| && lo == runs[idx].Last() + 1
    requires idx + 1 < |runs| ==> runs[idx + 1].start != lo + 1
    ensures var r := Spliced(runs, idx, idx + 1, [Run(runs[idx].start, runs[idx].more + 1)]);
            RunsAscend(r) && RunSet(r) == RunSet(runs) + {lo}
  {
    var one := Run(runs[idx].start, runs[idx].more + 1);
    forall x: nat
      ensures x in RunSet([one]) <==> InSome(runs, idx, idx + 1, x) || x in {lo}
    {
      SetOfOne(one, x);
      assert InRun(one, x) <==> InRun(runs[idx], x) || x == lo;
    }
    SpliceAdds(runs, idx, idx + 1, [one], {lo});
  }

  lemma ExtendedLeft(runs: seq<Run>, idx: int, lo: nat)
    requires Located(runs, idx, lo) && idx + 1 < |runs| && runs[idx + 1].start == lo + 1
    requires idx >= 0 ==> lo != runs[idx].Last() + 1
    ensures var r := Spliced(runs, idx + 1, idx + 2, [Run(lo, runs[idx + 1].more + 1)]);
            RunsAscend(r) && RunSet(r) == RunSet(runs) + {lo}
  {
    var one := Run(lo, runs[idx + 1].more + 1);
    forall x: nat
      ensures x in RunSet([one]) <==> InSome(runs, idx + 1, idx + 2, x) || x in {lo}
    {
      SetOfOne(one, x);
      assert InRun(one, x) <==> InRun(runs[idx + 1], x) || x == lo;
    }
    SpliceAdds(runs, idx + 1, idx + 2, [one], {lo});
  }

  // A run of lo alone, at its place, next to none.
  lemma NewRun(runs: seq<Run>, at: nat, lo: nat)
    requires RunsAscend(runs) && at <= |runs| && lo < RANGE
    requires at > 0 ==> runs[at - 1].Last() + 1 < lo
    requires at < |runs| ==> lo + 1 < runs[at].start
    ensures RunsAscend(Spliced(runs, at, at, [Run(lo, 0)]))
    ensures RunSet(Spliced(runs, at, at, [Run(lo, 0)])) == RunSet(runs) + {lo}
  {
    hide RunSet;
    forall x: nat
      ensures x in RunSet([Run(lo, 0)]) <==> InSome(runs, at, at, x) || x in {lo}
    {
      SetOfOne(Run(lo, 0), x);
    }
    SpliceAdds(runs, at, at, [Run(lo, 0)], {lo});
  }

  /* ---------- the runs of a removal ---------- */

  // What runs first .. last leave of themselves without the values s .. e.
  function Pieces(first: Run, last: Run, s: nat, e: nat): seq<Run> {
    (if first.start < s then [Run(first.start, s - 1 - first.start)] else []) +
    (if last.Last() > e then [Run(e + 1, last.Last() - (e + 1))] else [])
  }

  lemma PieceMembers(first: Run, last: Run, s: nat, e: nat, x: nat)
    requires s <= e
    ensures x in RunSet(Pieces(first, last, s, e)) <==>
            (first.start <= x < s) || (e < x <= last.Last())
  {
    var p := Pieces(first, last, s, e);
    var a, b := Run(first.start, if first.start < s then s - 1 - first.start else 0),
                Run(e + 1, if last.Last() > e then last.Last() - (e + 1) else 0);
    if first.start < s && last.Last() > e {
      assert p == [a, b];
      SetOfTwo(a, b, x);
    } else if first.start < s {
      assert p == [a];
      SetOfOne(a, x);
    } else if last.Last() > e {
      assert p == [b];
      SetOfOne(b, x);
    } else {
      assert p == [];
    }
  }

  lemma PiecesFit(runs: seq<Run>, i: nat, j: nat, s: nat, e: nat)
    requires Reaches(runs, i, j, s, e)
    ensures var r := Spliced(runs, i, j + 1, Pieces(runs[i], runs[j], s, e));
            RunsAscend(r) && RunSet(r) == Without(RunSet(runs), s, e)
  {
    var repl := Pieces(runs[i], runs[j], s, e);
    PiecesBetween(runs, i, j, s, e);
    hide RunSet, RunsAscend, FitsBetween, Reaches, Pieces, Spliced;
    forall x: nat
      ensures x in RunSet(repl) <==> InSome(runs, i, j + 1, x) && !(s <= x <= e)
    {
      PieceMembers(runs[i], runs[j], s, e, x);
      EndsDecide(runs, i, j, s, e, x);
    }
    SpliceRemoves(runs, i, j + 1, repl, s, e);
  }

  lemma PiecesBetween(runs: seq<Run>, i: nat, j: nat, s: nat, e: nat)
    requires Reaches(runs, i, j, s, e)
    ensures FitsBetween(runs, i, j + 1, Pieces(runs[i], runs[j], s, e))
    ensures RunsAscend(runs) && (i > 0 ==> runs[i - 1].Last() < s) && (j + 1 < |runs| ==> e < runs[j + 1].start)
    ensures s <= e
  {
    InOrder(runs, i, j);
  }

  // Of the runs that reach into a range, only the first has values before it
  // and only the last has values after.
  lemma EndsDecide(runs: seq<Run>, i: nat, j: nat, s: nat, e: nat, x: nat)
    requires Reaches(runs, i, j, s, e)
    ensures InSome(runs, i, j + 1, x) && !(s <= x <= e) <==> (runs[i].start <= x < s) || (e < x <= runs[j].Last())
  {
    if InSome(runs, i, j + 1, x) {
      var q :| i <= q < j + 1 && InRun(runs[q], x);
      InOrder(runs, i, q);
      InOrder(runs, q, j);
      assert q > i ==> runs[i].Last() < runs[q].start;
      assert q < j ==> runs[q].Last() < runs[j].start;
    }
    if runs[i].start <= x < s {
      assert InRun(runs[i], x);
    }
    if e < x <= runs[j].Last() {
      assert InRun(runs[j], x);
    }
  }

  lemma InsideDecides(runs: seq<Run>, idx: nat, lo: nat)
    requires RunsAscend(runs) && idx < |runs| && InRun(runs[idx], lo)
    ensures Reaches(runs, idx, idx, lo, lo)
    ensures Inside(Members(Runs(runs)), lo) <==> |Pieces(runs[idx], runs[idx], lo, lo)| == 2
  {
    RunsMembers(runs);
    if runs[idx].start == lo && lo > 0 {
      NotInRuns(runs, idx, lo - 1);
    }
    if runs[idx].Last() == lo {
      NotInRuns(runs, idx, lo + 1);
    }
    InRunSetTo(runs, |runs|, lo + 1);
    if lo > 0 {
      InRunSetTo(runs, |runs|, lo - 1);
    }
    if runs[idx].start < lo < runs[idx].Last() {
      assert InRun(runs[idx], lo - 1) && InRun(runs[idx], lo + 1);
    }
  }

  // A value next to a run, outside it, is in no run.
  lemma NotInRuns(runs: seq<Run>, idx: nat, x: nat)
    requires RunsAscend(runs) && idx < |runs| && (x + 1 == runs[idx].start || x == runs[idx].Last() + 1)
    ensures x !in RunSet(runs)
  {
    InRunSetTo(runs, |runs|, x);
    forall q | 0 <= q < |runs|
      ensures !InRun(runs[q], x)
    {
      assert q < idx ==> runs[q].Last() + 1 < runs[idx].start;
      assert q > idx ==> runs[idx].Last() + 1 < runs[q].start;
    }
  }
}
