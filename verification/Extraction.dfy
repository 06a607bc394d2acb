/**
  A container's members in ascending order, and its runs: read off the bits of
  a bitmap's words, lowest first, or off the runs of a RUN.
*/
module Extraction {
  import opened Options
  import opened Sets
  import opened Containers
  import opened Images
  import opened ImageScans

  /* ---------- one word's bits ---------- */

  lemma {:induction false} LeastExists(x: Word)
    requires x != {}
    ensures exists m :: m in x && forall y :: y in x ==> m <= y
  {
    var a :| a in x;
    if x != {a} {
      LeastExists(x - {a});
      var b :| b in x - {a} && forall y :: y in x - {a} ==> b <= y;
      var m := if a < b then a else b;
      assert forall y :: y in x ==> y == a || y in x - {a};
      assert m in x && forall y :: y in x ==> m <= y;
    }
  }

  // The rightmost one bit.
  function LeastBit(x: Word): (m: nat)
    requires x != {}
    ensures m in x && forall y :: y in x ==> m <= y
  {
    LeastExists(x);
    var m :| m in x && forall y :: y in x ==> m <= y;
    m
  }

  // cur holds the bits of word j of block b from value f on.
  ghost predicate Pending(w: Blocks, b: nat, j: nat, cur: Word, f: nat) {
    && b < BLOCKS && j < BITSET_WIDTH && Pos(b, j) <= f <= Pos(b, j + 1)
    && forall bit :: bit in cur <==> bit in WordAt(w, b, j) && Plus(Pos(b, j), bit) >= f
  }

  lemma TakeBit(w: Blocks, b: nat, j: nat, cur: Word, f: nat)
    requires Pending(w, b, j, cur, f) && cur != {}
    ensures var v := Pos(b, j) + LeastBit(cur);
            && f <= v < RANGE && v in ImageSet(w) && (forall x :: x in Slice(ImageSet(w), 0, f) ==> x < v)
            && Slice(ImageSet(w), 0, v + 1) == Slice(ImageSet(w), 0, f) + {v}
            && Pending(w, b, j, cur - {LeastBit(cur)}, v + 1)
  {
    var m := LeastBit(cur);
    var v := Pos(b, j) + m;
    assert v == Plus(Pos(b, j), m);
    ValueAtIsInverse(b, j, m);
    forall x | x in ImageSet(w) && f <= x <= v
      ensures x == v
    {
      var bit := x - Pos(b, j);
      ValueAtIsInverse(b, j, bit);
      assert x == Plus(Pos(b, j), bit);
      assert bit in cur;
    }
  }

  lemma NoBitLeft(w: Blocks, b: nat, j: nat, f: nat)
    requires Pending(w, b, j, {}, f)
    ensures Slice(ImageSet(w), 0, Pos(b, j + 1)) == Slice(ImageSet(w), 0, f)
  {
    var s, t := Slice(ImageSet(w), 0, Pos(b, j + 1)), Slice(ImageSet(w), 0, f);
    forall x | x in s
      ensures x in t
    {
      if Pos(b, j) <= x {
        var bit := x - Pos(b, j);
        ValueAtIsInverse(b, j, bit);
        assert x == Plus(Pos(b, j), bit) && bit in WordAt(w, b, j);
      }
    }
  }

  lemma WordPending(w: Blocks, b: nat, j: nat)
    requires b < BLOCKS && j < BITSET_WIDTH
    ensures Pending(w, b, j, WordAt(w, b, j), Pos(b, j))
  {
  }

  lemma BlockEnds(w: Blocks, k: nat, b: nat)
    requires Image(w, k) && k <= BITSET_WIDTH && b < BLOCKS
    ensures Slice(ImageSet(w), 0, Pos(b + 1, 0)) == Slice(ImageSet(w), 0, Pos(b, k))
  {
    PastWidth(w, k, b, k);
    assert Slice(ImageSet(w), 0, Pos(b + 1, 0)) ==
           Slice(ImageSet(w), 0, Pos(b, k)) + Slice(ImageSet(w), Pos(b, k), Pos(b + 1, 0));
  }

  lemma Snoc(s: seq<nat>, v: nat, t: set<nat>)
    requires Ascends(s) && ValuesOf(s) == t && forall x :: x in t ==> x < v
    ensures Ascends(s + [v]) && ValuesOf(s + [v]) == t + {v}
  {
    forall i | 0 <= i < |s|
      ensures s[i] < v
    {
      assert s[i] in t;
    }
  }

  /* ---------- the members of an image ---------- */

  // Every member, ascending, unless there are more than cap.
  method ImageValues(w: Blocks, k: nat, cap: nat) returns (r: Option<seq<nat>>)
    requires Image(w, k) && k <= BITSET_WIDTH
    ensures r.None? <==> |ImageSet(w)| > cap
    ensures r.Some? ==> Ascends(r.value) && ValuesOf(r.value) == ImageSet(w)
  {
    ghost var s := ImageSet(w);
    var out: seq<nat> := [];
    for b := 0 to BLOCKS
      invariant Ascends(out) && ValuesOf(out) == Slice(s, 0, Pos(b, 0)) && |out| <= cap
    {
      for j := 0 to k
        invariant Ascends(out) && ValuesOf(out) == Slice(s, 0, Pos(b, j)) && |out| <= cap
      {
        var cur := w[b][j];
        AscendingSize(out);
        WordSlice(w, b, j);
        SliceSplits(s, 0, Pos(b, j), Pos(b, j + 1));
        if |out| + |cur| > cap {
          SubsetSize(Slice(s, 0, Pos(b, j + 1)), s);
          return None;
        }
        out := WordValues(w, k, b, j, out);
        AscendingSize(out);
      }
      BlockEnds(w, k, b);
    }
    assert Slice(s, 0, Pos(BLOCKS, 0)) == s;
    AscendingSize(out);
    return Some(out);
  }

  // The members of one word, onto those of the words before it.
  method WordValues(w: Blocks, k: nat, b: nat, j: nat, out0: seq<nat>) returns (out: seq<nat>)
    requires Image(w, k) && k <= BITSET_WIDTH && b < BLOCKS && j < k
    requires Ascends(out0) && ValuesOf(out0) == Slice(ImageSet(w), 0, Pos(b, j))
    ensures Ascends(out) && ValuesOf(out) == Slice(ImageSet(w), 0, Pos(b, j + 1))
  {
    hide Slice, ImageSet, Ascends, ValuesOf, LeastBit;
    out := out0;
    var cur: Word := w[b][j];
    ghost var f: nat := Pos(b, j);
    WordPending(w, b, j);
    while cur != {}
      invariant Pending(w, b, j, cur, f) && Ascends(out) && ValuesOf(out) == Slice(ImageSet(w), 0, f)
      decreases |cur|
    {
      var m := LeastBit(cur);
      TakeBit(w, b, j, cur, f);
      Snoc(out, Pos(b, j) + m, Slice(ImageSet(w), 0, f));
      out := out + [Pos(b, j) + m];
      cur := cur - {m};
      f := Pos(b, j) + m + 1;
    }
    NoBitLeft(w, b, j, f);
  }

  /* ---------- runs, value by value ---------- */

  // The runs of ascending values, with one value more at their end.
  function AppendValue(runs: seq<Run>, v: nat): seq<Run> {
    if runs != [] && v == runs[|runs| - 1].Last() + 1
    then runs[|runs| - 1 := Run(runs[|runs| - 1].start, runs[|runs| - 1].more + 1)]
    else runs + [Run(v, 0)]
  }

  lemma ExtendLast(runs: seq<Run>, v: nat)
    requires RunsAscend(runs) && v < RANGE && runs != [] && v == runs[|runs| - 1].Last() + 1
    ensures RunsAscend(AppendValue(runs, v)) && RunSet(AppendValue(runs, v)) == RunSet(runs) + {v}
  {
    var n := |runs| - 1;
    SameRunSetTo(runs, AppendValue(runs, v), n);
    IntervalGrows(runs[n].start, v);
  }

  lemma AppendKeepsOrder(runs: seq<Run>, r: Run)
    requires RunsAscend(runs) && r.Last() < RANGE && (runs != [] ==> runs[|runs| - 1].Last() + 1 < r.start)
    ensures RunsAscend(runs + [r])
  {
    var more := runs + [r];
    forall i, j | 0 <= i < j < |more|
      ensures more[i].Last() + 1 < more[j].start
    {
      if j == |runs| {
        assert i < |runs| - 1 ==> runs[i].Last() + 1 < runs[|runs| - 1].start;
      }
    }
  }

  lemma AppendRun(runs: seq<Run>, r: Run)
    requires RunsAscend(runs) && r.Last() < RANGE && (runs != [] ==> runs[|runs| - 1].Last() + 1 < r.start)
    ensures RunsAscend(runs + [r]) && RunSet(runs + [r]) == RunSet(runs) + Interval(r.start, r.Last() + 1)
  {
    AppendKeepsOrder(runs, r);
    SameRunSetTo(runs, runs + [r], |runs|);
  }

  lemma AppendValueAdds(runs: seq<Run>, v: nat)
    requires RunsAscend(runs) && v < RANGE && (runs != [] ==> runs[|runs| - 1].Last() < v)
    ensures RunsAscend(AppendValue(runs, v)) && RunSet(AppendValue(runs, v)) == RunSet(runs) + {v}
  {
    hide RunsAscend, RunSet;
    if runs != [] && v == runs[|runs| - 1].Last() + 1 {
      ExtendLast(runs, v);
    } else {
      AppendRun(runs, Run(v, 0));
      IntervalOfOne(v);
    }
  }

  // The runs an extraction has seen, the last one still open, and what it has
  // stored: at most maxruns of the closed ones, all of them counted.
  ghost predicate Extracting(all: seq<Run>, out: seq<Run>, n: nat, maxruns: nat, rstart: int, rprev: int) {
    && RunsAscend(all)
    && (rstart < 0 ==> all == [] && n == 0 && rprev == -2)
    && (rstart >= 0 ==> |all| == n + 1 && rstart <= rprev && all[n] == Run(rstart, rprev - rstart))
    && out == all[..if n <= maxruns then n else maxruns]
  }

  method RunStep(ghost all: seq<Run>, out0: seq<Run>, n0: nat, maxruns: nat, rstart0: int, rprev0: int, v: nat)
    returns (out: seq<Run>, n: nat, rstart: int, rprev: int)
    requires Extracting(all, out0, n0, maxruns, rstart0, rprev0) && v < RANGE
    requires all != [] ==> all[|all| - 1].Last() < v
    ensures Extracting(AppendValue(all, v), out, n, maxruns, rstart, rprev)
  {
    AppendValueAdds(all, v);
    out, n, rstart, rprev := out0, n0, rstart0, rprev0;
    if v == rprev + 1 {
      rprev := v;
      return;
    }
    if rstart >= 0 {
      if n < maxruns {
        out := out + [Run(rstart, rprev - rstart)];
      }
      n := n + 1;
    }
    rstart, rprev := v, v;
  }

  // The last run, still open, closed.
  method RunEnd(ghost all: seq<Run>, out0: seq<Run>, n0: nat, maxruns: nat, rstart: int, rprev: int)
    returns (out: seq<Run>, n: nat)
    requires Extracting(all, out0, n0, maxruns, rstart, rprev)
    ensures n == |all| && (n <= maxruns ==> out == all)
  {
    out, n := out0, n0;
    if rstart >= 0 {
      if n < maxruns {
        out := out + [Run(rstart, rprev - rstart)];
      }
      n := n + 1;
    }
  }

  // The runs seen so far are those of the members below f.
  ghost predicate Seen(all: seq<Run>, s: set<nat>, f: nat) {
    RunsAscend(all) && RunSet(all) == Slice(s, 0, f)
  }

  lemma SeenMore(all: seq<Run>, s: set<nat>, f: nat, v: nat)
    requires Seen(all, s, f) && f <= v < RANGE && Slice(s, 0, v + 1) == Slice(s, 0, f) + {v}
    ensures all != [] ==> all[|all| - 1].Last() < v
    ensures Seen(AppendValue(all, v), s, v + 1)
  {
    if all != [] {
      InRunSetTo(all, |all|, all[|all| - 1].Last());
      assert InRun(all[|all| - 1], all[|all| - 1].Last());
    }
    AppendValueAdds(all, v);
  }

  // The runs of one word's bits, after those of the words before it.
  method WordRuns(w: Blocks, k: nat, b: nat, j: nat, maxruns: nat, ghost all0: seq<Run>,
                  out0: seq<Run>, n0: nat, rstart0: int, rprev0: int)
    returns (ghost all: seq<Run>, out: seq<Run>, n: nat, rstart: int, rprev: int)
    requires Image(w, k) && k <= BITSET_WIDTH && b < BLOCKS && j < k
    requires Extracting(all0, out0, n0, maxruns, rstart0, rprev0) && Seen(all0, ImageSet(w), Pos(b, j))
    ensures Extracting(all, out, n, maxruns, rstart, rprev) && Seen(all, ImageSet(w), Pos(b, j + 1))
  {
    hide Extracting, LeastBit, ImageSet, Slice, AppendValue, RunSet, RunsAscend;
    all, out, n, rstart, rprev := all0, out0, n0, rstart0, rprev0;
    var cur: Word := w[b][j];
    ghost var f: nat := Pos(b, j);
    WordPending(w, b, j);
    while cur != {}
      invariant Pending(w, b, j, cur, f)
      invariant Extracting(all, out, n, maxruns, rstart, rprev) && Seen(all, ImageSet(w), f)
      decreases |cur|
    {
      var m := LeastBit(cur);
      var v := Pos(b, j) + m;
      TakeBit(w, b, j, cur, f);
      SeenMore(all, ImageSet(w), f, v);
      cur := cur - {m};
      out, n, rstart, rprev := RunStep(all, out, n, maxruns, rstart, rprev, v);
      all := AppendValue(all, v);
      f := v + 1;
    }
    NoBitLeft(w, b, j, f);
  }

  // The number of runs of members, and the runs when there are at most maxruns.
  method ImageRuns(w: Blocks, k: nat, maxruns: nat) returns (out: seq<Run>, n: nat)
    requires Image(w, k) && k <= BITSET_WIDTH
    ensures n == |RunStarts(ImageSet(w))|
    ensures n <= maxruns ==> |out| == n && RunsAscend(out) && Members(Runs(out)) == ImageSet(w)
  {
    hide ImageSet, Slice;
    var rstart, rprev := -1, -2;
    ghost var all: seq<Run> := [];
    out, n := [], 0;
    NothingSeen(ImageSet(w));
    for b := 0 to BLOCKS
      invariant Extracting(all, out, n, maxruns, rstart, rprev) && Seen(all, ImageSet(w), Pos(b, 0))
    {
      for j := 0 to k
        invariant Extracting(all, out, n, maxruns, rstart, rprev) && Seen(all, ImageSet(w), Pos(b, j))
      {
        all, out, n, rstart, rprev := WordRuns(w, k, b, j, maxruns, all, out, n, rstart, rprev);
      }
      BlockEnds(w, k, b);
    }
    out, n := RunEnd(all, out, n, maxruns, rstart, rprev);
    AllSeen(all, w);
  }

  lemma NothingSeen(s: set<nat>)
    ensures Seen([], s, 0)
  {
  }

  lemma AllSeen(all: seq<Run>, w: Blocks)
    requires Seen(all, ImageSet(w), Pos(BLOCKS, 0))
    ensures |all| == |RunStarts(ImageSet(w))| && Members(Runs(all)) == ImageSet(w)
  {
    assert Slice(ImageSet(w), 0, Pos(BLOCKS, 0)) == ImageSet(w);
    RunsMembers(all);
    RunSetCounts(all, |all|);
  }

  /* ---------- the members of runs ---------- */

  lemma {:induction false} PrefixSubset(runs: seq<Run>, n: nat, m: nat)
    requires n <= m <= |runs|
    ensures RunSetTo(runs, n) <= RunSetTo(runs, m)
    decreases m
  {
    if n < m {
      PrefixSubset(runs, n, m - 1);
    }
  }

  lemma RunRoom(runs: seq<Run>, i: nat, out: seq<nat>)
    requires RunsAscend(runs) && i < |runs| && Ascends(out) && ValuesOf(out) == RunSetTo(runs, i)
    ensures |out| + runs[i].more + 1 == |RunSetTo(runs, i + 1)| <= |RunSet(runs)|
  {
    AscendingSize(out);
    RunSetCounts(runs, i);
    RunSetCounts(runs, i + 1);
    PrefixSubset(runs, i + 1, |runs|);
    SubsetSize(RunSetTo(runs, i + 1), RunSet(runs));
  }

  lemma RunGrows(before: set<nat>, start: nat, v: nat)
    requires start <= v && forall x :: x in before ==> x < start
    ensures before + Interval(start, start) == before
    ensures before + Interval(start, v + 1) == before + Interval(start, v) + {v}
    ensures forall x :: x in before + Interval(start, v) ==> x < v
  {
    IntervalGrows(start, v);
  }

  // The values of one run, past those before it.
  method OneRun(r: Run, out0: seq<nat>, ghost before: set<nat>) returns (out: seq<nat>)
    requires Ascends(out0) && ValuesOf(out0) == before && forall x :: x in before ==> x < r.start
    ensures Ascends(out) && ValuesOf(out) == before + Interval(r.start, r.Last() + 1)
  {
    hide Interval, Ascends, ValuesOf;
    out := out0;
    var v := r.start;
    RunGrows(before, v, v);
    while v <= r.Last()
      invariant r.start <= v <= r.Last() + 1
      invariant Ascends(out) && ValuesOf(out) == before + Interval(r.start, v)
    {
      RunGrows(before, r.start, v);
      Snoc(out, v, before + Interval(r.start, v));
      out := out + [v];
      v := v + 1;
    }
  }

  // The values of run i, after those of the runs before it.
  method NextRun(runs: seq<Run>, i: nat, out0: seq<nat>) returns (out: seq<nat>)
    requires RunsAscend(runs) && i < |runs| && Ascends(out0) && ValuesOf(out0) == RunSetTo(runs, i)
    ensures Ascends(out) && ValuesOf(out) == RunSetTo(runs, i + 1) && |out| == |out0| + runs[i].more + 1
  {
    RunsBelow(runs, i);
    out := OneRun(runs[i], out0, RunSetTo(runs, i));
    assert ValuesOf(out) == RunSetTo(runs, i + 1);
    hide RunSetTo, Interval;
    RunRoom(runs, i, out0);
    SizeOfValues(out, RunSetTo(runs, i + 1));
  }

  lemma SizeOfValues(s: seq<nat>, t: set<nat>)
    requires Ascends(s) && ValuesOf(s) == t
    ensures |s| == |t|
  {
    AscendingSize(s);
  }

  // The values of a RUN's runs, ascending, unless there are more than cap.
  method RunValues(runs: seq<Run>, cap: nat) returns (r: Option<seq<nat>>)
    requires RunsAscend(runs)
    ensures r.None? <==> |RunSet(runs)| > cap
    ensures r.Some? ==> Ascends(r.value) && ValuesOf(r.value) == RunSet(runs)
  {
    var out: seq<nat> := [];
    for i := 0 to |runs|
      invariant Ascends(out) && ValuesOf(out) == RunSetTo(runs, i) && |out| <= cap
    {
      RunRoom(runs, i, out);
      if |out| + (runs[i].Last() - runs[i].start + 1) > cap {
        return None;
      }
      out := NextRun(runs, i, out);
    }
    AscendingSize(out);
    return Some(out);
  }
}
