/**
  Passes over a container's members that keep some of them or set more: what
  the bulk mutators are made of.
*/
module Filters {
  import opened Sets
  import opened Containers
  import opened Images
  import opened ImageScans
  import opened Extraction
  import opened Conversions

  /* ---------- the members a predicate does not pick ---------- */

  // gone holds the values the predicate picks.
  method FilterArray(vals: seq<nat>, gone: set<nat>) returns (kept: seq<nat>, removed: nat)
    requires ArrayOk(vals)
    ensures ArrayOk(kept) && ValuesOf(kept) == ValuesOf(vals) - gone && |kept| + removed == |vals|
  {
    kept, removed := [], 0;
    for i := 0 to |vals|
      invariant |kept| + removed == i
      invariant Ascends(kept) && ValuesOf(kept) == ValuesOf(vals[..i]) - gone
    {
      assert vals[..i + 1] == vals[..i] + [vals[i]];
      assert ValuesOf(vals[..i + 1]) == ValuesOf(vals[..i]) + {vals[i]};
      if vals[i] in gone {
        removed := removed + 1;
      } else {
        EarlierAreLess(vals, i);
        Snoc(kept, vals[i], ValuesOf(vals[..i]) - gone);
        kept := kept + [vals[i]];
      }
    }
    assert vals[..|vals|] == vals;
    InRangeOf(kept, vals);
  }

  lemma EarlierAreLess(vals: seq<nat>, i: nat)
    requires Ascends(vals) && i < |vals|
    ensures forall x :: x in ValuesOf(vals[..i]) ==> x < vals[i]
  {
    forall x | x in ValuesOf(vals[..i])
      ensures x < vals[i]
    {
      var j :| 0 <= j < i && vals[..i][j] == x;
    }
  }

  lemma InRangeOf(kept: seq<nat>, vals: seq<nat>)
    requires ArrayOk(vals) && Ascends(kept) && |kept| <= |vals| && ValuesOf(kept) <= ValuesOf(vals)
    ensures ArrayOk(kept)
  {
    forall i | 0 <= i < |kept|
      ensures kept[i] < RANGE
    {
      assert kept[i] in ValuesOf(kept);
    }
  }

  // The bits of word j of block b whose values gone has.
  function PickedBits(b: nat, j: nat, gone: set<nat>): Word {
    set bit | 0 <= bit < 64 && ValueAt(b, j, bit) in gone
  }

  // One word, bit by bit.
  method FilterWord(x: Word, b: nat, j: nat, gone: set<nat>) returns (keep: Word, removed: nat)
    ensures keep == x - PickedBits(b, j, gone) && |keep| + removed == |x|
  {
    keep, removed := x, 0;
    var cur: Word := x;
    while cur != {}
      invariant cur <= keep <= x && |keep| + removed == |x|
      invariant forall bit :: bit in keep <==> bit in x && (bit in cur || ValueAt(b, j, bit) !in gone)
      decreases |cur|
    {
      var m := LeastBit(cur);
      cur := cur - {m};
      if ValueAt(b, j, m) in gone {
        keep := keep - {m};
        removed := removed + 1;
      }
    }
  }

  method FilterImage(w: Blocks, k: nat, gone: set<nat>) returns (r: Blocks, removed: nat)
    requires Image(w, k) && k <= BITSET_WIDTH
    ensures Image(r, k) && ImageSet(r) == ImageSet(w) - gone && |ImageSet(r)| + removed == |ImageSet(w)|
  {
    r, removed := w, 0;
    for b := 0 to BLOCKS
      invariant Image(r, k)
      invariant forall c, i :: 0 <= c < b && 0 <= i < k ==> r[c][i] == w[c][i] - PickedBits(c, i, gone)
      invariant forall c :: b <= c < BLOCKS ==> r[c] == w[c]
      invariant BlocksCount(r, b) + removed == BlocksCount(w, b)
    {
      ghost var was := r;
      var words, n := FilterBlock(w[b], b, gone);
      removed := removed + n;
      r := r[b := words];
      SameBlocksCount(was, r, b);
    }
    ImageCount(r, k);
    ImageCount(w, k);
    FilteredSet(r, w, k, gone);
  }

  method FilterBlock(x: seq<Word>, b: nat, gone: set<nat>) returns (words: seq<Word>, removed: nat)
    ensures |words| == |x| && forall i :: 0 <= i < |x| ==> words[i] == x[i] - PickedBits(b, i, gone)
    ensures WordsCount(words, |x|) + removed == WordsCount(x, |x|)
  {
    words, removed := x, 0;
    for j := 0 to |x|
      invariant |words| == |x|
      invariant forall i :: 0 <= i < |x| ==> words[i] == if i < j then x[i] - PickedBits(b, i, gone) else x[i]
      invariant WordsCount(words, j) + removed == WordsCount(x, j)
    {
      var keep, n := FilterWord(x[j], b, j, gone);
      ghost var was := words;
      words := words[j := keep];
      SamePrefixCount(was, words, j);
      removed := removed + n;
    }
  }

  lemma FilteredSet(r: Blocks, w: Blocks, k: nat, gone: set<nat>)
    requires Image(w, k) && Image(r, k)
    requires forall b, j :: 0 <= b < BLOCKS && 0 <= j < k ==> r[b][j] == w[b][j] - PickedBits(b, j, gone)
    ensures ImageSet(r) == ImageSet(w) - gone
  {
    forall lo: nat | lo < RANGE
      ensures lo in ImageSet(r) <==> lo in ImageSet(w) && lo !in gone
    {
      ValueAtOf(lo);
    }
  }

  // w holds s, which has n members.
  ghost predicate Holding(w: Blocks, s: set<nat>, n: nat) {
    Image(w, BITSET_WIDTH) && ImageSet(w) == s && |s| == n
  }

  // One member more, or one there already.
  lemma HoldOne(w: Blocks, s: set<nat>, n: nat, v: nat)
    requires Holding(w, s, n) && v < RANGE
    ensures Image(w, BITSET_WIDTH) && (Test(w, BITSET_WIDTH, v) <==> v in s)
    ensures if v in s then Holding(w, s + {v}, n) else Holding(SetBit(w, BITSET_WIDTH, v), s + {v}, n + 1)
  {
    TestDecides(w, BITSET_WIDTH, v);
    SetBitAdds(w, BITSET_WIDTH, v);
    hide ImageSet;
    if v in s {
      assert s + {v} == s;
    }
  }

  lemma NothingHeld(runs: seq<Run>, gone: set<nat>)
    ensures Holding(Zero(BITSET_WIDTH), RunsKept(runs, 0, gone), 0)
  {
    ZeroIsEmpty(BITSET_WIDTH);
  }

  // What is kept of s and of the values a .. b - 1.
  ghost function KeptTo(s: set<nat>, a: nat, b: nat, gone: set<nat>): set<nat> { s + Interval(a, b) - gone }

  lemma KeepsOneMore(s: set<nat>, a: nat, v: nat, gone: set<nat>)
    requires a <= v && forall x :: x in s ==> x < a
    ensures KeptTo(s, a, v + 1, gone) == if v in gone then KeptTo(s, a, v, gone) else KeptTo(s, a, v, gone) + {v}
    ensures v !in KeptTo(s, a, v, gone)
  {
    RunGrows(s, a, v);
  }

  ghost function RunsKept(runs: seq<Run>, i: nat, gone: set<nat>): set<nat>
    requires i <= |runs|
  {
    RunSetTo(runs, i) - gone
  }

  lemma KeptAtEnds(runs: seq<Run>, i: nat, gone: set<nat>)
    requires i < |runs|
    ensures KeptTo(RunSetTo(runs, i), runs[i].start, runs[i].start, gone) == RunsKept(runs, i, gone)
    ensures KeptTo(RunSetTo(runs, i), runs[i].start, runs[i].Last() + 1, gone) == RunsKept(runs, i + 1, gone)
  {
    IntervalGrows(runs[i].start, runs[i].start);
  }

  // Run by run, value by value: an image of those kept, and their number.
  method FilterRuns(runs: seq<Run>, gone: set<nat>) returns (w: Blocks, kept: nat, removed: nat)
    requires RunsAscend(runs)
    ensures Holding(w, RunsKept(runs, |runs|, gone), kept) && kept + removed == |RunSet(runs)|
  {
    hide Holding, KeptTo, RunsKept, RunSetTo;
    w, kept, removed := Zero(BITSET_WIDTH), 0, 0;
    NothingHeld(runs, gone);
    RunSetCounts(runs, |runs|);
    for i := 0 to |runs|
      invariant Holding(w, RunsKept(runs, i, gone), kept) && kept + removed == RunTotal(runs, i)
    {
      RunsBelow(runs, i);
      KeptAtEnds(runs, i, gone);
      var n, m;
      w, n, m := FilterRun(runs[i], w, gone, RunSetTo(runs, i), kept);
      kept, removed := kept + n, removed + m;
    }
  }

  method FilterRun(r: Run, w0: Blocks, gone: set<nat>, ghost s: set<nat>, ghost n: nat)
    returns (w: Blocks, kept: nat, removed: nat)
    requires r.Last() < RANGE && forall x :: x in s ==> x + 1 < r.start
    requires Holding(w0, KeptTo(s, r.start, r.start, gone), n)
    ensures Holding(w, KeptTo(s, r.start, r.Last() + 1, gone), n + kept) && kept + removed == r.more + 1
  {
    hide Holding, KeptTo;
    w, kept, removed := w0, 0, 0;
    var v := r.start;
    while v <= r.Last()
      invariant r.start <= v <= r.Last() + 1 && kept + removed == v - r.start
      invariant Holding(w, KeptTo(s, r.start, v, gone), n + kept)
    {
      KeepsOneMore(s, r.start, v, gone);
      if v in gone {
        removed := removed + 1;
      } else {
        HoldOne(w, KeptTo(s, r.start, v, gone), n + kept, v);
        w := SetBit(w, BITSET_WIDTH, v);
        kept := kept + 1;
      }
      v := v + 1;
    }
  }

  /* ---------- an image into a container ---------- */

  // A RUN when the runs fit, else the smaller of an ARRAY, when it is legal,
  // and a BITSET.
  method Rebuild(ckey: nat, w: Blocks, card: nat) returns (c: Container)
    requires Image(w, BITSET_WIDTH) && card == |ImageSet(w)|
    ensures WellFormed(c) && c.ckey == ckey && Members(c.rep) == ImageSet(w)
    ensures KindOf(c.rep) == if |RunStarts(ImageSet(w))| <= RUNS_MAX then AsRuns
                             else if card <= ARRAY_MAX then AsArray else AsBitmap(BITSET_WIDTH)
  {
    ImageIsMembers(w, BITSET_WIDTH);
    var nruns := CountRuns(w, BITSET_WIDTH);
    if nruns <= RUNS_MAX {
      var runs, n := ImageRuns(w, BITSET_WIDTH, RUNS_MAX);
      return Container(ckey, card, Runs(runs));
    }
    if card <= ARRAY_MAX {
      var vals := ImageValues(w, BITSET_WIDTH, ARRAY_MAX);
      ValuesMakeArray(vals.value, ImageSet(w));
      return Container(ckey, card, Array(vals.value));
    }
    return Container(ckey, card, Bitmap(BITSET_WIDTH, w));
  }

  /* ---------- accumulation in a BITSET ---------- */

  // An ARRAY's members set, those that were new counted.
  method SetNew(vals: seq<nat>, w0: Blocks, ghost s0: set<nat>, ghost n: nat) returns (w: Blocks, added: nat)
    requires Holding(w0, s0, n) && forall i :: 0 <= i < |vals| ==> vals[i] < RANGE
    ensures Holding(w, s0 + ValuesOf(vals), n + added)
  {
    hide Holding;
    w, added := w0, 0;
    ghost var s := s0;
    for i := 0 to |vals|
      invariant Holding(w, s, n + added) && s == s0 + ValuesOf(vals[..i])
    {
      assert vals[..i + 1] == vals[..i] + [vals[i]];
      HoldOne(w, s, n + added, vals[i]);
      if !Test(w, BITSET_WIDTH, vals[i]) {
        w := SetBit(w, BITSET_WIDTH, vals[i]);
        added := added + 1;
      }
      s := s + {vals[i]};
    }
    assert vals[..|vals|] == vals;
  }

  ghost function JoinedTo(s: set<nat>, runs: seq<Run>, i: nat): set<nat>
    requires i <= |runs|
  {
    s + RunSetTo(runs, i)
  }

  lemma JoinsNone(s: set<nat>, runs: seq<Run>)
    ensures JoinedTo(s, runs, 0) == s
  {
  }

  lemma JoinsNext(s: set<nat>, runs: seq<Run>, i: nat)
    requires i < |runs|
    ensures JoinedTo(s, runs, i + 1) == JoinedTo(s, runs, i) + Interval(runs[i].start, runs[i].Last() + 1)
  {
  }

  // Each run's range set, less the values that were there already.
  method SetNewRuns(runs: seq<Run>, w0: Blocks, ghost s: set<nat>, ghost n: nat) returns (w: Blocks, added: nat)
    requires Holding(w0, s, n) && RunsAscend(runs)
    ensures Holding(w, JoinedTo(s, runs, |runs|), n + added)
  {
    hide Holding, JoinedTo;
    w, added := w0, 0;
    JoinsNone(s, runs);
    for i := 0 to |runs|
      invariant Holding(w, JoinedTo(s, runs, i), n + added)
    {
      var more;
      w, more := SetNewRun(runs[i], w, JoinedTo(s, runs, i), n + added);
      JoinsNext(s, runs, i);
      added := added + more;
    }
  }

  method SetNewRun(r: Run, w0: Blocks, ghost s: set<nat>, ghost n: nat) returns (w: Blocks, added: nat)
    requires Holding(w0, s, n) && r.Last() < RANGE
    ensures Holding(w, s + Interval(r.start, r.Last() + 1), n + added)
  {
    var had := RangeCardinality(w0, BITSET_WIDTH, r.start, r.Last());
    w := MarkRange(w0, BITSET_WIDTH, r.start, r.Last(), true);
    hide ImageSet, Narrowed, Interval;
    RangeAdds(s, r.start, r.Last());
    added := r.Last() - r.start + 1 - had;
  }

  lemma RangeAdds(s: set<nat>, a: nat, b: nat)
    requires a <= b < RANGE
    ensures |s + Interval(a, b + 1)| == |s| + (b - a + 1) - |Within(s, a, b)| && |Within(s, a, b)| <= b - a + 1
    ensures Narrowed(Interval(a, b + 1), BITSET_WIDTH) == Interval(a, b + 1)
  {
    IntervalSize(a, b + 1);
    UnionSize(s, Interval(a, b + 1));
    DifferenceSize(Interval(a, b + 1), s);
    assert Interval(a, b + 1) * s == Within(s, a, b);
    FullWidthHoldsAll(Interval(a, b + 1));
  }

  // A bitmap's words ORed in and what was new counted, in a pass of its width:
  // the words it has gathered, and put back.
  method SetNewWords(src: Blocks, k: nat, w0: Blocks, ghost s: set<nat>, ghost n: nat) returns (w: Blocks, added: nat)
    requires WidthOk(k) && Image(src, k) && Holding(w0, s, n)
    ensures Holding(w, s + ImageSet(src), n + added)
  {
    var gath := Rewiden(w0, BITSET_WIDTH, k);
    var more, count := Pass(AndNot, src, gath, k);
    FoldedSets(AndNot, more, src, gath, k);
    ImageFits(src, k);
    ImageFits(gath, k);
    added := count;
    w := Fold(Or, w0, BITSET_WIDTH, src, k);
    FoldedSets(Or, w, w0, src, BITSET_WIDTH);
    FullWidthHoldsAll(ImageSet(w0));
    FullWidthHoldsAll(ImageSet(src));
    UnionSize(ImageSet(w0), ImageSet(src));
    NewAreNew(ImageSet(src), ImageSet(w0), ImageSet(gath), k);
  }

  lemma NewAreNew(src: set<nat>, w: set<nat>, gathered: set<nat>, k: nat)
    requires gathered == Narrowed(w, k) && Narrowed(src, k) == src
    ensures src - gathered == src - w
  {
    forall x | x in src
      ensures x in gathered <==> x in w
    {
      assert x in Narrowed(src, k);
    }
  }
}
