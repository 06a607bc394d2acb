/**
  How two sorted sides meet: merges of ARRAYs and of runs, and the searches
  that take their place when one side is much the smaller.
*/
module Merges {
  import opened Naturals
  import opened Options
  import opened Sets
  import opened Containers
  import opened Images
  import opened Extraction
  import opened Canonical
  import opened Searches
  import opened RunRanges
  import opened Conversions

  const MERGE_MAX: nat := 48       // both sides together, at most: merge
  const SEARCH_RATIO: nat := 8     // fewer than 1/8 of the other side, and the
  const SEARCH_SLACK: nat := 64    // slack: search

  // out holds the values of s, ascending.
  ghost predicate Lists(out: seq<nat>, s: set<nat>) { Ascends(out) && ValuesOf(out) == s }

  /* ---------- a side filtered by what the other holds ---------- */

  // out holds those of arr's first i values that s has.
  ghost predicate Kept(arr: seq<nat>, i: nat, out: seq<nat>, s: set<nat>) {
    i <= |arr| && Ascends(arr) && |out| <= i && Lists(out, ValuesOf(arr[..i]) * s)
  }

  lemma KeepNone(arr: seq<nat>, s: set<nat>)
    requires Ascends(arr)
    ensures Kept(arr, 0, [], s)
  {
  }

  lemma KeepNext(arr: seq<nat>, i: nat, out: seq<nat>, s: set<nat>)
    requires Kept(arr, i, out, s) && i < |arr|
    ensures Kept(arr, i + 1, if arr[i] in s then out + [arr[i]] else out, s)
  {
    assert arr[..i + 1] == arr[..i] + [arr[i]];
    assert ValuesOf(arr[..i + 1]) == ValuesOf(arr[..i]) + {arr[i]};
    forall x | x in ValuesOf(arr[..i])
      ensures x < arr[i]
    {
      var j :| 0 <= j < i && arr[..i][j] == x;
    }
    Snoc(out, arr[i], ValuesOf(arr[..i]) * s);
  }

  // No value past i is in s.
  lemma KeptAll(arr: seq<nat>, i: nat, out: seq<nat>, s: set<nat>)
    requires Kept(arr, i, out, s) && forall p :: i <= p < |arr| ==> arr[p] !in s
    ensures Kept(arr, |arr|, out, s) && Lists(out, ValuesOf(arr) * s)
  {
    assert arr[..|arr|] == arr;
    assert arr == arr[..i] + arr[i..];
  }

  method ArrayAndBitmap(arr: seq<nat>, w: Blocks, k: nat) returns (out: seq<nat>)
    requires ArrayOk(arr) && Image(w, k)
    ensures Kept(arr, |arr|, out, ImageSet(w))
  {
    hide Kept, ImageSet;
    out := [];
    KeepNone(arr, ImageSet(w));
    for i := 0 to |arr|
      invariant Kept(arr, i, out, ImageSet(w))
    {
      KeepNext(arr, i, out, ImageSet(w));
      TestDecides(w, k, arr[i]);
      if Test(w, k, arr[i]) {
        out := out + [arr[i]];
      }
    }
  }

  method ArrayAndNotBitmap(arr: seq<nat>, w: Blocks, k: nat) returns (out: seq<nat>)
    requires ArrayOk(arr) && Image(w, k)
    ensures Kept(arr, |arr|, out, ValuesOf(arr) - ImageSet(w))
  {
    hide Kept, ImageSet;
    out := [];
    ghost var s := ValuesOf(arr) - ImageSet(w);
    KeepNone(arr, s);
    for i := 0 to |arr|
      invariant Kept(arr, i, out, s)
    {
      KeepNext(arr, i, out, s);
      TestDecides(w, k, arr[i]);
      if !Test(w, k, arr[i]) {
        out := out + [arr[i]];
      }
    }
  }

  // The larger ARRAY's members as an image, and the smaller's tested against it.
  method ArrayAndImage(small: seq<nat>, large: seq<nat>) returns (out: seq<nat>)
    requires ArrayOk(small) && ArrayOk(large)
    ensures Kept(small, |small|, out, ValuesOf(large))
  {
    var w := OrArray(large, Zero(BITSET_WIDTH), BITSET_WIDTH);
    ZeroIsEmpty(BITSET_WIDTH);
    AllInRange(large);
    FullWidthHoldsAll(ValuesOf(large));
    assert ImageSet(w) == ValuesOf(large);
    out := ArrayAndBitmap(small, w, BITSET_WIDTH);
  }

  lemma AllInRange(arr: seq<nat>)
    requires ArrayOk(arr)
    ensures forall x :: x in ValuesOf(arr) ==> x < RANGE
  {
  }

  // A few members against many: each galloped for, from where the last was.
  method ArrayAndGallop(small: seq<nat>, large: seq<nat>) returns (out: seq<nat>)
    requires Ascends(small) && Ascends(large)
    ensures Kept(small, |small|, out, ValuesOf(large))
  {
    hide Kept;
    out := [];
    ghost var s := ValuesOf(large);
    KeepNone(small, s);
    var li := 0;
    for i := 0 to |small|
      invariant Kept(small, i, out, s)
      invariant li <= |large| && forall q :: 0 <= q < li && i < |small| ==> large[q] < small[i]
    {
      li := Gallop(large, li, small[i]);
      if li >= |large| {
        KeptAll(small, i, out, s);
        return;
      }
      FoundAtLowerBound(large, small[i], li);
      KeepNext(small, i, out, s);
      if large[li] == small[i] {
        out := out + [small[i]];
      }
    }
  }

  /* ---------- a merge of two ARRAYs ---------- */

  // The merge has stepped past the first i of a and j of b, in order.
  ghost predicate Level(a: seq<nat>, i: nat, b: seq<nat>, j: nat) {
    && i <= |a| && j <= |b| && Ascends(a) && Ascends(b)
    && (i < |a| ==> forall q :: 0 <= q < j ==> b[q] < a[i])
    && (j < |b| ==> forall p :: 0 <= p < i ==> a[p] < b[j])
  }

  // ... and out is their intersection, union or difference.
  ghost predicate Merging(op: Op, a: seq<nat>, i: nat, b: seq<nat>, j: nat, out: seq<nat>) {
    Level(a, i, b, j) && Lists(out, FoldSet(op, ValuesOf(a[..i]), ValuesOf(b[..j])))
  }

  // What a step writes of the two heads.
  function Emits(op: Op, va: nat, vb: nat): seq<nat> {
    match op
    case And => if va == vb then [va] else []
    case Or => [if va <= vb then va else vb]
    case AndNot => if va < vb then [va] else []
  }

  lemma TakeNext(a: seq<nat>, i: nat)
    requires i < |a|
    ensures ValuesOf(a[..i + 1]) == ValuesOf(a[..i]) + {a[i]}
  {
    assert a[..i + 1] == a[..i] + [a[i]];
  }

  lemma EarlierBelow(a: seq<nat>, i: nat, v: nat)
    requires i <= |a| && forall p :: 0 <= p < i ==> a[p] < v
    ensures forall x :: x in ValuesOf(a[..i]) ==> x < v
  {
    forall x | x in ValuesOf(a[..i])
      ensures x < v
    {
      var p :| 0 <= p < i && a[..i][p] == x;
    }
  }

  lemma MergeStarts(op: Op, a: seq<nat>, b: seq<nat>)
    requires Ascends(a) && Ascends(b)
    ensures Merging(op, a, 0, b, 0, [])
  {
  }

  // The smaller head steps, both on a tie.
  lemma MergeStep(op: Op, a: seq<nat>, i: nat, b: seq<nat>, j: nat, out: seq<nat>)
    requires Merging(op, a, i, b, j, out) && i < |a| && j < |b|
    ensures Merging(op, a, if a[i] <= b[j] then i + 1 else i, b, if b[j] <= a[i] then j + 1 else j,
                    out + Emits(op, a[i], b[j]))
  {
    var va, vb := a[i], b[j];
    var m := if va <= vb then va else vb;
    EarlierBelow(a, i, m);
    EarlierBelow(b, j, m);
    TakeNext(a, i);
    TakeNext(b, j);
    var s, t := ValuesOf(a[..i]), ValuesOf(b[..j]);
    Stepped(a, i, b, j);
    if Emits(op, va, vb) != [] {
      Snoc(out, m, FoldSet(op, s, t));
    } else {
      assert out + [] == out;
    }
  }

  lemma Stepped(a: seq<nat>, i: nat, b: seq<nat>, j: nat)
    requires Level(a, i, b, j) && i < |a| && j < |b|
    ensures Level(a, if a[i] <= b[j] then i + 1 else i, b, if b[j] <= a[i] then j + 1 else j)
  {
  }

  // One side has run out.
  lemma MergeRest(op: Op, a: seq<nat>, i: nat, b: seq<nat>, j: nat, out: seq<nat>)
    requires Merging(op, a, i, b, j, out)
    ensures j == |b| && i < |a| ==> Merging(op, a, i + 1, b, j, if op == And then out else out + [a[i]])
    ensures i == |a| && j < |b| ==> Merging(op, a, i, b, j + 1, if op == Or then out + [b[j]] else out)
  {
    var s, t := ValuesOf(a[..i]), ValuesOf(b[..j]);
    if j == |b| && i < |a| {
      EarlierBelow(a, i, a[i]);
      EarlierBelow(b, j, a[i]);
      TakeNext(a, i);
      Snoc(out, a[i], FoldSet(op, s, t));
    }
    if i == |a| && j < |b| {
      EarlierBelow(a, i, b[j]);
      EarlierBelow(b, j, b[j]);
      TakeNext(b, j);
      Snoc(out, b[j], FoldSet(op, s, t));
    }
  }

  // Nothing that is left changes the result.
  lemma MergeEnds(op: Op, a: seq<nat>, i: nat, b: seq<nat>, j: nat, out: seq<nat>)
    requires Merging(op, a, i, b, j, out)
    requires match op case And => i == |a| || j == |b| case Or => i == |a| && j == |b| case AndNot => i == |a|
    ensures Lists(out, FoldSet(op, ValuesOf(a), ValuesOf(b)))
  {
    assert a[..|a|] == a && b[..|b|] == b;
    assert a == a[..i] + a[i..] && b == b[..j] + b[j..];
    if i == |a| && op != Or {
      forall x | x in ValuesOf(b[j..])
        ensures x !in ValuesOf(a)
      {
        var q :| 0 <= q < |b| - j && b[j..][q] == x;
        assert b[j] <= b[j + q];
      }
    }
    if j == |b| && op == And {
      forall x | x in ValuesOf(a[i..])
        ensures x !in ValuesOf(b)
      {
        var p :| 0 <= p < |a| - i && a[i..][p] == x;
        assert a[i] <= a[i + p];
      }
    }
  }

  method ArrayMerge(a: seq<nat>, b: seq<nat>) returns (out: seq<nat>)
    requires Ascends(a) && Ascends(b)
    ensures Lists(out, ValuesOf(a) * ValuesOf(b))
  {
    hide Merging;
    out := [];
    var i, j := 0, 0;
    MergeStarts(And, a, b);
    while i < |a| && j < |b|
      invariant i <= |a| && j <= |b| && Merging(And, a, i, b, j, out)
    {
      MergeStep(And, a, i, b, j, out);
      var va, vb := a[i], b[j];
      if va == vb {
        out := out + [va];
      } else {
        assert out + [] == out;
      }
      i := if va <= vb then i + 1 else i;
      j := if vb <= va then j + 1 else j;
    }
    MergeEnds(And, a, i, b, j, out);
  }

  // The intersection of two ARRAYs: galloped, through an image, or merged.
  method ArrayIntersect(a: seq<nat>, b: seq<nat>) returns (out: seq<nat>)
    requires ArrayOk(a) && ArrayOk(b)
    ensures Lists(out, ValuesOf(a) * ValuesOf(b))
  {
    var small, large := if |a| <= |b| then a else b, if |a| <= |b| then b else a;
    assert ValuesOf(small) * ValuesOf(large) == ValuesOf(a) * ValuesOf(b);
    if |small| * SEARCH_RATIO <= |large| + SEARCH_SLACK && |large| > |small| * 8 {
      out := ArrayAndGallop(small, large);
      KeptAll(small, |small|, out, ValuesOf(large));
    } else if |a| + |b| > MERGE_MAX {
      out := ArrayAndImage(small, large);
      KeptAll(small, |small|, out, ValuesOf(large));
    } else {
      out := ArrayMerge(a, b);
    }
  }

  method ArrayUnion(a: seq<nat>, b: seq<nat>) returns (out: seq<nat>)
    requires ArrayOk(a) && ArrayOk(b)
    ensures Lists(out, ValuesOf(a) + ValuesOf(b))
  {
    hide Merging;
    out := [];
    var i, j := 0, 0;
    MergeStarts(Or, a, b);
    while i < |a| && j < |b|
      invariant i <= |a| && j <= |b| && Merging(Or, a, i, b, j, out)
    {
      MergeStep(Or, a, i, b, j, out);
      var va, vb := a[i], b[j];
      out := out + [if va <= vb then va else vb];
      i := if va <= vb then i + 1 else i;
      j := if vb <= va then j + 1 else j;
    }
    while i < |a|
      invariant i <= |a| && j <= |b| && (i == |a| || j == |b|) && Merging(Or, a, i, b, j, out)
    {
      MergeRest(Or, a, i, b, j, out);
      out := out + [a[i]];
      i := i + 1;
    }
    while j < |b|
      invariant i == |a| && j <= |b| && Merging(Or, a, i, b, j, out)
    {
      MergeRest(Or, a, i, b, j, out);
      out := out + [b[j]];
      j := j + 1;
    }
    MergeEnds(Or, a, i, b, j, out);
  }

  method ArrayDifference(a: seq<nat>, b: seq<nat>) returns (out: seq<nat>)
    requires ArrayOk(a) && ArrayOk(b)
    ensures Lists(out, ValuesOf(a) - ValuesOf(b))
  {
    hide Merging;
    out := [];
    var i, j := 0, 0;
    MergeStarts(AndNot, a, b);
    while i < |a| && j < |b|
      invariant i <= |a| && j <= |b| && Merging(AndNot, a, i, b, j, out)
      decreases |a| - i + |b| - j
    {
      MergeStep(AndNot, a, i, b, j, out);
      assert out + [] == out;
      if a[i] < b[j] {
        out := out + [a[i]];
        i := i + 1;
      } else if a[i] > b[j] {
        j := j + 1;
      } else {
        i, j := i + 1, j + 1;
      }
    }
    while i < |a|
      invariant i <= |a| && j <= |b| && (i == |a| || j == |b|) && Merging(AndNot, a, i, b, j, out)
    {
      MergeRest(AndNot, a, i, b, j, out);
      out := out + [a[i]];
      i := i + 1;
    }
    MergeEnds(AndNot, a, i, b, j, out);
  }

  /* ---------- an ARRAY and runs ---------- */

  // Every run before j ends below v.
  ghost predicate RunsPassed(runs: seq<Run>, j: nat, v: nat) {
    j <= |runs| && forall q :: 0 <= q < j ==> runs[q].Last() < v
  }

  lemma PassedDecides(runs: seq<Run>, j: nat, v: nat)
    requires RunsAscend(runs) && RunsPassed(runs, j, v) && (j < |runs| ==> v <= runs[j].Last())
    ensures v in RunSet(runs) <==> j < |runs| && runs[j].start <= v
  {
    InRunSetTo(runs, |runs|, v);
    if j < |runs| && runs[j].start <= v {
      assert InRun(runs[j], v);
    }
    forall q | j < q < |runs|
      ensures !InRun(runs[q], v)
    {
      InOrder(runs, j, q);
    }
  }

  lemma RestPassed(runs: seq<Run>, arr: seq<nat>, i: nat)
    requires RunsAscend(runs) && Ascends(arr) && i <= |arr| && (i < |arr| ==> RunsPassed(runs, |runs|, arr[i]))
    ensures forall p :: i <= p < |arr| ==> arr[p] !in RunSet(runs)
  {
    forall p | i <= p < |arr|
      ensures arr[p] !in RunSet(runs)
    {
      PassedDecides(runs, |runs|, arr[p]);
    }
  }

  // Members of arr that are in the runs: searched for, through an image, or
  // merged with them.
  method ArrayAndRun(arr: seq<nat>, runs: seq<Run>) returns (out: seq<nat>)
    requires ArrayOk(arr) && RunsAscend(runs)
    ensures Kept(arr, |arr|, out, RunSet(runs))
  {
    hide Kept, RunSet;
    if runs == [] || arr == [] {
      KeepNone(arr, RunSet(runs));
      NoRuns(runs, |runs|);
      EmptyRuns(runs);
      KeptAll(arr, 0, [], RunSet(runs));
      return [];
    }
    if |arr| + |runs| > MERGE_MAX {
      if |arr| * SEARCH_RATIO <= |runs| + SEARCH_SLACK {
        out := ArrayAndRunSearch(arr, runs);
      } else {
        var w := MarkRuns(runs, Zero(BITSET_WIDTH), BITSET_WIDTH, true);
        RunsImage(runs, w);
        out := ArrayAndBitmap(arr, w, BITSET_WIDTH);
      }
    } else {
      out := ArrayAndRunMerge(arr, runs);
    }
  }

  lemma EmptyRuns(runs: seq<Run>)
    ensures runs == [] ==> RunSet(runs) == {}
  {
  }

  lemma RunsImage(runs: seq<Run>, w: Blocks)
    requires RunsAscend(runs)
    requires ImageSet(w) == ImageSet(Zero(BITSET_WIDTH)) + Narrowed(RunSet(runs), BITSET_WIDTH)
    ensures ImageSet(w) == RunSet(runs)
  {
    ZeroIsEmpty(BITSET_WIDTH);
    RunsMembers(runs);
    FullWidthHoldsAll(RunSet(runs));
  }

  method ArrayAndRunSearch(arr: seq<nat>, runs: seq<Run>) returns (out: seq<nat>)
    requires ArrayOk(arr) && RunsAscend(runs) && runs != []
    ensures Kept(arr, |arr|, out, RunSet(runs))
  {
    hide Kept, RunSet;
    out := [];
    KeepNone(arr, RunSet(runs));
    for i := 0 to |arr|
      invariant Kept(arr, i, out, RunSet(runs))
    {
      KeepNext(arr, i, out, RunSet(runs));
      var found := RunHasMember(runs, arr[i]);
      if found {
        out := out + [arr[i]];
      }
    }
  }

  method ArrayAndRunMerge(arr: seq<nat>, runs: seq<Run>) returns (out: seq<nat>)
    requires ArrayOk(arr) && RunsAscend(runs)
    ensures Kept(arr, |arr|, out, RunSet(runs))
  {
    hide Kept, RunSet;
    out := [];
    ghost var s := RunSet(runs);
    KeepNone(arr, s);
    var i, j := 0, 0;
    while i < |arr| && j < |runs|
      invariant i <= |arr| && Kept(arr, i, out, s)
      invariant j <= |runs| && (i < |arr| ==> RunsPassed(runs, j, arr[i]))
      decreases |arr| - i + |runs| - j
    {
      if arr[i] <= runs[j].Last() {
        PassedDecides(runs, j, arr[i]);
        KeepNext(arr, i, out, s);
        if arr[i] >= runs[j].start {
          out := out + [arr[i]];
        }
        i := i + 1;
      } else {
        j := j + 1;
      }
    }
    if j == |runs| {
      RestPassed(runs, arr, i);
    }
    KeptAll(arr, i, out, s);
  }

  method ArrayAndNotRun(arr: seq<nat>, runs: seq<Run>) returns (out: seq<nat>)
    requires ArrayOk(arr) && RunsAscend(runs)
    ensures Kept(arr, |arr|, out, ValuesOf(arr) - RunSet(runs))
  {
    hide Kept, RunSet;
    out := [];
    ghost var s := ValuesOf(arr) - RunSet(runs);
    KeepNone(arr, s);
    var i, j := 0, 0;
    while i < |arr| && j < |runs|
      invariant i <= |arr| && Kept(arr, i, out, s)
      invariant j <= |runs| && (i < |arr| ==> RunsPassed(runs, j, arr[i]))
      decreases |arr| - i + |runs| - j
    {
      if arr[i] < runs[j].start {
        PassedDecides(runs, j, arr[i]);
        KeepNext(arr, i, out, s);
        out := out + [arr[i]];
        i := i + 1;
      } else if arr[i] > runs[j].Last() {
        j := j + 1;
      } else {
        PassedDecides(runs, j, arr[i]);
        KeepNext(arr, i, out, s);
        i := i + 1;
      }
    }
    while i < |arr|
      invariant i <= |arr| && Kept(arr, i, out, s)
      invariant j <= |runs| && (i < |arr| ==> j == |runs| && RunsPassed(runs, j, arr[i]))
    {
      PassedDecides(runs, j, arr[i]);
      KeepNext(arr, i, out, s);
      out := out + [arr[i]];
      i := i + 1;
    }
  }

  /* ---------- runs and runs ---------- */

  // out is the runs of the values, below where the runs passed end, that the
  // two have in common.
  ghost predicate Meeting(a: seq<Run>, i: nat, b: seq<Run>, j: nat, out: seq<Run>) {
    && RunsAscend(a) && RunsAscend(b) && i <= |a| && j <= |b| && RunsAscend(out)
    && RunSet(out) == CommonTo(a, i, b, j)
    && (i < |a| ==> EndOf(b, j) <= a[i].Last() + 1)
    && (j < |b| ==> EndOf(a, i) <= b[j].Last() + 1)
  }

  ghost function CommonTo(a: seq<Run>, i: nat, b: seq<Run>, j: nat): set<nat>
    requires i <= |a| && j <= |b|
  {
    Slice(RunSet(a) * RunSet(b), 0, Max(EndOf(a, i), EndOf(b, j)))
  }

  lemma MeetingStarts(a: seq<Run>, b: seq<Run>)
    requires RunsAscend(a) && RunsAscend(b)
    ensures Meeting(a, 0, b, 0, [])
  {
    assert CommonTo(a, 0, b, 0) == {};
  }

  lemma Sides(a: seq<Run>, q: nat, i: nat)
    requires RunsAscend(a) && q < |a| && i < |a|
    ensures q < i ==> a[q].Last() < EndOf(a, i)
    ensures i <= q ==> a[i].start <= a[q].start
  {
    if q < i {
      InOrder(a, q, i - 1);
    } else {
      InOrder(a, i, q);
    }
  }

  // A value of the runs at or past where run i - 1 ends is at or past where
  // run i starts; all of run i are values; where run i - 1 ends none is.
  lemma AroundRun(a: seq<Run>, i: nat)
    requires RunsAscend(a) && i < |a|
    ensures forall x :: x in RunSet(a) && EndOf(a, i) <= x ==> a[i].start <= x
    ensures forall x: nat :: InRun(a[i], x) ==> x in RunSet(a)
    ensures EndOf(a, i) <= a[i].start && a[i].Last() + 1 !in RunSet(a)
    ensures i > 0 ==> EndOf(a, i) !in RunSet(a) && EndOf(a, i) < a[i].start
  {
    forall x: nat
      ensures x in RunSet(a) && EndOf(a, i) <= x ==> a[i].start <= x
      ensures InRun(a[i], x) ==> x in RunSet(a)
    {
      InRunSetTo(a, |a|, x);
      if x in RunSet(a) {
        var q :| 0 <= q < |a| && InRun(a[q], x);
        Sides(a, q, i);
      }
    }
    PastRun(a, i);
    if i > 0 {
      PastRun(a, i - 1);
    }
  }

  lemma PastRun(a: seq<Run>, i: nat)
    requires RunsAscend(a) && i < |a|
    ensures a[i].Last() + 1 !in RunSet(a)
  {
    var x := a[i].Last() + 1;
    InRunSetTo(a, |a|, x);
    forall q | 0 <= q < |a|
      ensures !InRun(a[q], x)
    {
      if q < i {
        InOrder(a, q, i);
      } else if q > i {
        InOrder(a, i, q);
      }
    }
  }

  // The values one step adds: where runs i and j overlap.
  lemma Overlap(a: seq<Run>, i: nat, b: seq<Run>, j: nat)
    requires RunsAscend(a) && RunsAscend(b) && i < |a| && j < |b|
    requires EndOf(b, j) <= a[i].Last() + 1 && EndOf(a, i) <= b[j].Last() + 1
    ensures var s, e := Max(a[i].start, b[j].start), Min(a[i].Last(), b[j].Last());
            var ni, nj := if a[i].Last() < b[j].Last() then i + 1 else i,
                          if a[i].Last() < b[j].Last() then j else j + 1;
            && CommonTo(a, ni, b, nj) == CommonTo(a, i, b, j) + (if s <= e then Interval(s, e + 1) else {})
            && (ni < |a| ==> EndOf(b, nj) <= a[ni].Last() + 1) && (nj < |b| ==> EndOf(a, ni) <= b[nj].Last() + 1)
            && (s <= e ==> forall x :: x in CommonTo(a, i, b, j) ==> x + 1 < s)
  {
    hide RunSet, RunsAscend, Slice;
    AroundRun(a, i);
    AroundRun(b, j);
    Ends(a, i, b, j);
    var s, e := Max(a[i].start, b[j].start), Min(a[i].Last(), b[j].Last());
    var both := RunSet(a) * RunSet(b);
    var f := Max(EndOf(a, i), EndOf(b, j));
    assert forall x :: x in both && f <= x ==> s <= x;
    assert forall x: nat :: s <= x <= e ==> x in both;
    assert f > 0 ==> f !in both;
    NextSlice(both, f, s, e);
  }

  // Of a set with nothing from f to s, and all from s to e.
  lemma NextSlice(both: set<nat>, f: nat, s: nat, e: nat)
    requires f <= s && f <= e + 1 && (forall x :: x in both && f <= x ==> s <= x)
    requires forall x: nat :: s <= x <= e ==> x in both
    requires f > 0 ==> f !in both
    ensures Slice(both, 0, e + 1) == Slice(both, 0, f) + if s <= e then Interval(s, e + 1) else {}
    ensures s <= e ==> forall x :: x in Slice(both, 0, f) ==> x + 1 < s
  {
  }

  lemma Ends(a: seq<Run>, i: nat, b: seq<Run>, j: nat)
    requires RunsAscend(a) && RunsAscend(b) && i < |a| && j < |b|
    requires EndOf(b, j) <= a[i].Last() + 1 && EndOf(a, i) <= b[j].Last() + 1
    ensures var ni, nj := if a[i].Last() < b[j].Last() then i + 1 else i,
                          if a[i].Last() < b[j].Last() then j else j + 1;
            && Max(EndOf(a, ni), EndOf(b, nj)) == Min(a[i].Last(), b[j].Last()) + 1
            && (ni < |a| ==> EndOf(b, nj) <= a[ni].Last() + 1) && (nj < |b| ==> EndOf(a, ni) <= b[nj].Last() + 1)
  {
    AroundRun(a, i);
    AroundRun(b, j);
  }

  // What a step writes: runs i and j's overlap, if there is one.
  function Lap(r: Run, q: Run): seq<Run> {
    var s, e := Max(r.start, q.start), Min(r.Last(), q.Last());
    if s <= e then [Run(s, e - s)] else []
  }

  lemma MeetingStep(a: seq<Run>, i: nat, b: seq<Run>, j: nat, out: seq<Run>)
    requires Meeting(a, i, b, j, out) && i < |a| && j < |b|
    ensures if a[i].Last() < b[j].Last() then Meeting(a, i + 1, b, j, out + Lap(a[i], b[j]))
            else Meeting(a, i, b, j + 1, out + Lap(a[i], b[j]))
    ensures RunTotal(out + Lap(a[i], b[j]), |out + Lap(a[i], b[j])|) ==
            RunTotal(out, |out|) + if Lap(a[i], b[j]) == [] then 0 else Lap(a[i], b[j])[0].more + 1
  {
    Overlap(a, i, b, j);
    var s, e := Max(a[i].start, b[j].start), Min(a[i].Last(), b[j].Last());
    var lap := Lap(a[i], b[j]);
    SameTotal(out, lap);
    if s <= e {
      LastIn(out);
      hide CommonTo;
      AppendRun(out, lap[0]);
    } else {
      assert out + lap == out;
    }
  }

  lemma LastIn(out: seq<Run>)
    requires RunsAscend(out)
    ensures out != [] ==> out[|out| - 1].Last() in RunSet(out)
  {
    if out != [] {
      LastRun(out, |out|);
    }
  }

  lemma SameTotal(out: seq<Run>, lap: seq<Run>)
    requires |lap| <= 1
    ensures RunTotal(out + lap, |out + lap|) == RunTotal(out, |out|) + if lap == [] then 0 else lap[0].more + 1
  {
    TotalOfPrefix(out, lap, |out|);
    assert lap == [] ==> out + lap == out;
  }

  lemma {:induction false} TotalOfPrefix(out: seq<Run>, lap: seq<Run>, n: nat)
    requires n <= |out|
    ensures RunTotal(out + lap, n) == RunTotal(out, n)
  {
    if n > 0 {
      TotalOfPrefix(out, lap, n - 1);
    }
  }

  // However far it has come, its runs are runs of all they have in common.
  lemma MeetingRuns(a: seq<Run>, i: nat, b: seq<Run>, j: nat, out: seq<Run>)
    requires Meeting(a, i, b, j, out)
    ensures |out| <= |RunStarts(RunSet(a) * RunSet(b))|
  {
    var both := RunSet(a) * RunSet(b);
    RunSetCounts(out, |out|);
    assert RunStarts(RunSet(out)) <= RunStarts(both);
    SubsetSize(RunStarts(RunSet(out)), RunStarts(both));
  }

  lemma MeetingEnds(a: seq<Run>, i: nat, b: seq<Run>, j: nat, out: seq<Run>)
    requires Meeting(a, i, b, j, out) && (i == |a| || j == |b|)
    ensures RunSet(out) == RunSet(a) * RunSet(b)
    ensures |out| == |RunStarts(RunSet(a) * RunSet(b))| && RunTotal(out, |out|) == |RunSet(a) * RunSet(b)|
  {
    BelowEnd(a, |a|);
    BelowEnd(b, |b|);
    assert RunSet(out) == RunSet(a) * RunSet(b);
    RunSetCounts(out, |out|);
  }

  // The intersection of two RUNs, as runs; None when it has more than RUNS_MAX.
  method RunAndRun(a: seq<Run>, b: seq<Run>) returns (r: Option<seq<Run>>, card: nat)
    requires RunsAscend(a) && RunsAscend(b)
    ensures r.None? <==> |RunStarts(RunSet(a) * RunSet(b))| > RUNS_MAX
    ensures r.Some? ==> RunsOk(r.value) && RunSet(r.value) == RunSet(a) * RunSet(b) && card == |RunSet(a) * RunSet(b)|
  {
    hide Meeting, RunSet, RunStarts, RunTotal;
    var out: seq<Run> := [];
    card := 0;
    var i, j := 0, 0;
    MeetingStarts(a, b);
    NoTotal();
    while i < |a| && j < |b|
      invariant i <= |a| && j <= |b| && Meeting(a, i, b, j, out)
      invariant |out| <= RUNS_MAX && card == RunTotal(out, |out|)
      decreases |a| - i + |b| - j
    {
      MeetingStep(a, i, b, j, out);
      var ea, eb := a[i].Last(), b[j].Last();
      var s, e := Max(a[i].start, b[j].start), Min(ea, eb);
      ghost var more := out + Lap(a[i], b[j]);
      if s <= e {
        if |out| >= RUNS_MAX {
          MeetingRuns(a, if ea < eb then i + 1 else i, b, if ea < eb then j else j + 1, more);
          return None, 0;
        }
        out := out + [Run(s, e - s)];
        card := card + (e - s + 1);
      }
      assert out == more;
      if ea < eb {
        i := i + 1;
      } else {
        j := j + 1;
      }
    }
    MeetingEnds(a, i, b, j, out);
    OutAscends(a, i, b, j, out);
    return Some(out), card;
  }

  lemma NoTotal()
    ensures RunTotal([], 0) == 0
  {
  }

  lemma OutAscends(a: seq<Run>, i: nat, b: seq<Run>, j: nat, out: seq<Run>)
    requires Meeting(a, i, b, j, out)
    ensures RunsAscend(out)
  {
  }

  method RunAndRunCardinality(a: seq<Run>, b: seq<Run>) returns (card: nat)
    requires RunsAscend(a) && RunsAscend(b)
    ensures card == |RunSet(a) * RunSet(b)|
  {
    hide Meeting, RunSet, RunStarts, RunTotal;
    ghost var out: seq<Run> := [];
    card := 0;
    var i, j := 0, 0;
    MeetingStarts(a, b);
    NoTotal();
    while i < |a| && j < |b|
      invariant i <= |a| && j <= |b| && Meeting(a, i, b, j, out) && card == RunTotal(out, |out|)
      decreases |a| - i + |b| - j
    {
      MeetingStep(a, i, b, j, out);
      var ea, eb := a[i].Last(), b[j].Last();
      var s, e := Max(a[i].start, b[j].start), Min(ea, eb);
      out := out + Lap(a[i], b[j]);
      if s <= e {
        card := card + (e - s + 1);
      }
      if ea < eb {
        i := i + 1;
      } else {
        j := j + 1;
      }
    }
    MeetingEnds(a, i, b, j, out);
  }
}
