/**
  The set algebra of containers: intersection, union and difference of any two
  representations, in the one they are built in or the smallest, and the size
  of an intersection.
*/
module Algebra {
  import opened Naturals
  import opened Sets
  import opened Containers
  import opened Images
  import opened ImageScans
  import opened Canonical
  import opened Searches
  import opened Conversions
  import opened Merges
  import opened RunRanges
  import opened Mutators

  /* ---------- the width of a result's bitmap ---------- */

  // 0 for an ARRAY or a RUN.
  function WidthOf(c: Container): nat { if c.rep.Bitmap? then c.rep.width else 0 }

  // The narrower bitmap's for an AND, the wider's for an OR of two, a's for an
  // ANDNOT, and the full width otherwise.
  function SetopWidth(a: Container, b: Container, op: Op): nat {
    var ka, kb := WidthOf(a), WidthOf(b);
    match op
    case And =>
      if ka == 0 || kb == 0 then (if ka == 0 && kb == 0 then BITSET_WIDTH else Max(ka, kb)) else Min(ka, kb)
    case Or => if ka == 0 || kb == 0 then BITSET_WIDTH else Max(ka, kb)
    case AndNot => if ka == 0 then BITSET_WIDTH else ka
  }

  lemma BitmapWithin(c: Container, k: nat)
    requires WellFormed(c) && (c.rep.Bitmap? ==> c.rep.width <= k) && (!c.rep.Bitmap? ==> k == BITSET_WIDTH)
    ensures Narrowed(Members(c.rep), k) == Members(c.rep)
  {
  }

  // No member of the result is lost to the width, of either operand.
  lemma SetopWidthHolds(a: Container, b: Container, op: Op)
    requires WellFormed(a) && WellFormed(b)
    ensures var k := SetopWidth(a, b, op);
            && WidthOk(k)
            && FoldSet(op, Narrowed(Members(a.rep), k), Narrowed(Members(b.rep), k)) ==
               FoldSet(op, Members(a.rep), Members(b.rep))
  {
    var k := SetopWidth(a, b, op);
    if (a.rep.Bitmap? && a.rep.width <= k) || k == BITSET_WIDTH {
      BitmapWithin(a, k);
    }
    if (b.rep.Bitmap? && b.rep.width <= k) || k == BITSET_WIDTH {
      BitmapWithin(b, k);
    }
  }

  // The words of a block that a container may have members in.
  ghost function WidthHeld(c: Container): nat { if c.rep.Bitmap? then c.rep.width else BITSET_WIDTH }

  // Of sets of such widths, some lose a member of the result to width k.
  ghost predicate Loses(op: Op, k: nat, wa: nat, wb: nat) {
    exists s, t :: FitsWidth(s, wa) && FitsWidth(t, wb) &&
                   FoldSet(op, Narrowed(s, k), Narrowed(t, k)) != FoldSet(op, s, t)
  }

  // Of the operands' widths and the full one, it is the least that loses nothing.
  lemma SetopWidthIsLeast(a: Container, b: Container, op: Op, k: nat)
    requires WellFormed(a) && WellFormed(b) && (k == WidthHeld(a) || k == WidthHeld(b) || k == BITSET_WIDTH)
    ensures SetopWidth(a, b, op) in {WidthHeld(a), WidthHeld(b), BITSET_WIDTH}
    ensures !Loses(op, SetopWidth(a, b, op), WidthHeld(a), WidthHeld(b))
    ensures k < SetopWidth(a, b, op) ==> Loses(op, k, WidthHeld(a), WidthHeld(b))
  {
    var w, wa, wb := SetopWidth(a, b, op), WidthHeld(a), WidthHeld(b);
    forall s, t | FitsWidth(s, wa) && FitsWidth(t, wb)
      ensures FoldSet(op, Narrowed(s, w), Narrowed(t, w)) == FoldSet(op, s, t)
    {
    }
    if k < w {
      var s: set<nat>, t: set<nat> := {64 * k}, {};
      assert WordOf(64 * k) == k;
      assert Narrowed(s, k) == {} == Narrowed(t, k);
      if op == AndNot || k < wa {
        assert FitsWidth(s, wa) && FitsWidth(t, wb);
        assert 64 * k in FoldSet(op, s, t);
      } else {
        assert FitsWidth(t, wa) && FitsWidth(s, wb);
        assert 64 * k in FoldSet(op, t, s);
      }
    }
  }

  // a op b as a bitmap of width k, one kernel pass counting it when either
  // operand has that width.
  method OpBitmap(a: Container, b: Container, op: Op, k: nat) returns (w: Blocks, n: nat)
    requires WellFormed(a) && WellFormed(b) && WidthOk(k) && (op == And ==> !b.rep.Array?)
    ensures Image(w, k) && n == |ImageSet(w)|
    ensures ImageSet(w) == FoldSet(op, Narrowed(Members(a.rep), k), Narrowed(Members(b.rep), k))
  {
    hide Members, ImageSet, Narrowed;
    if WidthOf(b) == k {
      ImageIsMembers(b.rep.blocks, k);
      var src;
      if WidthOf(a) == k {
        ImageIsMembers(a.rep.blocks, k);
        ImageFits(a.rep.blocks, k);
        src := a.rep.blocks;
      } else {
        src := FillBitmap(a, k);
        ImageFits(src, k);
      }
      w, n := Pass(op, src, b.rep.blocks, k);
      FoldedSets(op, w, src, b.rep.blocks, k);
      return;
    }
    if WidthOf(a) == k {
      ImageIsMembers(a.rep.blocks, k);
      var other := FillBitmap(b, k);
      ImageFits(other, k);
      w, n := Pass(op, a.rep.blocks, other, k);
      FoldedSets(op, w, a.rep.blocks, other, k);
      return;
    }
    w := FillBitmap(a, k);
    match op {
      case And =>
        AndNarrowed(Members(a.rep), Members(b.rep), k);
        w := AndBitmap(b, w, k);
      case Or =>
        w := OrBitmap(b, w, k);
      case AndNot =>
        AndNarrowed(Members(a.rep), Members(b.rep), k);
        w := AndNotBitmap(b, w, k);
    }
    n := Cardinality(w, k);
  }

  lemma AndNarrowed(s: set<nat>, t: set<nat>, k: nat)
    ensures Narrowed(s, k) * t == Narrowed(s, k) * Narrowed(t, k)
    ensures Narrowed(s, k) - t == Narrowed(s, k) - Narrowed(t, k)
  {
  }

  /* ---------- results ---------- */

  ghost predicate IsResult(r: Container, op: Op, a: Container, b: Container) {
    WellFormed(r) && r.ckey == a.ckey && Members(r.rep) == FoldSet(op, Members(a.rep), Members(b.rep))
  }

  // The representation the operation builds its result in.
  ghost function RawKind(op: Op, a: Container, b: Container): Kind {
    match op
    case And =>
      if a.card == 0 || b.card == 0 || a.rep.Array? || b.rep.Array? then AsArray
      else if a.rep.Runs? && b.rep.Runs? && |RunStarts(Members(a.rep) * Members(b.rep))| <= RUNS_MAX then AsRuns
      else AsBitmap(SetopWidth(a, b, And))
    case Or =>
      if a.rep.Array? && b.rep.Array? && a.card + b.card <= ARRAY_MAX then AsArray
      else if a.card == 0 then KindOf(b.rep)
      else if b.card == 0 then KindOf(a.rep)
      else AsBitmap(SetopWidth(a, b, Or))
    case AndNot =>
      if a.card == 0 || a.rep.Array? then AsArray
      else if b.card == 0 then KindOf(a.rep)
      else AsBitmap(SetopWidth(a, b, AndNot))
  }

  lemma ListMakesArray(ckey: nat, out: seq<nat>, s: set<nat>)
    requires Lists(out, s) && |s| <= ARRAY_MAX && forall x :: x in s ==> x < RANGE
    ensures WellFormed(Container(ckey, |out|, Array(out))) && Members(Array(out)) == s
  {
    ValuesMakeArray(out, s);
  }

  lemma ListWithin(ckey: nat, out: seq<nat>, s: set<nat>, arr: seq<nat>)
    requires Lists(out, s) && ArrayOk(arr) && s <= ValuesOf(arr)
    ensures WellFormed(Container(ckey, |out|, Array(out))) && Members(Array(out)) == s
  {
    AscendingSize(arr);
    AllInRange(arr);
    SubsetSize(s, ValuesOf(arr));
    ListMakesArray(ckey, out, s);
  }

  lemma NoMembers(c: Container)
    requires WellFormed(c) && c.card == 0
    ensures Members(c.rep) == {}
  {
  }

  method Empty(ckey: nat) returns (r: Container)
    ensures WellFormed(r) && r.ckey == ckey && r.rep == Array([]) && Members(r.rep) == {}
  {
    assert Members(Array([])) == {};
    return Container(ckey, 0, Array([]));
  }

  // A bitmap of the width the operands call for.
  method OpResult(a: Container, b: Container, op: Op) returns (r: Container)
    requires WellFormed(a) && WellFormed(b) && (op == And ==> !b.rep.Array?)
    ensures IsResult(r, op, a, b) && KindOf(r.rep) == AsBitmap(SetopWidth(a, b, op))
  {
    var k := SetopWidth(a, b, op);
    SetopWidthHolds(a, b, op);
    hide FoldSet, Narrowed, ImageSet, SetopWidth;
    var w, n := OpBitmap(a, b, op, k);
    ImageIsMembers(w, k);
    return Container(a.ckey, n, Bitmap(k, w));
  }

  /* ---------- intersection ---------- */

  const PROBE_MAX: nat := 3

  ghost predicate Probes(c: Container) { c.rep.Array? && c.card <= PROBE_MAX }

  // An ARRAY of up to three members is as small as anything.
  lemma FewAreOptimal(c: Container)
    requires WellFormed(c) && Probes(c)
    ensures Optimal(c)
  {
    ArrayMembers(c.rep.vals);
    var s := Members(c.rep);
    if c.card > 0 {
      assert StartsRun(s, c.rep.vals[0]);
      assert c.rep.vals[0] in RunStarts(s);
    }
    SubsetSize(RunStarts(s), s);
    MinWidthFits(s, 1);
  }

  // An ARRAY of a few members, each looked up in the other operand.
  method AndProbe(small: Container, other: Container) returns (r: Container)
    requires WellFormed(small) && WellFormed(other) && Probes(small)
    ensures WellFormed(r) && r.ckey == small.ckey && r.rep.Array? && Optimal(r)
    ensures Members(r.rep) == Members(small.rep) * Members(other.rep)
  {
    hide Kept, Members, Optimal;
    var arr := small.rep.vals;
    ghost var s := Members(other.rep);
    ArrayMembers(arr);
    var out: seq<nat> := [];
    KeepNone(arr, s);
    for i := 0 to |arr|
      invariant Kept(arr, i, out, s)
    {
      KeepNext(arr, i, out, s);
      var found := HasMember(other, arr[i]);
      if found {
        out := out + [arr[i]];
      }
    }
    r := KeptArray(small.ckey, arr, out, s);
    KeptFew(arr, out, s);
    FewAreOptimal(r);
  }

  lemma KeptFew(arr: seq<nat>, out: seq<nat>, s: set<nat>)
    requires Kept(arr, |arr|, out, s)
    ensures |out| <= |arr|
  {
  }

  // The ARRAY of those of arr's members that s has.
  method KeptArray(ckey: nat, arr: seq<nat>, out: seq<nat>, ghost s: set<nat>) returns (r: Container)
    requires ArrayOk(arr) && Kept(arr, |arr|, out, s)
    ensures WellFormed(r) && r.ckey == ckey && r.rep == Array(out) && r.card == |out|
    ensures Members(r.rep) == Members(Array(arr)) * s
  {
    ArrayMembers(arr);
    KeptAll(arr, |arr|, out, s);
    ListWithin(ckey, out, ValuesOf(arr) * s, arr);
    return Container(ckey, |out|, Array(out));
  }

  // An ARRAY and anything.
  method AndArray(a: Container, b: Container) returns (r: Container)
    requires WellFormed(a) && WellFormed(b) && (a.rep.Array? || b.rep.Array?)
    ensures IsResult(r, And, a, b) && r.rep.Array?
  {
    hide Kept, Members, ArrayOk;
    var arr, oth := if a.rep.Array? then a else b, if a.rep.Array? then b else a;
    ArrayMembers(arr.rep.vals);
    assert Members(arr.rep) * Members(oth.rep) == Members(a.rep) * Members(b.rep);
    match oth.rep {
      case Array(vals) =>
        var out := ArrayIntersect(a.rep.vals, b.rep.vals);
        ArrayMembers(vals);
        ListWithin(a.ckey, out, Members(a.rep) * Members(b.rep), arr.rep.vals);
        r := Container(a.ckey, |out|, Array(out));
      case Bitmap(k, w) =>
        ImageIsMembers(w, k);
        var out := ArrayAndBitmap(arr.rep.vals, w, k);
        r := KeptArray(a.ckey, arr.rep.vals, out, ImageSet(w));
      case Runs(runs) =>
        RunsMembers(runs);
        var out := ArrayAndRun(arr.rep.vals, runs);
        r := KeptArray(a.ckey, arr.rep.vals, out, RunSet(runs));
    }
  }

  method AndBuild(a: Container, b: Container) returns (r: Container)
    requires WellFormed(a) && WellFormed(b)
    ensures IsResult(r, And, a, b) && KindOf(r.rep) == RawKind(And, a, b)
  {
    hide Members;
    if a.card == 0 || b.card == 0 {
      if a.card == 0 {
        NoMembers(a);
      } else {
        NoMembers(b);
      }
      r := Empty(a.ckey);
      return;
    }
    if a.rep.Array? || b.rep.Array? {
      r := AndArray(a, b);
      return;
    }
    if a.rep.Runs? && b.rep.Runs? {
      RunsMembers(a.rep.runs);
      RunsMembers(b.rep.runs);
      var runs, n := RunAndRun(a.rep.runs, b.rep.runs);
      if runs.Some? {
        RunsMembers(runs.value);
        return Container(a.ckey, n, Runs(runs.value));
      }
    }
    r := OpResult(a, b, And);
  }

  // The intersection as it is built.
  method IntersectionRaw(a: Container, b: Container) returns (r: Container)
    requires WellFormed(a) && WellFormed(b) && a.ckey == b.ckey
    ensures IsResult(r, And, a, b) && KindOf(r.rep) == RawKind(And, a, b)
    ensures Members(r.rep) == Members(a.rep) * Members(b.rep)
  {
    hide Members;
    if a.card != 0 && b.card != 0 {
      if a.rep.Array? && |a.rep.vals| <= PROBE_MAX {
        ArrayMembers(a.rep.vals);
        r := AndProbe(a, b);
        return;
      }
      if b.rep.Array? && |b.rep.vals| <= PROBE_MAX {
        ArrayMembers(b.rep.vals);
        r := AndProbe(b, a);
        Commutes(a, b);
        return;
      }
    }
    r := AndBuild(a, b);
  }

  lemma Commutes(a: Container, b: Container)
    ensures Members(a.rep) * Members(b.rep) == Members(b.rep) * Members(a.rep)
  {
  }

  // The smallest container of the result.
  method Intersection(a: Container, b: Container) returns (r: Container)
    requires WellFormed(a) && WellFormed(b) && a.ckey == b.ckey
    ensures IsResult(r, And, a, b) && Optimal(r)
    ensures Members(r.rep) == Members(a.rep) * Members(b.rep)
  {
    hide Members, Optimal;
    if a.card != 0 && b.card != 0 {
      if a.rep.Array? && |a.rep.vals| <= PROBE_MAX {
        ArrayMembers(a.rep.vals);
        r := AndProbe(a, b);
        return;
      }
      if b.rep.Array? && |b.rep.vals| <= PROBE_MAX {
        ArrayMembers(b.rep.vals);
        r := AndProbe(b, a);
        Commutes(a, b);
        return;
      }
    }
    r := AndBuild(a, b);
    r := Optimize(r, true);
  }

  /* ---------- union ---------- */

  lemma UnionFits(x: seq<nat>, y: seq<nat>, out: seq<nat>, ckey: nat)
    requires ArrayOk(x) && ArrayOk(y) && |x| + |y| <= ARRAY_MAX && Lists(out, ValuesOf(x) + ValuesOf(y))
    ensures WellFormed(Container(ckey, |out|, Array(out)))
    ensures Members(Array(out)) == Members(Array(x)) + Members(Array(y))
  {
    ArrayMembers(x);
    ArrayMembers(y);
    AllInRange(x);
    AllInRange(y);
    UnionAtMost(ValuesOf(x), ValuesOf(y));
    ListMakesArray(ckey, out, ValuesOf(x) + ValuesOf(y));
  }

  lemma UnionAtMost(s: set<nat>, t: set<nat>)
    ensures |s + t| <= |s| + |t|
  {
    UnionSize(s, t);
    SubsetSize(t - s, t);
  }

  method UnionRaw(a: Container, b: Container) returns (r: Container)
    requires WellFormed(a) && WellFormed(b) && a.ckey == b.ckey
    ensures IsResult(r, Or, a, b) && KindOf(r.rep) == RawKind(Or, a, b)
    ensures Members(r.rep) == Members(a.rep) + Members(b.rep)
  {
    hide Members, ArrayOk;
    if a.rep.Array? && b.rep.Array? {
      ArrayMembers(a.rep.vals);
      ArrayMembers(b.rep.vals);
      if |a.rep.vals| + |b.rep.vals| <= ARRAY_MAX {
        var out := ArrayUnion(a.rep.vals, b.rep.vals);
        UnionFits(a.rep.vals, b.rep.vals, out, a.ckey);
        return Container(a.ckey, |out|, Array(out));
      }
    }
    if a.card == 0 || b.card == 0 {
      if a.card == 0 {
        NoMembers(a);
        assert Members(a.rep) + Members(b.rep) == Members(b.rep);
      } else {
        NoMembers(b);
        assert Members(a.rep) + Members(b.rep) == Members(a.rep);
      }
      var src := if a.card == 0 then b else a;
      return Container(a.ckey, src.card, src.rep);
    }
    r := OpResult(a, b, Or);
  }

  method Union(a: Container, b: Container) returns (r: Container)
    requires WellFormed(a) && WellFormed(b) && a.ckey == b.ckey
    ensures IsResult(r, Or, a, b) && Optimal(r)
    ensures Members(r.rep) == Members(a.rep) + Members(b.rep)
  {
    hide Members, Optimal;
    r := UnionRaw(a, b);
    r := Optimize(r, true);
  }

  /* ---------- difference ---------- */

  method AndNotArray(a: Container, b: Container) returns (r: Container)
    requires WellFormed(a) && WellFormed(b) && a.rep.Array?
    ensures IsResult(r, AndNot, a, b) && r.rep.Array?
  {
    hide Kept, Members, ArrayOk;
    var arr := a.rep.vals;
    ArrayMembers(arr);
    match b.rep {
      case Array(vals) =>
        var out := ArrayDifference(arr, vals);
        ArrayMembers(vals);
        ListWithin(a.ckey, out, Members(a.rep) - Members(b.rep), arr);
        r := Container(a.ckey, |out|, Array(out));
      case Bitmap(k, w) =>
        ImageIsMembers(w, k);
        var out := ArrayAndNotBitmap(arr, w, k);
        LessIsWithin(ValuesOf(arr), ImageSet(w));
        r := KeptArray(a.ckey, arr, out, ValuesOf(arr) - ImageSet(w));
      case Runs(runs) =>
        RunsMembers(runs);
        var out := ArrayAndNotRun(arr, runs);
        LessIsWithin(ValuesOf(arr), RunSet(runs));
        r := KeptArray(a.ckey, arr, out, ValuesOf(arr) - RunSet(runs));
    }
  }

  lemma LessIsWithin(s: set<nat>, t: set<nat>)
    ensures s * (s - t) == s - t
  {
  }

  method DifferenceRaw(a: Container, b: Container) returns (r: Container)
    requires WellFormed(a) && WellFormed(b) && a.ckey == b.ckey
    ensures IsResult(r, AndNot, a, b) && KindOf(r.rep) == RawKind(AndNot, a, b)
    ensures Members(r.rep) == Members(a.rep) - Members(b.rep)
  {
    hide Members;
    if a.card == 0 {
      NoMembers(a);
      r := Empty(a.ckey);
      return;
    }
    if b.card == 0 {
      NoMembers(b);
      assert Members(a.rep) - Members(b.rep) == Members(a.rep);
      return a;
    }
    if a.rep.Array? {
      r := AndNotArray(a, b);
      return;
    }
    r := OpResult(a, b, AndNot);
  }

  method Difference(a: Container, b: Container) returns (r: Container)
    requires WellFormed(a) && WellFormed(b) && a.ckey == b.ckey
    ensures IsResult(r, AndNot, a, b) && Optimal(r)
    ensures Members(r.rep) == Members(a.rep) - Members(b.rep)
  {
    hide Members, Optimal;
    r := DifferenceRaw(a, b);
    r := Optimize(r, true);
  }

  /* ---------- counting an intersection without making it ---------- */

  lemma KeptCount(arr: seq<nat>, out: seq<nat>, s: set<nat>)
    requires Kept(arr, |arr|, out, s)
    ensures |out| == |ValuesOf(arr) * s|
  {
    KeptAll(arr, |arr|, out, s);
    AscendingSize(out);
  }

  method ArrayCountBitmap(arr: seq<nat>, w: Blocks, k: nat) returns (n: nat)
    requires ArrayOk(arr) && Image(w, k)
    ensures n == |ValuesOf(arr) * ImageSet(w)|
  {
    hide Kept, ImageSet;
    ghost var out: seq<nat> := [];
    n := 0;
    KeepNone(arr, ImageSet(w));
    for i := 0 to |arr|
      invariant Kept(arr, i, out, ImageSet(w)) && n == |out|
    {
      KeepNext(arr, i, out, ImageSet(w));
      TestDecides(w, k, arr[i]);
      out := if Test(w, k, arr[i]) then out + [arr[i]] else out;
      n := n + if Test(w, k, arr[i]) then 1 else 0;
    }
    KeptCount(arr, out, ImageSet(w));
  }

  method ArrayCountArray(a: seq<nat>, b: seq<nat>) returns (n: nat)
    requires Ascends(a) && Ascends(b)
    ensures n == |ValuesOf(a) * ValuesOf(b)|
  {
    hide Merging;
    ghost var out: seq<nat> := [];
    n := 0;
    var x, y := 0, 0;
    MergeStarts(And, a, b);
    while x < |a| && y < |b|
      invariant x <= |a| && y <= |b| && Merging(And, a, x, b, y, out) && n == |out|
    {
      MergeStep(And, a, x, b, y, out);
      var va, vb := a[x], b[y];
      out := out + Emits(And, va, vb);
      n := n + if va == vb then 1 else 0;
      x := if va <= vb then x + 1 else x;
      y := if vb <= va then y + 1 else y;
    }
    MergeEnds(And, a, x, b, y, out);
    AscendingSize(out);
  }

  method ArrayCountRun(arr: seq<nat>, runs: seq<Run>) returns (n: nat)
    requires ArrayOk(arr) && RunsAscend(runs)
    ensures n == |ValuesOf(arr) * RunSet(runs)|
  {
    hide Kept, RunSet;
    ghost var out: seq<nat>, s := [], RunSet(runs);
    n := 0;
    KeepNone(arr, s);
    var i, j := 0, 0;
    while i < |arr| && j < |runs|
      invariant i <= |arr| && Kept(arr, i, out, s) && n == |out|
      invariant j <= |runs| && (i < |arr| ==> RunsPassed(runs, j, arr[i]))
      decreases |arr| - i + |runs| - j
    {
      if arr[i] <= runs[j].Last() {
        PassedDecides(runs, j, arr[i]);
        KeepNext(arr, i, out, s);
        if arr[i] >= runs[j].start {
          n := n + 1;
          out := out + [arr[i]];
        }
        i := i + 1;
      } else {
        j := j + 1;
      }
    }
    if j == |runs| {
      RestPassed(runs, arr, i);
    }
    KeptAll(arr, i, out, s);
    KeptCount(arr, out, s);
  }

  // A bitmap's members in each run's span.
  method RunsCountBitmap(runs: seq<Run>, w: Blocks, k: nat) returns (n: nat)
    requires RunsAscend(runs) && Image(w, k) && k <= BITSET_WIDTH
    ensures n == |ImageSet(w) * RunSet(runs)|
  {
    hide ImageSet, Interval, RunSetTo;
    n := 0;
    SpanNone(ImageSet(w), runs);
    for i := 0 to |runs|
      invariant n == |ImageSet(w) * RunSetTo(runs, i)|
    {
      var more := RangeCardinality(w, k, runs[i].start, runs[i].Last());
      SpanNext(ImageSet(w), runs, i);
      n := n + more;
    }
  }

  lemma SpanNone(s: set<nat>, runs: seq<Run>)
    ensures |s * RunSetTo(runs, 0)| == 0
  {
    assert s * RunSetTo(runs, 0) == {};
  }

  lemma SpanNext(s: set<nat>, runs: seq<Run>, i: nat)
    requires RunsAscend(runs) && i < |runs|
    ensures |s * RunSetTo(runs, i + 1)| == |s * RunSetTo(runs, i)| + |Within(s, runs[i].start, runs[i].Last())|
  {
    RunsBelow(runs, i);
    var t, u := s * RunSetTo(runs, i), Within(s, runs[i].start, runs[i].Last());
    assert t !! u;
    assert s * RunSetTo(runs, i + 1) == t + u;
  }

  method BitmapsCount(a: Blocks, ka: nat, b: Blocks, kb: nat) returns (n: nat)
    requires Image(a, ka) && Image(b, kb) && WidthOk(ka) && WidthOk(kb)
    ensures n == |ImageSet(a) * ImageSet(b)|
  {
    var d;
    if ka == kb {
      d, n := Pass(And, a, b, ka);
      FoldedSets(And, d, a, b, ka);
      ImageFits(a, ka);
      ImageFits(b, kb);
      return;
    }
    var kmin := Min(ka, kb);
    var narrow, wide := if ka > kb then b else a, if ka > kb then a else b;
    var gathered := Rewiden(wide, Max(ka, kb), kmin);
    d, n := Pass(And, narrow, gathered, kmin);
    FoldedSets(And, d, narrow, gathered, kmin);
    ImageFits(narrow, kmin);
    ImageFits(gathered, kmin);
    hide ImageSet;
    AndNarrowed(ImageSet(narrow), ImageSet(wide), kmin);
    assert ImageSet(narrow) * ImageSet(wide) == ImageSet(a) * ImageSet(b);
  }

  method AndCardinality(a: Container, b: Container) returns (n: nat)
    requires WellFormed(a) && WellFormed(b) && a.ckey == b.ckey
    ensures n == |Members(a.rep) * Members(b.rep)|
  {
    hide Members, ImageSet, RunSet;
    Swapped(a, b);
    if a.card == 0 || b.card == 0 {
      return 0;
    }
    match (a.rep, b.rep) {
      case (Bitmap(ka, wa), Bitmap(kb, wb)) =>
        ImageIsMembers(wa, ka);
        ImageIsMembers(wb, kb);
        n := BitmapsCount(wa, ka, wb, kb);
      case (Array(x), Array(y)) =>
        ArrayMembers(x);
        ArrayMembers(y);
        n := ArrayCountArray(x, y);
      case (Array(x), _) =>
        n := ArrayCount(x, b);
      case (_, Array(y)) =>
        n := ArrayCount(y, a);
      case (Runs(x), Runs(y)) =>
        RunsMembers(x);
        RunsMembers(y);
        n := RunAndRunCardinality(x, y);
      case (Bitmap(k, w), Runs(runs)) =>
        ImageIsMembers(w, k);
        RunsMembers(runs);
        n := RunsCountBitmap(runs, w, k);
      case (Runs(runs), Bitmap(k, w)) =>
        ImageIsMembers(w, k);
        RunsMembers(runs);
        n := RunsCountBitmap(runs, w, k);
    }
  }

  method ArrayCount(arr: seq<nat>, oth: Container) returns (n: nat)
    requires ArrayOk(arr) && WellFormed(oth) && !oth.rep.Array?
    ensures n == |Members(Array(arr)) * Members(oth.rep)|
  {
    ArrayMembers(arr);
    match oth.rep {
      case Bitmap(k, w) =>
        ImageIsMembers(w, k);
        n := ArrayCountBitmap(arr, w, k);
      case Runs(runs) =>
        RunsMembers(runs);
        n := ArrayCountRun(arr, runs);
    }
  }

  lemma Swapped(a: Container, b: Container)
    requires WellFormed(a) && WellFormed(b)
    ensures Members(a.rep) * Members(b.rep) == Members(b.rep) * Members(a.rep)
    ensures a.card == 0 || b.card == 0 ==> |Members(a.rep) * Members(b.rep)| == 0
  {
    if a.card == 0 || b.card == 0 {
      assert Members(a.rep) * Members(b.rep) == {};
    }
  }

  // Members among lo .. hi.
  method RangeCount(c: Container, lo: nat, hi: nat) returns (n: nat)
    requires WellFormed(c) && lo < RANGE && hi < RANGE
    ensures n == |Within(Members(c.rep), lo, hi)|
  {
    if lo > hi || c.card == 0 {
      EmptyRange(Members(c.rep), lo, hi);
      return 0;
    }
    match c.rep {
      case Array(vals) =>
        var from := LowerBound(vals, lo);
        var to := UpperBound(vals, hi);
        BoundsInOrder(vals, lo, hi, from, to);
        ArrayCut(vals, from, to, lo, hi);
        CutCount(vals, from, to, lo, hi);
        return to - from;
      case Bitmap(k, w) =>
        ImageIsMembers(w, k);
        n := RangeCardinality(w, k, lo, hi);
      case Runs(runs) =>
        RunsMembers(runs);
        n := RunRangeCount(runs, lo, hi);
    }
  }

  lemma CutCount(vals: seq<nat>, from: nat, to: nat, lo: nat, hi: nat)
    requires ArrayOk(vals) && from <= to <= |vals| && ArrayOk(vals[..from] + vals[to..])
    requires Members(Array(vals[..from] + vals[to..])) == Without(Members(Array(vals)), lo, hi)
    ensures |Within(Members(Array(vals)), lo, hi)| == to - from
  {
    ArrayMembers(vals);
    ArrayMembers(vals[..from] + vals[to..]);
    hide Members, ArrayOk, Within, Without;
    WithoutSize(Members(Array(vals)), lo, hi);
  }
}
