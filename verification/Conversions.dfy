/**
  Changes of representation: a container's members as an image, as an ARRAY, as
  runs; the counts lion_container_optimize() chooses by, and its choice.
*/
module Conversions {
  import opened Options
  import opened Sets
  import opened Containers
  import opened Images
  import opened ImageScans
  import opened Extraction
  import opened Canonical

  /* ---------- container -> image ---------- */

  lemma NarrowedJoins(s: set<nat>, t: set<nat>, k: nat)
    ensures Narrowed(s + t, k) == Narrowed(s, k) + Narrowed(t, k)
  {
  }

  method OrArray(vals: seq<nat>, w: Blocks, k: nat) returns (r: Blocks)
    requires Image(w, k) && forall i :: 0 <= i < |vals| ==> vals[i] < RANGE
    ensures Image(r, k) && ImageSet(r) == ImageSet(w) + Narrowed(ValuesOf(vals), k)
  {
    hide ImageSet;
    r := w;
    for i := 0 to |vals|
      invariant Image(r, k) && ImageSet(r) == ImageSet(w) + Narrowed(ValuesOf(vals[..i]), k)
    {
      SetBitAdds(r, k, vals[i]);
      assert vals[..i + 1] == vals[..i] + [vals[i]];
      assert ValuesOf(vals[..i + 1]) == ValuesOf(vals[..i]) + {vals[i]};
      r := SetBit(r, k, vals[i]);
    }
    assert vals[..|vals|] == vals;
  }

  method ClearArray(vals: seq<nat>, w: Blocks, k: nat) returns (r: Blocks)
    requires Image(w, k) && forall i :: 0 <= i < |vals| ==> vals[i] < RANGE
    ensures Image(r, k) && ImageSet(r) == ImageSet(w) - ValuesOf(vals)
  {
    hide ImageSet;
    r := w;
    for i := 0 to |vals|
      invariant Image(r, k) && ImageSet(r) == ImageSet(w) - ValuesOf(vals[..i])
    {
      ClearBitRemoves(r, k, vals[i]);
      assert vals[..i + 1] == vals[..i] + [vals[i]];
      assert ValuesOf(vals[..i + 1]) == ValuesOf(vals[..i]) + {vals[i]};
      r := ClearBit(r, k, vals[i]);
    }
    assert vals[..|vals|] == vals;
  }

  // Each run's range set (mark true) or cleared.
  method MarkRuns(runs: seq<Run>, w: Blocks, k: nat, mark: bool) returns (r: Blocks)
    requires Image(w, k) && k <= BITSET_WIDTH && RunsAscend(runs)
    ensures Image(r, k)
    ensures ImageSet(r) == if mark then ImageSet(w) + Narrowed(RunSet(runs), k) else ImageSet(w) - RunSet(runs)
  {
    hide ImageSet, Interval;
    r := w;
    for i := 0 to |runs|
      invariant Image(r, k)
      invariant ImageSet(r) ==
                if mark then ImageSet(w) + Narrowed(RunSetTo(runs, i), k) else ImageSet(w) - RunSetTo(runs, i)
    {
      NarrowedJoins(RunSetTo(runs, i), Interval(runs[i].start, runs[i].Last() + 1), k);
      r := MarkRange(r, k, runs[i].start, runs[i].Last(), mark);
    }
  }

  // w |= the members of c that a bitmap of width k holds.
  method OrBitmap(c: Container, w: Blocks, k: nat) returns (r: Blocks)
    requires WellFormed(c) && Image(w, k) && k <= BITSET_WIDTH
    ensures Image(r, k) && ImageSet(r) == ImageSet(w) + Narrowed(Members(c.rep), k)
  {
    match c.rep {
      case Array(vals) =>
        ArrayMembers(vals);
        r := OrArray(vals, w, k);
      case Bitmap(kc, words) =>
        r := Fold(Or, w, k, words, kc);
        FoldedSets(Or, r, w, words, k);
        ImageFits(w, k);
        ImageIsMembers(words, kc);
      case Runs(runs) =>
        RunsMembers(runs);
        r := MarkRuns(runs, w, k, true);
    }
  }

  // w &= ~c
  method AndNotBitmap(c: Container, w: Blocks, k: nat) returns (r: Blocks)
    requires WellFormed(c) && Image(w, k) && k <= BITSET_WIDTH
    ensures Image(r, k) && ImageSet(r) == ImageSet(w) - Members(c.rep)
  {
    match c.rep {
      case Array(vals) =>
        ArrayMembers(vals);
        r := ClearArray(vals, w, k);
      case Bitmap(kc, words) =>
        r := Fold(AndNot, w, k, words, kc);
        FoldedSets(AndNot, r, w, words, k);
        ImageFits(w, k);
        ImageIsMembers(words, kc);
      case Runs(runs) =>
        RunsMembers(runs);
        r := MarkRuns(runs, w, k, false);
    }
  }

  // Where the first n runs end.
  ghost function EndOf(runs: seq<Run>, n: nat): nat
    requires n <= |runs|
  {
    if n == 0 then 0 else runs[n - 1].Last() + 1
  }

  // gone holds the values below the end of the first n runs that are in none.
  ghost predicate Gaps(gone: set<nat>, runs: seq<Run>, n: nat)
    requires n <= |runs|
  {
    forall x: nat :: x in gone <==> x < EndOf(runs, n) && x !in RunSetTo(runs, n)
  }

  lemma BelowEnd(runs: seq<Run>, n: nat)
    requires RunsAscend(runs) && n <= |runs|
    ensures forall x :: x in RunSetTo(runs, n) ==> x < EndOf(runs, n)
    ensures n < |runs| ==> EndOf(runs, n) <= runs[n].start
    ensures EndOf(runs, n) <= RANGE
  {
    if n > 0 {
      LastRun(runs, n);
    }
  }

  lemma GapBefore(gone: set<nat>, runs: seq<Run>, n: nat)
    requires RunsAscend(runs) && n < |runs| && Gaps(gone, runs, n)
    ensures Gaps(gone + Interval(EndOf(runs, n), runs[n].start), runs, n + 1)
  {
    BelowEnd(runs, n);
    assert RunSetTo(runs, n + 1) == RunSetTo(runs, n) + Interval(runs[n].start, runs[n].Last() + 1);
    var more := gone + Interval(EndOf(runs, n), runs[n].start);
    forall x: nat
      ensures x in more <==> x < EndOf(runs, n + 1) && x !in RunSetTo(runs, n + 1)
    {
      assert x in gone <==> x < EndOf(runs, n) && x !in RunSetTo(runs, n);
    }
  }

  lemma GapAfter(gone: set<nat>, runs: seq<Run>, s: set<nat>)
    requires RunsAscend(runs) && Gaps(gone, runs, |runs|) && forall x :: x in s ==> x < RANGE
    ensures s - (gone + Interval(EndOf(runs, |runs|), RANGE)) == s * RunSet(runs)
  {
    BelowEnd(runs, |runs|);
  }

  // The gaps between and around the runs cleared.
  method KeepRuns(runs: seq<Run>, w: Blocks, k: nat) returns (r: Blocks)
    requires Image(w, k) && k <= BITSET_WIDTH && RunsAscend(runs)
    ensures Image(r, k) && ImageSet(r) == ImageSet(w) * RunSet(runs)
  {
    r := w;
    var prev := 0;
    ghost var gone: set<nat> := {};
    for i := 0 to |runs|
      invariant Image(r, k) && prev == EndOf(runs, i)
      invariant ImageSet(r) == ImageSet(w) - gone && Gaps(gone, runs, i)
    {
      hide Gaps, ImageSet, Interval, RunSetTo;
      BelowEnd(runs, i);
      GapBefore(gone, runs, i);
      gone := gone + Interval(prev, runs[i].start);
      if runs[i].start > prev {
        r := MarkRange(r, k, prev, runs[i].start - 1, false);
      } else {
        NoGap(prev);
      }
      prev := runs[i].Last() + 1;
    }
    GapAfter(gone, runs, ImageSet(w));
    BelowEnd(runs, |runs|);
    if prev <= RANGE - 1 {
      r := MarkRange(r, k, prev, RANGE - 1, false);
    } else {
      NoGap(prev);
    }
  }

  lemma NoGap(a: nat)
    ensures Interval(a, a) == {}
  {
  }

  // w &= c, of a bitmap or a RUN.
  method AndBitmap(c: Container, w: Blocks, k: nat) returns (r: Blocks)
    requires WellFormed(c) && !c.rep.Array? && Image(w, k) && k <= BITSET_WIDTH
    ensures Image(r, k) && ImageSet(r) == ImageSet(w) * Members(c.rep)
  {
    match c.rep {
      case Bitmap(kc, words) =>
        r := Fold(And, w, k, words, kc);
        FoldedSets(And, r, w, words, k);
        ImageFits(w, k);
        ImageIsMembers(words, kc);
      case Runs(runs) =>
        RunsMembers(runs);
        r := KeepRuns(runs, w, k);
    }
  }

  // w = the members of c that a bitmap of width k holds.
  method FillBitmap(c: Container, k: nat) returns (w: Blocks)
    requires WellFormed(c) && k <= BITSET_WIDTH
    ensures Image(w, k) && ImageSet(w) == Narrowed(Members(c.rep), k)
  {
    if c.rep.Bitmap? {
      ImageIsMembers(c.rep.blocks, c.rep.width);
      w := Rewiden(c.rep.blocks, c.rep.width, k);
    } else {
      ZeroIsEmpty(k);
      w := OrBitmap(c, Zero(k), k);
    }
  }

  /* ---------- counts ---------- */

  // Runs of consecutive members, whatever the representation.
  method ContainerRuns(c: Container) returns (n: nat)
    requires WellFormed(c)
    ensures n == |RunStarts(Members(c.rep))|
  {
    match c.rep {
      case Array(vals) =>
        ArrayMembers(vals);
        n := ArrayRuns(vals);
      case Bitmap(k, words) =>
        ImageIsMembers(words, k);
        n := CountRuns(words, k);
      case Runs(runs) =>
        RunsCountRuns(runs);
        n := |runs|;
    }
  }

  lemma NextStarts(vals: seq<nat>, i: nat)
    requires Ascends(vals) && i < |vals|
    ensures RunStarts(ValuesOf(vals[..i + 1])) == RunStarts(ValuesOf(vals[..i])) +
            if i == 0 || vals[i] != vals[i - 1] + 1 then {vals[i]} else {}
    ensures vals[i] !in ValuesOf(vals[..i])
  {
    var s, t := ValuesOf(vals[..i]), ValuesOf(vals[..i + 1]);
    assert vals[..i + 1] == vals[..i] + [vals[i]];
    assert t == s + {vals[i]};
    forall x | x in s
      ensures x < vals[i] && (i > 0 ==> x <= vals[i - 1])
    {
      var j :| 0 <= j < i && vals[..i][j] == x;
    }
    assert i > 0 ==> vals[..i][i - 1] in s;
    hide ValuesOf;
    forall x: nat
      ensures StartsRun(t, x) <==> StartsRun(s, x) || (x == vals[i] && (i == 0 || vals[i] != vals[i - 1] + 1))
    {
    }
  }

  method ArrayRuns(vals: seq<nat>) returns (n: nat)
    requires Ascends(vals)
    ensures n == |RunStarts(ValuesOf(vals))|
  {
    n := 0;
    assert RunStarts(ValuesOf(vals[..0])) == {};
    for i := 0 to |vals|
      invariant n == |RunStarts(ValuesOf(vals[..i]))|
    {
      NextStarts(vals, i);
      if i == 0 || vals[i] != vals[i - 1] + 1 {
        n := n + 1;
      }
    }
    assert vals[..|vals|] == vals;
  }

  // The narrowest width whose bitmap holds every member.
  method ContainerMinWidth(c: Container) returns (width: nat)
    requires WellFormed(c)
    ensures width == MinWidth(Members(c.rep))
  {
    match c.rep {
      case Bitmap(k, words) =>
        ImageIsMembers(words, k);
        width := ImageMinWidth(words, k);
      case Array(vals) =>
        ArrayMembers(vals);
        width := ArrayMinWidth(vals);
      case Runs(runs) =>
        RunsMembers(runs);
        width := RunsMinWidth(runs);
    }
  }

  lemma OffsetOrdersWords(x: nat, far: nat)
    requires x % OFFSETS <= far < OFFSETS
    ensures WordOf(x) <= WordOf(far) < BITSET_WIDTH && (far == 0 ==> WordOf(far) == 0)
    ensures x % OFFSETS == far ==> WordOf(x) == WordOf(far)
  {
  }

  // The farthest offset of its block that a member has decides the width.
  lemma FarthestWidth(vals: seq<nat>, far: nat)
    requires far < OFFSETS && forall j :: 0 <= j < |vals| ==> vals[j] % OFFSETS <= far
    requires far == 0 || exists j :: 0 <= j < |vals| && vals[j] % OFFSETS == far
    ensures MinWidth(ValuesOf(vals)) == LoWidth(far)
  {
    hide WordOf;
    forall x | x in ValuesOf(vals)
      ensures WordOf(x) <= WordOf(far)
    {
      OffsetOrdersWords(x, far);
    }
    OffsetOrdersWords(far, far);
    if far > 0 {
      var j :| 0 <= j < |vals| && vals[j] % OFFSETS == far;
      OffsetOrdersWords(vals[j], far);
      assert vals[j] in ValuesOf(vals);
    }
    LeastWidthIsLeast(ValuesOf(vals), 1, LoWidth(far));
  }

  method ArrayMinWidth(vals: seq<nat>) returns (width: nat)
    requires ArrayOk(vals)
    ensures width == MinWidth(ValuesOf(vals))
  {
    var far := 0;
    for i := 0 to |vals|
      invariant far < OFFSETS
      invariant forall j :: 0 <= j < i ==> vals[j] % OFFSETS <= far
      invariant far == 0 || exists j :: 0 <= j < i && vals[j] % OFFSETS == far
    {
      if vals[i] % OFFSETS > far {
        far := vals[i] % OFFSETS;
      }
    }
    width := LoWidth(far);
    FarthestWidth(vals, far);
  }

  // A run inside a block: its last value has the greatest offset.
  lemma RunFits(r: Run, k: nat)
    requires BlockOf(r.start) == BlockOf(r.Last()) && LoWidth(r.Last()) <= k
    ensures FitsWidth(Interval(r.start, r.Last() + 1), k)
  {
    forall x: nat | r.start <= x <= r.Last()
      ensures WordOf(x) <= WordOf(r.Last())
    {
      assert BlockOf(x) == BlockOf(r.start);
    }
  }

  // One that crosses into the next block holds its block's last offset.
  lemma RunCrosses(r: Run) returns (x: nat)
    requires BlockOf(r.start) != BlockOf(r.Last())
    ensures r.start <= x <= r.Last() && WordOf(x) == BITSET_WIDTH - 1
  {
    x := BlockOf(r.start) * OFFSETS + OFFSETS - 1;
  }

  method RunsMinWidth(runs: seq<Run>) returns (width: nat)
    requires RunsOk(runs)
    ensures width == MinWidth(RunSet(runs))
  {
    hide Interval, RunsOk;
    width := 1;
    for i := 0 to |runs|
      invariant 1 <= width <= BITSET_WIDTH
      invariant FitsWidth(RunSetTo(runs, i), width)
      invariant width == 1 || !FitsWidth(RunSet(runs), width - 1)
    {
      var r := runs[i];
      RunInSet(runs, i);
      if BlockOf(r.start) != BlockOf(r.Last()) {
        width := BITSET_WIDTH;
        ghost var x := RunCrosses(r);
        LeastWidthIsLeast(RunSet(runs), 1, width);
        return;
      }
      if LoWidth(r.Last()) > width {
        width := LoWidth(r.Last());
      }
      RunFits(r, width);
    }
    LeastWidthIsLeast(RunSet(runs), 1, width);
  }

  lemma RunInSet(runs: seq<Run>, i: nat)
    requires i < |runs|
    ensures forall x: nat :: runs[i].start <= x <= runs[i].Last() ==> x in RunSet(runs)
  {
    forall x: nat | runs[i].start <= x <= runs[i].Last()
      ensures x in RunSet(runs)
    {
      InRunSetTo(runs, |runs|, x);
      assert InRun(runs[i], x);
    }
  }

  /* ---------- image or members -> representation ---------- */

  // The bitmap of width k of c's members, each of which it holds.
  method MakeBitmap(c: Container, k: nat) returns (r: Container)
    requires WellFormed(c) && WidthOk(k) && FitsWidth(Members(c.rep), k)
    ensures WellFormed(r) && r.ckey == c.ckey && r.card == c.card && Members(r.rep) == Members(c.rep)
    ensures KindOf(r.rep) == AsBitmap(k)
  {
    if c.rep.Bitmap? && c.rep.width == k {
      return c;
    }
    var w := FillBitmap(c, k);
    ImageIsMembers(w, k);
    assert Narrowed(Members(c.rep), k) == Members(c.rep);
    return Container(c.ckey, c.card, Bitmap(k, w));
  }

  // The members of c, ascending, unless there are more than cap.
  method Extract(c: Container, cap: nat) returns (r: Option<seq<nat>>)
    requires WellFormed(c)
    ensures r.None? <==> |Members(c.rep)| > cap
    ensures r.Some? ==> Ascends(r.value) && ValuesOf(r.value) == Members(c.rep)
  {
    match c.rep {
      case Array(vals) =>
        ArrayMembers(vals);
        if |vals| > cap {
          return None;
        }
        return Some(vals);
      case Bitmap(k, words) =>
        ImageIsMembers(words, k);
        r := ImageValues(words, k, cap);
      case Runs(runs) =>
        RunsMembers(runs);
        r := RunValues(runs, cap);
    }
  }

  lemma MembersInRange(rep: Rep)
    ensures forall x :: x in Members(rep) ==> x < RANGE
  {
  }

  lemma ValuesMakeArray(vals: seq<nat>, s: set<nat>)
    requires Ascends(vals) && ValuesOf(vals) == s && |s| <= ARRAY_MAX && forall x :: x in s ==> x < RANGE
    ensures ArrayOk(vals) && Members(Array(vals)) == s && |vals| == |s|
  {
    AscendingSize(vals);
    assert forall i :: 0 <= i < |vals| ==> vals[i] in s;
    ArrayMembers(vals);
  }

  // The ARRAY form of c, of at most ARRAY_MAX members.
  method MakeArray(c: Container) returns (r: Container)
    requires WellFormed(c) && c.card <= ARRAY_MAX
    ensures WellFormed(r) && r.ckey == c.ckey && r.card == c.card && Members(r.rep) == Members(c.rep)
    ensures r.rep.Array?
  {
    if c.rep.Array? {
      return c;
    }
    var vals := Extract(c, ARRAY_MAX);
    MembersInRange(c.rep);
    ValuesMakeArray(vals.value, Members(c.rep));
    return Container(c.ckey, |vals.value|, Array(vals.value));
  }

  lemma SeenNext(all: seq<Run>, vals: seq<nat>, i: nat)
    requires ArrayOk(vals) && i < |vals| && RunsAscend(all) && RunSet(all) == ValuesOf(vals[..i])
    requires i == 0 <==> all == []
    ensures RunsAscend(AppendValue(all, vals[i])) && RunSet(AppendValue(all, vals[i])) == ValuesOf(vals[..i + 1])
    ensures i > 0 ==> all[|all| - 1].Last() == vals[i - 1]
  {
    assert vals[..i + 1] == vals[..i] + [vals[i]];
    assert ValuesOf(vals[..i + 1]) == ValuesOf(vals[..i]) + {vals[i]};
    if i > 0 {
      LastRun(all, |all|);
      assert vals[..i][i - 1] in ValuesOf(vals[..i]);
    }
    AppendValueAdds(all, vals[i]);
  }

  // The runs of an ARRAY's members, counted, and stored when they fit.
  method RunsOfArray(vals: seq<nat>, maxruns: nat) returns (out: seq<Run>, n: nat)
    requires ArrayOk(vals)
    ensures n == |RunStarts(ValuesOf(vals))|
    ensures n <= maxruns ==> |out| == n && RunsAscend(out) && RunSet(out) == ValuesOf(vals)
  {
    ghost var all: seq<Run> := [];
    out, n := [], 0;
    for i := 0 to |vals|
      invariant RunsAscend(all) && RunSet(all) == ValuesOf(vals[..i]) && (i == 0 <==> all == [])
      invariant n == |all| && (n <= maxruns ==> out == all)
    {
      SeenNext(all, vals, i);
      all := AppendValue(all, vals[i]);
      if i > 0 && vals[i] == vals[i - 1] + 1 {
        if n <= maxruns {
          out := out[n - 1 := Run(out[n - 1].start, out[n - 1].more + 1)];
        }
      } else {
        if n < maxruns {
          out := out + [Run(vals[i], 0)];
        }
        n := n + 1;
      }
    }
    assert vals[..|vals|] == vals;
    RunSetCounts(all, |all|);
  }

  // The RUN form of c, of members in at most RUNS_MAX runs.
  method MakeRun(c: Container) returns (r: Container)
    requires WellFormed(c) && |RunStarts(Members(c.rep))| <= RUNS_MAX
    ensures WellFormed(r) && r.ckey == c.ckey && r.card == c.card && Members(r.rep) == Members(c.rep)
    ensures r.rep.Runs?
  {
    if c.rep.Runs? {
      return c;
    }
    var runs: seq<Run>, n: nat := [], 0;
    if c.rep.Bitmap? {
      ImageIsMembers(c.rep.blocks, c.rep.width);
      runs, n := ImageRuns(c.rep.blocks, c.rep.width, RUNS_MAX);
    } else {
      ArrayMembers(c.rep.vals);
      runs, n := RunsOfArray(c.rep.vals, RUNS_MAX);
      RunsMembers(runs);
    }
    return Container(c.ckey, c.card, Runs(runs));
  }

  /* ---------- optimize ---------- */

  // The smallest representation: of the members and allowNarrow alone.
  method Optimize(c: Container, allowNarrow: bool) returns (r: Container)
    requires WellFormed(c)
    ensures WellFormed(r) && r.ckey == c.ckey && r.card == c.card && Members(r.rep) == Members(c.rep)
    ensures KindOf(r.rep) == KindFor(Members(c.rep), allowNarrow)
    ensures allowNarrow ==> Optimal(r)
  {
    var nruns := ContainerRuns(c);
    var asz, rsz := ArraySize(c.card), RunsSize(nruns);
    var nsz, width := INFEASIBLE, BITSET_WIDTH;
    MinWidthFits(Members(c.rep), 1);
    if allowNarrow {
      width := ContainerMinWidth(c);
      nsz := NarrowSize(width, true);
    }
    if asz <= rsz && asz <= nsz && asz <= MAX_SIZE {
      r := MakeArray(c);
    } else if rsz <= nsz && rsz <= MAX_SIZE {
      r := MakeRun(c);
    } else if nsz <= MAX_SIZE {
      r := MakeBitmap(c, width);
    } else {
      FitsFull(c.rep);
      r := MakeBitmap(c, BITSET_WIDTH);
    }
  }

  lemma FitsFull(rep: Rep)
    ensures FitsWidth(Members(rep), BITSET_WIDTH)
  {
  }
}
