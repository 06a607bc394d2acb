/**
  Roaring containers: a set of 15-bit values in one of four representations,
  what makes one well formed, and which representation is the smallest.
  The constants are those of 8 kB pages.
*/
module Containers {
  import opened Sets

  const RANGE: nat := 32768        // values a container can hold
  const BLOCKS: nat := 64          // heap blocks of a container
  const OFFSETS: nat := 512        // offsets of a block
  const BITSET_WIDTH: nat := 8     // words of a block that hold every offset
  const NARROW_MAX_WIDTH: nat := 5
  const ARRAY_MAX: nat := 2048     // members of an ARRAY, at most
  const RUNS_MAX: nat := 1023      // runs of a RUN, at most
  const MAX_SIZE: nat := 4104

  // A 64-bit word, as the positions of its set bits.
  type Word = w: set<nat> | forall x :: x in w ==> x < 64

  // The values start .. start + more.
  datatype Run = Run(start: nat, more: nat) {
    function Last(): nat { start + more }
  }

  // An ARRAY's members, a RUN's runs, or a bitmap's words: `width` of them for
  // each block, a BITSET's at the full width and a NARROW's below it.
  datatype Rep =
    | Array(vals: seq<nat>)
    | Runs(runs: seq<Run>)
    | Bitmap(width: nat, blocks: seq<seq<Word>>)

  datatype Container = Container(ckey: nat, card: nat, rep: Rep)

  /* ---------- members ---------- */

  function BlockOf(lo: nat): nat { lo / OFFSETS }

  // The word of its block that lo's bit is in.
  function WordOf(lo: nat): nat { lo % OFFSETS / 64 }

  function BitOf(lo: nat): nat { lo % OFFSETS % 64 }

  function ValueAt(b: nat, j: nat, bit: nat): nat { b * OFFSETS + j * 64 + bit }

  lemma ValueAtIsInverse(b: nat, j: nat, bit: nat)
    requires j < BITSET_WIDTH && bit < 64
    ensures var lo := ValueAt(b, j, bit);
            BlockOf(lo) == b && WordOf(lo) == j && BitOf(lo) == bit && (b < BLOCKS ==> lo < RANGE)
  {
  }

  lemma ValueAtOf(lo: nat)
    requires lo < RANGE
    ensures ValueAt(BlockOf(lo), WordOf(lo), BitOf(lo)) == lo
    ensures BlockOf(lo) < BLOCKS && WordOf(lo) < BITSET_WIDTH && BitOf(lo) < 64
  {
  }

  // The narrowest width that holds lo.
  function LoWidth(lo: nat): nat { WordOf(lo) + 1 }

  ghost predicate InRun(r: Run, lo: nat) { r.start <= lo <= r.Last() }

  // Word j of block b, empty past the bitmap's width.
  function WordAt(blocks: seq<seq<Word>>, b: nat, j: nat): Word {
    if b < |blocks| && j < |blocks[b]| then blocks[b][j] else {}
  }

  ghost predicate Holds(rep: Rep, lo: nat) {
    match rep
    case Array(vals) => lo in vals
    case Runs(runs) => exists i :: 0 <= i < |runs| && InRun(runs[i], lo)
    case Bitmap(_, blocks) => BitOf(lo) in WordAt(blocks, BlockOf(lo), WordOf(lo))
  }

  ghost function Members(rep: Rep): set<nat> {
    set lo: nat | lo < RANGE && Holds(rep, lo)
  }

  /* ---------- well-formedness ---------- */

  ghost predicate ArrayOk(vals: seq<nat>) {
    |vals| <= ARRAY_MAX && Ascends(vals) && forall i :: 0 <= i < |vals| ==> vals[i] < RANGE
  }

  // Ascending, disjoint and not adjacent.
  ghost predicate RunsAscend(runs: seq<Run>) {
    && (forall i :: 0 <= i < |runs| ==> runs[i].Last() < RANGE)
    && (forall i, j :: 0 <= i < j < |runs| ==> runs[i].Last() + 1 < runs[j].start)
  }

  ghost predicate RunsOk(runs: seq<Run>) { |runs| <= RUNS_MAX && RunsAscend(runs) }

  predicate WidthOk(k: nat) { 1 <= k <= NARROW_MAX_WIDTH || k == BITSET_WIDTH }

  // The words of a bitmap of width k.
  ghost predicate Image(blocks: seq<seq<Word>>, k: nat) {
    |blocks| == BLOCKS && forall b :: 0 <= b < BLOCKS ==> |blocks[b]| == k
  }

  ghost predicate RepOk(rep: Rep) {
    match rep
    case Array(vals) => ArrayOk(vals)
    case Runs(runs) => RunsOk(runs)
    case Bitmap(k, blocks) => WidthOk(k) && Image(blocks, k)
  }

  ghost predicate WellFormed(c: Container) {
    RepOk(c.rep) && c.card == |Members(c.rep)|
  }

  /* ---------- sizes ---------- */

  function SizeOf(rep: Rep): nat {
    match rep
    case Array(vals) => 8 + 2 * |vals|
    case Runs(runs) => 8 + 2 + 4 * |runs|
    case Bitmap(k, _) => 8 + 512 * k
  }

  // Members of an ARRAY as large as a bitmap of width k.
  function WidthArrayCard(k: nat): nat { 256 * k }

  lemma ArrayIsNoLarger(vals: seq<nat>, k: nat, blocks: seq<seq<Word>>)
    ensures SizeOf(Array(vals)) <= SizeOf(Bitmap(k, blocks)) <==> |vals| <= WidthArrayCard(k)
  {
  }

  lemma SizeIsBounded(rep: Rep)
    requires RepOk(rep)
    ensures SizeOf(rep) <= MAX_SIZE
  {
  }

  /* ---------- the smallest representation of a set ---------- */

  ghost predicate FitsWidth(s: set<nat>, k: nat) { forall x :: x in s ==> WordOf(x) < k }

  // The least width, from k up, that holds s.
  ghost function LeastWidth(s: set<nat>, k: nat): nat
    requires k <= BITSET_WIDTH
    decreases BITSET_WIDTH - k
  {
    if k == BITSET_WIDTH || FitsWidth(s, k) then k else LeastWidth(s, k + 1)
  }

  ghost function MinWidth(s: set<nat>): nat { LeastWidth(s, 1) }

  lemma LeastWidthIsLeast(s: set<nat>, from: nat, k: nat)
    requires from <= k <= BITSET_WIDTH && FitsWidth(s, k)
    requires k == from || !FitsWidth(s, k - 1)
    ensures LeastWidth(s, from) == k
    decreases k - from
  {
    if from < k {
      assert !FitsWidth(s, from);
      LeastWidthIsLeast(s, from + 1, k);
    }
  }

  datatype Kind = AsArray | AsRuns | AsBitmap(width: nat)

  function KindOf(rep: Rep): Kind {
    match rep
    case Array(_) => AsArray
    case Runs(_) => AsRuns
    case Bitmap(k, _) => AsBitmap(k)
  }

  const INFEASIBLE: nat := MAX_SIZE + 1

  function ArraySize(card: nat): nat { if card <= ARRAY_MAX then 8 + 2 * card else INFEASIBLE }

  function RunsSize(nruns: nat): nat { if nruns <= RUNS_MAX then 8 + 2 + 4 * nruns else INFEASIBLE }

  function NarrowSize(width: nat, allowNarrow: bool): nat {
    if allowNarrow && width <= NARROW_MAX_WIDTH then 8 + 512 * width else INFEASIBLE
  }

  // The smallest, a tie going to ARRAY, then RUN, then NARROW, then BITSET.
  function BestKind(card: nat, nruns: nat, width: nat, allowNarrow: bool): Kind {
    var asz, rsz, nsz := ArraySize(card), RunsSize(nruns), NarrowSize(width, allowNarrow);
    if asz <= rsz && asz <= nsz && asz <= MAX_SIZE then AsArray
    else if rsz <= nsz && rsz <= MAX_SIZE then AsRuns
    else if nsz <= MAX_SIZE then AsBitmap(width)
    else AsBitmap(BITSET_WIDTH)
  }

  // What a set of this many members and runs takes as each kind, whether that
  // kind can hold it, and the order in which ties are decided.
  ghost function KindSize(k: Kind, card: nat, nruns: nat): nat {
    match k
    case AsArray => 8 + 2 * card
    case AsRuns => 10 + 4 * nruns
    case AsBitmap(w) => 8 + 512 * w
  }

  ghost predicate KindHolds(k: Kind, card: nat, nruns: nat, width: nat, allowNarrow: bool) {
    match k
    case AsArray => card <= 2048
    case AsRuns => nruns <= 1023
    case AsBitmap(w) => w == 8 || (allowNarrow && w == width <= 5)
  }

  ghost function KindRank(k: Kind): nat {
    match k
    case AsArray => 0
    case AsRuns => 1
    case AsBitmap(w) => if w < 8 then 2 else 3
  }

  // The kind chosen can hold the set, and none that can is smaller, nor as small
  // and earlier in that order.
  lemma BestKindIsFirst(card: nat, nruns: nat, width: nat, allowNarrow: bool, k: Kind)
    requires 1 <= width <= BITSET_WIDTH && KindHolds(k, card, nruns, width, allowNarrow)
    ensures var best := BestKind(card, nruns, width, allowNarrow);
            && KindHolds(best, card, nruns, width, allowNarrow)
            && KindSize(best, card, nruns) <= KindSize(k, card, nruns)
            && (KindSize(best, card, nruns) == KindSize(k, card, nruns) ==> KindRank(best) <= KindRank(k))
  {
  }

  ghost function KindFor(s: set<nat>, allowNarrow: bool): Kind {
    BestKind(|s|, |RunStarts(s)|, MinWidth(s), allowNarrow)
  }

  // What lion_container_optimize() leaves.
  ghost predicate Optimal(c: Container) {
    WellFormed(c) && KindOf(c.rep) == KindFor(Members(c.rep), true)
  }

  /* ---------- the members of each representation ---------- */

  lemma ArrayMembers(vals: seq<nat>)
    requires ArrayOk(vals)
    ensures Members(Array(vals)) == ValuesOf(vals) && |Members(Array(vals))| == |vals|
  {
    AscendingSize(vals);
    assert Members(Array(vals)) == ValuesOf(vals);
  }

  // The values of the first n runs, run by run, and how many those are.
  ghost function RunSetTo(runs: seq<Run>, n: nat): set<nat>
    requires n <= |runs|
  {
    if n == 0 then {} else RunSetTo(runs, n - 1) + Interval(runs[n - 1].start, runs[n - 1].Last() + 1)
  }

  ghost function RunSet(runs: seq<Run>): set<nat> { RunSetTo(runs, |runs|) }

  ghost function RunTotal(runs: seq<Run>, n: nat): nat
    requires n <= |runs|
  {
    if n == 0 then 0 else RunTotal(runs, n - 1) + runs[n - 1].more + 1
  }

  lemma {:induction false} InRunSetTo(runs: seq<Run>, n: nat, lo: nat)
    requires n <= |runs|
    ensures lo in RunSetTo(runs, n) <==> exists i :: 0 <= i < n && InRun(runs[i], lo)
  {
    if n > 0 {
      InRunSetTo(runs, n - 1, lo);
      assert lo in Interval(runs[n - 1].start, runs[n - 1].Last() + 1) <==> InRun(runs[n - 1], lo);
    }
  }

  lemma {:induction false} SameRunSetTo(a: seq<Run>, b: seq<Run>, n: nat)
    requires n <= |a| && n <= |b| && forall i :: 0 <= i < n ==> a[i] == b[i]
    ensures RunSetTo(a, n) == RunSetTo(b, n)
  {
    if n > 0 {
      SameRunSetTo(a, b, n - 1);
    }
  }

  lemma RunsMembers(runs: seq<Run>)
    requires RunsAscend(runs)
    ensures Members(Runs(runs)) == RunSet(runs)
  {
    forall lo: nat
      ensures lo in Members(Runs(runs)) <==> lo in RunSet(runs)
    {
      InRunSetTo(runs, |runs|, lo);
    }
  }

  // Each run lies past the values of those before it, and not next to them.
  lemma RunsBelow(runs: seq<Run>, n: nat)
    requires RunsAscend(runs) && n < |runs|
    ensures forall lo :: lo in RunSetTo(runs, n) ==> lo + 1 < runs[n].start
  {
    forall lo | lo in RunSetTo(runs, n)
      ensures lo + 1 < runs[n].start
    {
      InRunSetTo(runs, n, lo);
    }
  }

  // The values of ascending runs, and the runs, counted.
  lemma {:induction false} RunSetCounts(runs: seq<Run>, n: nat)
    requires RunsAscend(runs) && n <= |runs|
    ensures |RunSetTo(runs, n)| == RunTotal(runs, n)
    ensures |RunStarts(RunSetTo(runs, n))| == n
  {
    if n == 0 {
      assert RunStarts({}) == {};
    } else {
      RunSetCounts(runs, n - 1);
      NextRunCounts(runs, n);
    }
  }

  lemma NextRunSet(runs: seq<Run>, n: nat)
    requires 0 < n <= |runs|
    ensures RunSetTo(runs, n) == RunSetTo(runs, n - 1) + Interval(runs[n - 1].start, runs[n - 1].Last() + 1)
  {
  }

  lemma NextRunCounts(runs: seq<Run>, n: nat)
    requires RunsAscend(runs) && 0 < n <= |runs|
    ensures |RunSetTo(runs, n)| == |RunSetTo(runs, n - 1)| + runs[n - 1].more + 1
    ensures |RunStarts(RunSetTo(runs, n))| == |RunStarts(RunSetTo(runs, n - 1))| + 1
  {
    hide RunSetTo, RunsAscend, RunStarts, Interval;
    RunsBelow(runs, n - 1);
    NextRunSet(runs, n);
    AddInterval(RunSetTo(runs, n - 1), runs[n - 1].start, runs[n - 1].Last() + 1);
  }
}
