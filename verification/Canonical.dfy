/**
  Canonicity: two well-formed containers of one kind with the same members are
  equal, so the representation chosen from the members alone is the only one,
  and it is the smallest.
*/
module Canonical {
  import opened Sets
  import opened Containers

  /* ---------- runs ---------- */

  // Run n - 1 ends at the greatest of the first n runs' values, and starts the
  // last run of them.
  lemma LastRun(runs: seq<Run>, n: nat)
    requires RunsAscend(runs) && 0 < n <= |runs|
    ensures var s, last := RunSetTo(runs, n), runs[n - 1];
            && last.Last() in s && (forall x :: x in s ==> x <= last.Last())
            && (forall x :: last.start <= x <= last.Last() ==> x in s)
            && (last.start > 0 ==> last.start - 1 !in s)
            && Without(s, last.start, last.Last()) == RunSetTo(runs, n - 1)
  {
    RunsBelow(runs, n - 1);
    hide RunsAscend;
    assert runs[n - 1].Last() in Interval(runs[n - 1].start, runs[n - 1].Last() + 1);
  }

  lemma {:induction false} RunSetIsUnique(a: seq<Run>, m: nat, b: seq<Run>, n: nat)
    requires RunsAscend(a) && RunsAscend(b) && m <= |a| && n <= |b| && RunSetTo(a, m) == RunSetTo(b, n)
    ensures m == n && forall i :: 0 <= i < m ==> a[i] == b[i]
    decreases m
  {
    hide RunSetTo, Without;
    NoRuns(a, m);
    NoRuns(b, n);
    if m > 0 && n > 0 {
      var s, la, lb := RunSetTo(a, m), a[m - 1], b[n - 1];
      LastRun(a, m);
      LastRun(b, n);
      assert la.Last() == lb.Last();
      assert la.start < lb.start ==> lb.start - 1 in s;
      assert lb.start < la.start ==> la.start - 1 in s;
      RunSetIsUnique(a, m - 1, b, n - 1);
    }
  }

  lemma NoRuns(runs: seq<Run>, n: nat)
    requires RunsAscend(runs) && n <= |runs|
    ensures RunSetTo(runs, n) == {} <==> n == 0
  {
    if n > 0 {
      LastRun(runs, n);
    }
  }

  lemma RunsAreUnique(a: seq<Run>, b: seq<Run>)
    requires RunsAscend(a) && RunsAscend(b) && Members(Runs(a)) == Members(Runs(b))
    ensures a == b
  {
    RunsMembers(a);
    RunsMembers(b);
    RunSetIsUnique(a, |a|, b, |b|);
  }

  // A RUN has as many runs as its members have.
  lemma RunsCountRuns(runs: seq<Run>)
    requires RunsAscend(runs)
    ensures |RunStarts(Members(Runs(runs)))| == |runs|
  {
    RunsMembers(runs);
    RunSetCounts(runs, |runs|);
  }

  /* ---------- bitmaps ---------- */

  lemma BitmapHolds(k: nat, blocks: seq<seq<Word>>, b: nat, j: nat, bit: nat)
    requires b < BLOCKS && j < BITSET_WIDTH && bit < 64
    ensures ValueAt(b, j, bit) in Members(Bitmap(k, blocks)) <==> bit in WordAt(blocks, b, j)
  {
    ValueAtIsInverse(b, j, bit);
  }

  lemma BitmapsAreUnique(k: nat, x: seq<seq<Word>>, y: seq<seq<Word>>)
    requires WidthOk(k) && Image(x, k) && Image(y, k)
    requires Members(Bitmap(k, x)) == Members(Bitmap(k, y))
    ensures x == y
  {
    forall b, j | 0 <= b < BLOCKS && 0 <= j < k
      ensures x[b][j] == y[b][j]
    {
      forall bit
        ensures bit in x[b][j] <==> bit in y[b][j]
      {
        if bit < 64 {
          BitmapHolds(k, x, b, j, bit);
          BitmapHolds(k, y, b, j, bit);
        }
      }
    }
    forall b | 0 <= b < BLOCKS
      ensures x[b] == y[b]
    {
    }
  }

  lemma BitmapFits(k: nat, blocks: seq<seq<Word>>)
    requires WidthOk(k) && Image(blocks, k)
    ensures FitsWidth(Members(Bitmap(k, blocks)), k)
  {
  }

  lemma MinWidthFits(s: set<nat>, from: nat)
    requires from <= BITSET_WIDTH
    ensures FitsWidth(s, LeastWidth(s, from)) && from <= LeastWidth(s, from) <= BITSET_WIDTH
    ensures forall k :: from <= k < LeastWidth(s, from) ==> !FitsWidth(s, k)
    decreases BITSET_WIDTH - from
  {
    if from < BITSET_WIDTH && !FitsWidth(s, from) {
      MinWidthFits(s, from + 1);
    }
  }

  /* ---------- one representation, and the smallest ---------- */

  // Of one kind, the members decide every byte.
  lemma KindAndMembersDecide(a: Container, b: Container)
    requires WellFormed(a) && WellFormed(b) && a.ckey == b.ckey
    requires Members(a.rep) == Members(b.rep) && KindOf(a.rep) == KindOf(b.rep)
    ensures a == b
  {
    match (a.rep, b.rep) {
      case (Array(x), Array(y)) =>
        ArrayMembers(x);
        ArrayMembers(y);
        AscendingIsUnique(x, y);
      case (Runs(x), Runs(y)) =>
        RunsAreUnique(x, y);
      case (Bitmap(k, x), Bitmap(_, y)) =>
        BitmapsAreUnique(k, x, y);
    }
  }

  // Two containers optimize() left, of one key and the same members, are
  // byte for byte the same.
  lemma OptimalIsCanonical(a: Container, b: Container)
    requires Optimal(a) && Optimal(b) && a.ckey == b.ckey && Members(a.rep) == Members(b.rep)
    ensures a == b
  {
    KindAndMembersDecide(a, b);
  }

  lemma KindFixesSize(c: Container)
    requires WellFormed(c)
    ensures SizeOf(c.rep) ==
            match KindOf(c.rep)
            case AsArray => ArraySize(|Members(c.rep)|)
            case AsRuns => RunsSize(|RunStarts(Members(c.rep))|)
            case AsBitmap(k) => 8 + 512 * k
  {
    match c.rep {
      case Array(vals) => ArrayMembers(vals);
      case Runs(runs) => RunsCountRuns(runs);
      case Bitmap(_, _) =>
    }
  }

  // No well-formed container of the same members is smaller.
  lemma OptimalIsSmallest(c: Container, other: Container)
    requires Optimal(c) && WellFormed(other) && Members(other.rep) == Members(c.rep)
    ensures SizeOf(c.rep) <= SizeOf(other.rep)
  {
    var s := Members(c.rep);
    KindFixesSize(c);
    KindFixesSize(other);
    SizeIsBounded(c.rep);
    if other.rep.Bitmap? {
      BitmapFits(other.rep.width, other.rep.blocks);
      MinWidthFits(s, 1);
    }
  }
}
