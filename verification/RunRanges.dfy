/**
  The values of a RUN in a range: the runs that reach into it, and how many
  values they have there.
*/
module RunRanges {
  import opened Naturals
  import opened Sets
  import opened Containers
  import opened Searches
  import opened RunSplices

  // Runs i .. j are those that reach into s .. e.
  ghost predicate Reaches(runs: seq<Run>, i: nat, j: nat, s: nat, e: nat) {
    && RunsAscend(runs) && i <= j < |runs| && s <= e
    && runs[i].Last() >= s && runs[j].start <= e
    && (i > 0 ==> runs[i - 1].Last() < s)
    && (j + 1 < |runs| ==> e < runs[j + 1].start)
  }

  lemma InOrder(runs: seq<Run>, p: nat, q: nat)
    requires RunsAscend(runs) && p <= q < |runs|
    ensures runs[p].start <= runs[q].start && runs[p].Last() <= runs[q].Last()
    ensures p < q ==> runs[p].Last() + 1 < runs[q].start
  {
  }

  // The values of a run in s .. e.
  ghost function Clip(r: Run, s: nat, e: nat): set<nat> { Interval(Max(r.start, s), Min(r.Last(), e) + 1) }

  // Those of runs i .. k - 1.
  ghost function Clips(runs: seq<Run>, i: nat, k: nat, s: nat, e: nat): set<nat>
    requires i <= k <= |runs|
    decreases k
  {
    if k == i then {} else Clips(runs, i, k - 1, s, e) + Clip(runs[k - 1], s, e)
  }

  lemma {:induction false} InClips(runs: seq<Run>, i: nat, k: nat, s: nat, e: nat, x: nat)
    requires i <= k <= |runs|
    ensures x in Clips(runs, i, k, s, e) <==> s <= x <= e && InSome(runs, i, k, x)
    decreases k
  {
    if i < k {
      InClips(runs, i, k - 1, s, e, x);
      assert x in Clip(runs[k - 1], s, e) <==> s <= x <= e && InRun(runs[k - 1], x);
    }
  }

  lemma ClipsStep(runs: seq<Run>, i: nat, k: nat, s: nat, e: nat)
    requires RunsAscend(runs) && i <= k < |runs| && Max(runs[k].start, s) <= Min(runs[k].Last(), e) + 1
    ensures |Clips(runs, i, k + 1, s, e)| ==
            |Clips(runs, i, k, s, e)| + Min(runs[k].Last(), e) + 1 - Max(runs[k].start, s)
  {
    var before, clip := Clips(runs, i, k, s, e), Clip(runs[k], s, e);
    IntervalSize(Max(runs[k].start, s), Min(runs[k].Last(), e) + 1);
    forall x | x in before
      ensures x !in clip
    {
      InClips(runs, i, k, s, e, x);
      var q :| i <= q < k && InRun(runs[q], x);
      InOrder(runs, q, k);
    }
    assert before !! clip;
  }

  lemma ClipsAreAll(runs: seq<Run>, i: nat, j: nat, s: nat, e: nat)
    requires Reaches(runs, i, j, s, e)
    ensures Clips(runs, i, j + 1, s, e) == Within(RunSet(runs), s, e)
  {
    var clips, all := Clips(runs, i, j + 1, s, e), Within(RunSet(runs), s, e);
    forall x: nat
      ensures x in clips <==> x in all
    {
      InClips(runs, i, j + 1, s, e, x);
      SplitAt(runs, i, j + 1, x);
      if InSome(runs, 0, i, x) {
        var q :| 0 <= q < i && InRun(runs[q], x);
        InOrder(runs, q, i - 1);
      }
      if InSome(runs, j + 1, |runs|, x) {
        var q :| j + 1 <= q < |runs| && InRun(runs[q], x);
        InOrder(runs, j + 1, q);
      }
    }
  }

  // The runs that reach into s .. e, none when i > j.
  method FindReach(runs: seq<Run>, s: nat, e: nat) returns (i: nat, j: int)
    requires RunsAscend(runs) && s <= e
    ensures i <= j ==> j < |runs| && Reaches(runs, i, j, s, e)
    ensures i > j ==> |Within(RunSet(runs), s, e)| == 0
  {
    var at := RunLocate(runs, s);
    LocatedDecides(runs, s, at);
    i := if at < 0 || runs[at].Last() < s then at + 1 else at;
    if i >= |runs| || runs[i].start > e {
      NoneReaches(runs, i, s, e);
      return i, i - 1;
    }
    j := RunLocate(runs, e);
    LocatedDecides(runs, e, j);
  }

  lemma NoneReaches(runs: seq<Run>, i: nat, s: nat, e: nat)
    requires RunsAscend(runs) && i <= |runs| && s <= e
    requires i > 0 ==> runs[i - 1].Last() < s
    requires i < |runs| ==> runs[i].start > e
    ensures Within(RunSet(runs), s, e) == {}
  {
    forall x: nat | s <= x <= e
      ensures x !in RunSet(runs)
    {
      SplitAt(runs, 0, i, x);
      forall q | 0 <= q < |runs|
        ensures !InRun(runs[q], x)
      {
        if q < i {
          InOrder(runs, q, i - 1);
        } else {
          InOrder(runs, i, q);
        }
      }
    }
  }

  // The values in s .. e, run by run.
  method ClippedCount(runs: seq<Run>, i: nat, j: nat, s: nat, e: nat) returns (n: nat)
    requires Reaches(runs, i, j, s, e)
    ensures n == |Within(RunSet(runs), s, e)|
  {
    hide RunSet, Clips, Within;
    n := 0;
    ClipsNone(runs, i, s, e);
    for k := i to j + 1
      invariant n == |Clips(runs, i, k, s, e)|
    {
      InOrder(runs, i, k);
      InOrder(runs, k, j);
      ClipsStep(runs, i, k, s, e);
      n := n + (Min(runs[k].Last(), e) - Max(runs[k].start, s) + 1);
    }
    ClipsAreAll(runs, i, j, s, e);
  }

  lemma ClipsNone(runs: seq<Run>, i: nat, s: nat, e: nat)
    requires i <= |runs|
    ensures Clips(runs, i, i, s, e) == {}
  {
  }

  // The same, with the last run found on the way.
  method RunRangeCount(runs: seq<Run>, s: nat, e: nat) returns (n: nat)
    requires RunsAscend(runs) && s <= e
    ensures n == |Within(RunSet(runs), s, e)|
  {
    hide RunSet, Clips, Within;
    var at := RunLocate(runs, s);
    var i: nat := if at < 0 || runs[at].Last() < s then at + 1 else at;
    n := 0;
    ClipsNone(runs, i, s, e);
    var k := i;
    while k < |runs| && runs[k].start <= e
      invariant i <= k <= |runs| && n == |Clips(runs, i, k, s, e)|
      invariant k > i ==> runs[i].Last() >= s && runs[k - 1].start <= e
    {
      InOrder(runs, i, k);
      ClipsStep(runs, i, k, s, e);
      var from, to := Max(runs[k].start, s), Min(runs[k].Last(), e);
      if from <= to {
        n := n + (to - from + 1);
      }
      k := k + 1;
    }
    if k > i {
      ClipsAreAll(runs, i, k - 1, s, e);
    } else {
      NoneReaches(runs, i, s, e);
    }
  }
}
