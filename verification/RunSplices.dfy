/**
  A RUN's payload with some of its runs replaced: what an insertion, a removal
  and the removal of a range move in place, as one operation.
*/
module RunSplices {
  import opened Sets
  import opened Containers

  // x is in one of runs i .. j - 1.
  ghost predicate InSome(runs: seq<Run>, i: nat, j: nat, x: nat)
    requires i <= j <= |runs|
  {
    exists q :: i <= q < j && InRun(runs[q], x)
  }

  lemma InSomeOfAll(runs: seq<Run>, x: nat)
    ensures x in RunSet(runs) <==> InSome(runs, 0, |runs|, x)
  {
    InRunSetTo(runs, |runs|, x);
  }

  function Spliced(runs: seq<Run>, i: nat, j: nat, repl: seq<Run>): seq<Run>
    requires i <= j <= |runs|
  {
    runs[..i] + repl + runs[j..]
  }

  // repl fits between run i - 1 and run j.
  ghost predicate FitsBetween(runs: seq<Run>, i: nat, j: nat, repl: seq<Run>)
    requires i <= j <= |runs|
  {
    && RunsAscend(repl)
    && (i > 0 && repl != [] ==> runs[i - 1].Last() + 1 < repl[0].start)
    && (j < |runs| && repl != [] ==> repl[|repl| - 1].Last() + 1 < runs[j].start)
  }

  lemma FirstIsLeast(runs: seq<Run>, q: nat)
    requires RunsAscend(runs) && q < |runs|
    ensures runs[0].start <= runs[q].start && runs[q].Last() <= runs[|runs| - 1].Last()
  {
  }

  lemma SpliceAscends(runs: seq<Run>, i: nat, j: nat, repl: seq<Run>)
    requires RunsAscend(runs) && i <= j <= |runs| && FitsBetween(runs, i, j, repl)
    ensures RunsAscend(Spliced(runs, i, j, repl))
  {
    var r := Spliced(runs, i, j, repl);
    var m := |repl|;
    SplicedAt(runs, i, j, repl);
    hide Spliced;
    forall p, q | 0 <= p < q < |r|
      ensures r[p].Last() + 1 < r[q].start
    {
      SplicedInOrder(runs, i, j, repl, p, q);
    }
  }

  lemma SplicedInOrder(runs: seq<Run>, i: nat, j: nat, repl: seq<Run>, p: nat, q: nat)
    requires RunsAscend(runs) && i <= j <= |runs| && FitsBetween(runs, i, j, repl)
    requires p < q < |Spliced(runs, i, j, repl)|
    ensures var r := Spliced(runs, i, j, repl); r[p].Last() + 1 < r[q].start
  {
    var m := |repl|;
    SplicedAt(runs, i, j, repl);
    hide Spliced;
    if i <= q < i + m && p < i {
      FirstIsLeast(repl, q - i);
      assert p < i - 1 ==> runs[p].Last() + 1 < runs[i - 1].start;
    } else if i + m <= q && i <= p < i + m {
      FirstIsLeast(repl, p - i);
      assert q - i - m + j > j ==> runs[j].Last() + 1 < runs[q - i - m + j].start;
    }
  }

  lemma SplicedAt(runs: seq<Run>, i: nat, j: nat, repl: seq<Run>)
    requires i <= j <= |runs|
    ensures var r, m := Spliced(runs, i, j, repl), |repl|;
            && |r| == |runs| - (j - i) + m && (forall q :: 0 <= q < i ==> r[q] == runs[q])
            && (forall q :: i <= q < i + m ==> r[q] == repl[q - i])
            && forall q :: i + m <= q < |r| ==> r[q] == runs[q - i - m + j]
  {
  }

  lemma SplitAt(runs: seq<Run>, i: nat, j: nat, x: nat)
    requires i <= j <= |runs|
    ensures x in RunSet(runs) <==> InSome(runs, 0, i, x) || InSome(runs, i, j, x) || InSome(runs, j, |runs|, x)
  {
    InSomeOfAll(runs, x);
    if InSome(runs, 0, |runs|, x) {
      var q :| 0 <= q < |runs| && InRun(runs[q], x);
      assert q < i || i <= q < j || j <= q;
    }
  }

  // The same runs at two places hold the same values.
  lemma InSomeAlike(a: seq<Run>, i: nat, b: seq<Run>, j: nat, n: nat, x: nat)
    requires i + n <= |a| && j + n <= |b| && forall q :: i <= q < i + n ==> a[q] == b[q - i + j]
    ensures InSome(a, i, i + n, x) <==> InSome(b, j, j + n, x)
  {
    if InSome(a, i, i + n, x) {
      var q :| i <= q < i + n && InRun(a[q], x);
      assert InRun(b[q - i + j], x);
    }
    if InSome(b, j, j + n, x) {
      var q :| j <= q < j + n && InRun(b[q], x);
      assert a[q - j + i] == b[q];
    }
  }

  // Its values: those of the runs kept, and repl's.
  lemma SpliceMembers(runs: seq<Run>, i: nat, j: nat, repl: seq<Run>, x: nat)
    requires i <= j <= |runs|
    ensures x in RunSet(Spliced(runs, i, j, repl)) <==>
            InSome(runs, 0, i, x) || x in RunSet(repl) || InSome(runs, j, |runs|, x)
  {
    hide InSome, RunSet;
    var r, m := Spliced(runs, i, j, repl), |repl|;
    SplicedAt(runs, i, j, repl);
    hide Spliced;
    SplitAt(r, i, i + m, x);
    InSomeOfAll(repl, x);
    InSomeAlike(r, 0, runs, 0, i, x);
    InSomeAlike(r, i, repl, 0, m, x);
    InSomeAlike(r, i + m, runs, j, |runs| - j, x);
  }

  // repl stands for runs i .. j - 1 and the values of add: so does the splice.
  lemma SpliceAdds(runs: seq<Run>, i: nat, j: nat, repl: seq<Run>, add: set<nat>)
    requires RunsAscend(runs) && i <= j <= |runs| && FitsBetween(runs, i, j, repl)
    requires forall x: nat :: x in RunSet(repl) <==> InSome(runs, i, j, x) || x in add
    ensures RunsAscend(Spliced(runs, i, j, repl))
    ensures RunSet(Spliced(runs, i, j, repl)) == RunSet(runs) + add
  {
    SpliceAscends(runs, i, j, repl);
    var r := Spliced(runs, i, j, repl);
    forall x: nat
      ensures x in RunSet(r) <==> x in RunSet(runs) || x in add
    {
      SpliceMembers(runs, i, j, repl, x);
      SplitAt(runs, i, j, x);
    }
  }

  // repl stands for runs i .. j - 1 without the values s .. e, which no other
  // run has: so does the splice.
  lemma SpliceRemoves(runs: seq<Run>, i: nat, j: nat, repl: seq<Run>, s: nat, e: nat)
    requires RunsAscend(runs) && i <= j <= |runs| && FitsBetween(runs, i, j, repl)
    requires i > 0 ==> runs[i - 1].Last() < s
    requires j < |runs| ==> e < runs[j].start
    requires forall x: nat :: x in RunSet(repl) <==> InSome(runs, i, j, x) && !(s <= x <= e)
    ensures RunsAscend(Spliced(runs, i, j, repl))
    ensures RunSet(Spliced(runs, i, j, repl)) == Without(RunSet(runs), s, e)
  {
    SpliceAscends(runs, i, j, repl);
    var r := Spliced(runs, i, j, repl);
    forall x: nat
      ensures x in RunSet(r) <==> x in RunSet(runs) && !(s <= x <= e)
    {
      SpliceMembers(runs, i, j, repl, x);
      SplitAt(runs, i, j, x);
      if InSome(runs, 0, i, x) {
        var q :| 0 <= q < i && InRun(runs[q], x);
        assert q < i - 1 ==> runs[q].Last() < runs[i - 1].start;
      }
      if InSome(runs, j, |runs|, x) {
        var q :| j <= q < |runs| && InRun(runs[q], x);
        assert q > j ==> runs[j].start < runs[q].start;
      }
    }
  }

  lemma SetOfOne(r: Run, x: nat)
    ensures x in RunSet([r]) <==> InRun(r, x)
  {
    InSomeOfAll([r], x);
    if InRun(r, x) {
      assert InRun([r][0], x);
    }
  }

  lemma SetOfTwo(a: Run, b: Run, x: nat)
    ensures x in RunSet([a, b]) <==> InRun(a, x) || InRun(b, x)
  {
    InSomeOfAll([a, b], x);
    if InRun(a, x) {
      assert InRun([a, b][0], x);
    }
    if InRun(b, x) {
      assert InRun([a, b][1], x);
    }
  }
}
