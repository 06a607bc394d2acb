/**
  The searches of a container's payload: bisections of an ARRAY, with and
  without a branch at every step, the gallop, and those of a RUN's runs.
*/
module Searches {
  import opened Sets
  import opened Containers
  import opened Images

  // i is the first index with s[i] >= key.
  ghost predicate IsLowerBound(s: seq<nat>, key: nat, i: nat) {
    i <= |s| && (forall j :: 0 <= j < i ==> s[j] < key) && (forall j :: i <= j < |s| ==> s[j] >= key)
  }

  method LowerBound(s: seq<nat>, key: nat) returns (lo: nat)
    requires Ascends(s)
    ensures IsLowerBound(s, key, lo)
  {
    lo := 0;
    var hi := |s|;
    while lo < hi
      invariant lo <= hi <= |s|
      invariant forall j :: 0 <= j < lo ==> s[j] < key
      invariant forall j :: hi <= j < |s| ==> s[j] >= key
    {
      var mid := lo + (hi - lo) / 2;
      if s[mid] < key {
        lo := mid + 1;
      } else {
        hi := mid;
      }
    }
  }

  // The first index with s[i] > key, which is that of s[i] >= key + 1.
  method UpperBound(s: seq<nat>, key: nat) returns (lo: nat)
    requires Ascends(s)
    ensures IsLowerBound(s, key + 1, lo)
  {
    lo := 0;
    var hi := |s|;
    while lo < hi
      invariant lo <= hi <= |s|
      invariant forall j :: 0 <= j < lo ==> s[j] <= key
      invariant forall j :: hi <= j < |s| ==> s[j] > key
    {
      var mid := lo + (hi - lo) / 2;
      if s[mid] <= key {
        lo := mid + 1;
      } else {
        hi := mid;
      }
    }
  }

  // LowerBound() of s[from .. from + count - 1] without a branch at every step:
  // only the count decides when it ends.
  method LowerBoundBranchFree(s: seq<nat>, from: nat, count: nat, key: nat) returns (i: nat)
    requires Ascends(s) && from + count <= |s|
    ensures from <= i <= from + count
    ensures forall j :: from <= j < i ==> s[j] < key
    ensures forall j :: i <= j < from + count ==> s[j] >= key
  {
    if count == 0 {
      return from;
    }
    var base, n := from, count;
    while n > 1
      invariant 0 < n && from <= base && base + n <= from + count
      invariant forall j :: from <= j < base ==> s[j] < key
      invariant forall j :: base + n <= j < from + count ==> s[j] >= key
    {
      var half := n / 2;
      base := if s[base + half] < key then base + half else base;
      n := n - half;
    }
    return base + if s[base] < key then 1 else 0;
  }

  // The first index at or past from with s[i] >= key, by steps that double.
  method Gallop(s: seq<nat>, from: nat, key: nat) returns (i: nat)
    requires Ascends(s) && from <= |s| && forall j :: 0 <= j < from ==> s[j] < key
    ensures IsLowerBound(s, key, i) && from <= i
  {
    if from >= |s| {
      return |s|;
    }
    if s[from] >= key {
      return from;
    }
    var lo, step := from, 1;
    while from + step < |s| && s[from + step] < key
      invariant from <= lo < |s| && lo < from + step && s[lo] < key
      decreases |s| - step
    {
      lo := from + step;
      step := step * 2;
    }
    var hi := if from + step < |s| then from + step else |s|;
    i := LowerBoundBranchFree(s, lo + 1, hi - lo - 1, key);
    assert forall j :: hi <= j < |s| ==> s[j] >= key;
  }

  // The position of a member, or of none.
  lemma FoundAtLowerBound(s: seq<nat>, key: nat, i: nat)
    requires Ascends(s) && IsLowerBound(s, key, i)
    ensures key in s <==> i < |s| && s[i] == key
  {
  }

  /* ---------- runs ---------- */

  // The rightmost run that starts at or before lo, or -1.
  method RunLocate(runs: seq<Run>, lo: nat) returns (res: int)
    requires RunsAscend(runs)
    ensures -1 <= res < |runs|
    ensures forall j :: 0 <= j <= res ==> runs[j].start <= lo
    ensures forall j :: res < j < |runs| ==> runs[j].start > lo
  {
    var loI, hiI := 0, |runs| - 1;
    res := -1;
    while loI <= hiI
      invariant 0 <= loI <= hiI + 1 <= |runs| && res == loI - 1
      invariant forall j :: 0 <= j < loI ==> runs[j].start <= lo
      invariant forall j :: hiI < j < |runs| ==> runs[j].start > lo
    {
      var mid := loI + (hiI - loI) / 2;
      if runs[mid].start <= lo {
        res := mid;
        loI := mid + 1;
      } else {
        hiI := mid - 1;
      }
    }
  }

  // A value is in ascending runs exactly when it is in the one located.
  lemma LocatedDecides(runs: seq<Run>, lo: nat, res: int)
    requires RunsAscend(runs) && -1 <= res < |runs|
    requires forall j :: 0 <= j <= res ==> runs[j].start <= lo
    requires forall j :: res < j < |runs| ==> runs[j].start > lo
    ensures lo in RunSet(runs) <==> res >= 0 && lo <= runs[res].Last()
    ensures res >= 0 && res + 1 < |runs| ==> runs[res].Last() + 1 < runs[res + 1].start
  {
    InRunSetTo(runs, |runs|, lo);
    if res >= 0 && lo <= runs[res].Last() {
      assert InRun(runs[res], lo);
    }
  }

  // Is v in a run: a branch-free search for the last run that starts at or below it.
  method RunHasMember(runs: seq<Run>, v: nat) returns (found: bool)
    requires RunsAscend(runs) && runs != []
    ensures found <==> v in RunSet(runs)
  {
    var base, n := 0, |runs|;
    while n > 1
      invariant 0 < n && 0 <= base && base + n <= |runs|
      invariant forall j :: 0 < j <= base ==> runs[j].start <= v
      invariant forall j :: base + n <= j < |runs| ==> runs[j].start > v
    {
      var half := n / 2;
      base := if runs[base + half].start <= v then base + half else base;
      n := n - half;
    }
    if runs[base].start <= v {
      assert forall j :: 0 <= j <= base ==> runs[j].start <= v;
      LocatedDecides(runs, v, base);
      return v <= runs[base].Last();
    } else {
      assert forall j :: base < j < |runs| ==> runs[j].start > v;
      assert base == 0;
      LocatedDecides(runs, v, -1);
      return false;
    }
  }

  /* ---------- whatever the representation ---------- */

  method Contains(c: Container, lo: nat) returns (found: bool)
    requires WellFormed(c) && lo < RANGE
    ensures found <==> lo in Members(c.rep)
  {
    match c.rep {
      case Array(vals) =>
        var pos := LowerBound(vals, lo);
        FoundAtLowerBound(vals, lo, pos);
        return pos < |vals| && vals[pos] == lo;
      case Bitmap(k, w) =>
        TestDecides(w, k, lo);
        return Test(w, k, lo);
      case Runs(runs) =>
        var idx := RunLocate(runs, lo);
        LocatedDecides(runs, lo, idx);
        RunsMembers(runs);
        return idx >= 0 && lo <= runs[idx].Last();
    }
  }

  // The same of an ARRAY, without a branch: the last member at or below v.
  method ArrayHasMember(s: seq<nat>, v: nat) returns (found: bool)
    requires Ascends(s)
    ensures found <==> v in s
  {
    if s == [] {
      return false;
    }
    var base, n := 0, |s|;
    while n > 1
      invariant 0 < n && 0 <= base && base + n <= |s|
      invariant forall j :: 0 < j <= base ==> s[j] <= v
      invariant forall j :: base + n <= j < |s| ==> s[j] > v
    {
      var half := n / 2;
      base := if s[base + half] <= v then base + half else base;
      n := n - half;
    }
    return s[base] == v;
  }

  // Is v, an ARRAY operand's member, in c - as the merges would find it?
  method HasMember(c: Container, v: nat) returns (found: bool)
    requires WellFormed(c) && v < RANGE
    ensures found <==> v in Members(c.rep)
  {
    match c.rep {
      case Array(vals) =>
        found := ArrayHasMember(vals, v);
      case Bitmap(_, _) =>
        found := Contains(c, v);
      case Runs(_) =>
        found := Contains(c, v);
    }
  }
}
