/**
  lion_container_check(): what it accepts is exactly what is well formed and
  fits where it lies.
*/
module Checks {
  import opened Containers
  import opened Images
  import opened Mutators

  const HEADER: nat := 8

  // A payload of the shape its header says: an ARRAY's of as many members, a
  // bitmap's of a word count that its width gives.
  ghost predicate Shaped(c: Container) {
    match c.rep
    case Array(vals) => |vals| == c.card
    case Runs(_) => true
    case Bitmap(k, w) => Image(w, k)
  }

  method Check(c: Container, avail: nat) returns (ok: bool)
    requires Shaped(c)
    ensures ok <==> WellFormed(c) && SizeOf(c.rep) <= avail
  {
    if avail < HEADER {
      return false;
    }
    if c.rep.Bitmap? && !WidthOk(c.rep.width) {
      return false;
    }
    AtMostRange(c.rep);
    if c.card > RANGE {
      return false;
    }
    match c.rep {
      case Array(vals) =>
        if c.card > ARRAY_MAX || SizeOf(c.rep) > avail {
          return false;
        }
        ok := CheckArray(vals);
        if ok {
          ArrayMembers(vals);
        }
      case Bitmap(k, w) =>
        if SizeOf(c.rep) > avail {
          return false;
        }
        ImageIsMembers(w, k);
        var n := Cardinality(w, k);
        return n == c.card;
      case Runs(runs) =>
        if avail < HEADER + 2 || |runs| > RUNS_MAX || SizeOf(c.rep) > avail {
          return false;
        }
        var total;
        ok, total := CheckRuns(runs);
        if ok {
          RunsMembers(runs);
          RunSetCounts(runs, |runs|);
          if |runs| == 0 && c.card != 0 {
            return false;
          }
          return total == c.card;
        }
    }
  }

  method CheckArray(vals: seq<nat>) returns (ok: bool)
    requires |vals| <= ARRAY_MAX
    ensures ok <==> ArrayOk(vals)
  {
    for i := 0 to |vals|
      invariant forall p, q :: 0 <= p < q < i ==> vals[p] < vals[q]
      invariant forall p :: 0 <= p < i ==> vals[p] < RANGE
    {
      if vals[i] >= RANGE {
        return false;
      }
      if i > 0 && vals[i] <= vals[i - 1] {
        return false;
      }
    }
    return true;
  }

  // Each run starts past the one before it, and not next to it.
  method CheckRuns(runs: seq<Run>) returns (ok: bool, total: nat)
    ensures ok <==> RunsAscend(runs)
    ensures ok ==> total == RunTotal(runs, |runs|)
  {
    total := 0;
    var prev: int := -2;
    for i := 0 to |runs|
      invariant forall p :: 0 <= p < i ==> runs[p].Last() < RANGE
      invariant forall p, q :: 0 <= p < q < i ==> runs[p].Last() + 1 < runs[q].start
      invariant prev == if i == 0 then -2 else runs[i - 1].Last()
      invariant total == RunTotal(runs, i)
    {
      if runs[i].Last() > RANGE - 1 {
        return false, total;
      }
      if runs[i].start <= prev + 1 {
        assert i > 0;
        return false, total;
      }
      prev := runs[i].Last();
      total := total + (runs[i].Last() - runs[i].start + 1);
    }
    return true, total;
  }
}
