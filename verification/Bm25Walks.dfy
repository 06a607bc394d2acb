/**
  Walks made one after another: lion_bm25(), which lists the best k rows the
  snapshot sees, and the LionBm25 scan, which gives them one at a time.  The
  index is static: what an insert adds between two walks is not modelled.
*/
module Bm25Walks {
  import opened Naturals
  import opened Options
  import opened Bm25Rank
  import opened Bm25Score
  import opened Bm25TopK

  // Every row that can rank, best first.
  ghost function FullRanking(q: Search): seq<Cand> { Ranking(Candidates(q, None)) }

  // The rows of s the snapshot sees: those whose codes are in sees.
  ghost function Visible(s: seq<Cand>, sees: set<nat>): seq<Cand> {
    if s == [] then [] else (if s[0].code in sees then [s[0]] else []) + Visible(s[1..], sees)
  }

  lemma {:induction false} VisibleConcat(s: seq<Cand>, t: seq<Cand>, sees: set<nat>)
    ensures Visible(s + t, sees) == Visible(s, sees) + Visible(t, sees)
  {
    if s == [] {
      assert s + t == t;
    } else {
      VisibleConcat(s[1..], t, sees);
      assert (s + t)[1..] == s[1..] + t && (s + t)[0] == s[0];
      Joins(if s[0].code in sees then [s[0]] else [], Visible(s[1..], sees), Visible(t, sees));
    }
  }

  lemma Joins(a: seq<Cand>, b: seq<Cand>, c: seq<Cand>)
    ensures a + (b + c) == (a + b) + c
  {
  }

  // How many rows the next walk asks for.
  function NextL(l: nat, first: nat, q: Search, seen: nat): (n: nat)
    ensures 1 <= n
    ensures q.ncodes > seen ==> n <= q.ncodes - seen + 1
    ensures n == 1 || n == (if l == 0 then first else 4 * l) || n == q.ncodes - seen + 1
    ensures n < (if l == 0 then first else 4 * l) ==> n == q.ncodes - seen + 1 && q.ncodes > seen
  {
    var more := if l == 0 then first else l * 4;
    var capped := if q.ncodes > seen then Min(more, q.ncodes - seen + 1) else more;
    if capped < 1 then 1 else capped
  }

  // What a walk resumes below, after one that stopped at the ranking's n-th row.
  ghost function After(q: Search, n: nat): Option<Cand>
    requires n <= |FullRanking(q)|
  {
    if n == 0 then None else Some(FullRanking(q)[n - 1])
  }

  // The rows a resumed walk ranks are those the walks before it did not reach.
  lemma ResumedRanking(q: Search, n: nat)
    requires n <= |FullRanking(q)|
    ensures Ranking(Candidates(q, After(q, n))) == FullRanking(q)[n..]
  {
    if n > 0 {
      var a := FullRanking(q)[n - 1];
      BelowRow(q, a);
      hide Candidates, Ranking;
      RankedBelow(Candidates(q, None), n - 1);
    } else {
      assert FullRanking(q)[0..] == FullRanking(q);
    }
  }

  lemma BelowRow(q: Search, a: Cand)
    ensures Candidates(q, Some(a)) == set x | x in Candidates(q, None) && Better(a, x)
  {
    hide RowsFrom, RowCand;
    assert forall code :: code in RowsFrom(q, 0) ==> RowCand(q, code) in Candidates(q, None);
  }

  /* ---------- a ranking never has more rows than its lexemes ---------- */

  ghost function Postings(q: Search, t: nat): nat
    requires t <= |q.order|
    decreases |q.order| - t
  {
    if t == |q.order| then 0 else |ListOf(q, t)| + Postings(q, t + 1)
  }

  lemma {:induction false} CodesAtMost(list: seq<Posting>)
    ensures |Codes(list)| <= |list|
  {
    if list == [] {
      assert Codes(list) == {};
    } else {
      CodesAtMost(list[1..]);
      assert Codes(list) == {list[0].code} + Codes(list[1..]);
    }
  }

  lemma {:induction false} RowsAtMost(q: Search, t: nat)
    requires t <= |q.order|
    ensures |RowsFrom(q, t)| <= Postings(q, t)
    decreases |q.order| - t
  {
    if t < |q.order| {
      CodesAtMost(ListOf(q, t));
      RowsAtMost(q, t + 1);
    }
  }

  lemma {:induction false} ImageAtMost(q: Search, codes: set<nat>)
    ensures |set code | code in codes :: RowCand(q, code)| <= |codes|
  {
    if codes == {} {
      assert (set code | code in codes :: RowCand(q, code)) == {};
    } else {
      var c :| c in codes;
      ImageAtMost(q, codes - {c});
      assert (set code | code in codes :: RowCand(q, code)) ==
             (set code | code in codes - {c} :: RowCand(q, code)) + {RowCand(q, c)};
    }
  }

  // The one row past the lexemes' that NextL() asks for makes the walk that
  // reaches the end come up short, so that none follows it.
  lemma CappedWalkIsLast(q: Search, l: nat, first: nat, seen: nat)
    requires q.ncodes == Postings(q, 0) && seen <= |FullRanking(q)| && seen < q.ncodes
    requires NextL(l, first, q, seen) == q.ncodes - seen + 1
    ensures |Take(FullRanking(q)[seen..], NextL(l, first, q, seen))| < NextL(l, first, q, seen)
  {
    RowsAtMost(q, 0);
    ImageAtMost(q, RowsFrom(q, 0));
    assert Candidates(q, None) == set code | code in RowsFrom(q, 0) :: RowCand(q, code);
  }

  /* ---------- one walk, sorted ---------- */

  // The candidates sorted where they lie, by insertion: any sort would do.
  method SortInPlace(best: array<Cand>, n: nat)
    requires n <= best.Length
    modifies best
    ensures SortedByCmp(best[..n]) && multiset(best[..n]) == multiset(old(best[..n]))
    ensures best[n..] == old(best[n..])
  {
    hide SortedByCmp;
    NoneSorted(best[..n][..0]);
    for i := 0 to n
      invariant SortedByCmp(best[..n][..i]) && multiset(best[..n]) == multiset(old(best[..n]))
      invariant best[n..] == old(best[n..])
    {
      InsertLast(best, n, i);
    }
    assert best[..n][..n] == best[..n];
  }

  // Candidate i put where it belongs among those before it.
  method InsertLast(best: array<Cand>, n: nat, i: nat)
    requires i < n <= best.Length && SortedByCmp(best[..n][..i])
    modifies best
    ensures SortedByCmp(best[..n][..i + 1]) && multiset(best[..n]) == multiset(old(best[..n]))
    ensures best[n..] == old(best[n..])
  {
    hide SortedByCmp, SortedBut, CandCmp, Heap.Swapped;
    LastOfMore(best[..n], i);
    var j: nat := i;
    while j > 0 && CandCmp(best[j - 1], best[j]) > 0
      invariant j <= i && SortedBut(best[..n], i + 1, j)
      invariant multiset(best[..n]) == multiset(old(best[..n])) && best[n..] == old(best[n..])
    {
      MovesDown(best[..n], i + 1, j);
      Heap.Swap(best, n, j - 1, j);
      j := j - 1;
    }
    StaysThere(best[..n], i + 1, j);
  }

  // The first m in order but for candidate j, which belongs no later than that.
  ghost predicate SortedBut(s: seq<Cand>, m: nat, j: nat) {
    && j < m <= |s| && (forall p, q :: 0 <= p < q < m && p != j && q != j ==> CandCmp(s[p], s[q]) <= 0)
    && forall q :: j < q < m ==> CandCmp(s[j], s[q]) <= 0
  }

  lemma NoneSorted(s: seq<Cand>)
    requires s == []
    ensures SortedByCmp(s)
  {
  }

  lemma LastOfMore(s: seq<Cand>, i: nat)
    requires i < |s| && SortedByCmp(s[..i])
    ensures SortedBut(s, i + 1, i)
  {
    forall p, q | 0 <= p < q < i
      ensures CandCmp(s[p], s[q]) <= 0
    {
      assert s[..i][p] == s[p] && s[..i][q] == s[q];
    }
  }

  lemma MovesDown(s: seq<Cand>, m: nat, j: nat)
    requires SortedBut(s, m, j) && j > 0 && CandCmp(s[j - 1], s[j]) > 0
    ensures SortedBut(Heap.Swapped(s, j - 1, j), m, j - 1)
  {
  }

  lemma StaysThere(s: seq<Cand>, m: nat, j: nat)
    requires SortedBut(s, m, j) && (j > 0 ==> CandCmp(s[j - 1], s[j]) <= 0)
    ensures SortedByCmp(s[..m])
  {
    forall p | 0 <= p < j
      ensures CandCmp(s[p], s[j]) <= 0
    {
      assert p < j - 1 ==> CandCmp(s[p], s[j - 1]) <= 0;
    }
  }

  method WalkSorted(q: Search, after: Option<Cand>, l: nat) returns (best: seq<Cand>)
    requires 0 < l && Exact(q)
    ensures best == Take(Ranking(Candidates(q, after)), l)
  {
    var heap := new Cand[l];
    var nbest := TopK(q, after, heap);
    SortInPlace(heap, nbest);
    SortGivesRanking(heap[..nbest], l, Candidates(q, after));
    best := heap[..nbest];
  }

  // A walk that resumes at the ranking's row `seen` gives its next l rows, the
  // last of which is where the next one resumes.
  method Resume(q: Search, after: Option<Cand>, l: nat, ghost seen: nat) returns (best: seq<Cand>)
    requires 0 < l && seen <= |FullRanking(q)| && after == After(q, seen) && Exact(q)
    ensures best == Take(FullRanking(q)[seen..], l)
    ensures seen + |best| <= |FullRanking(q)| && best == FullRanking(q)[seen..seen + |best|]
    ensures |best| < l ==> seen + |best| == |FullRanking(q)|
    ensures best != [] ==> After(q, seen + |best|) == Some(best[|best| - 1])
  {
    hide Ranking, Candidates;
    best := WalkSorted(q, after, l);
    ResumedRanking(q, seen);
  }

  /* ---------- lion_bm25() ---------- */

  // The rows of cands the snapshot sees, onto out, until it has k.
  method Emit(cands: seq<Cand>, k: nat, sees: set<nat>, out0: seq<Cand>) returns (out: seq<Cand>)
    requires |out0| <= k
    ensures out == Take(out0 + Visible(cands, sees), k)
  {
    out := out0;
    var i := 0;
    while i < |cands| && |out| < k
      invariant i <= |cands| && |out| <= k
      invariant out0 + Visible(cands, sees) == out + Visible(cands[i..], sees)
    {
      if cands[i].code in sees {
        out := out + [cands[i]];
      }
      i := i + 1;
    }
    assert i == |cands| ==> Visible(cands[i..], sees) == [];
  }

  // What a walk's rows add to those emitted of r's first `was`.
  lemma EmitStep(r: seq<Cand>, was: nat, now: nat, k: nat, sees: set<nat>)
    requires was <= now <= |r|
    ensures Visible(r[..was], sees) + Visible(r[was..now], sees) == Visible(r[..now], sees)
    ensures k <= |Visible(r[..now], sees)| || now == |r| ==>
              Take(Visible(r[..now], sees), k) == Take(Visible(r, sees), k)
  {
    assert r[..now] == r[..was] + r[was..now];
    VisibleConcat(r[..was], r[was..now], sees);
    assert r == r[..now] + r[now..];
    VisibleConcat(r[..now], r[now..], sees);
  }

  // lion_bm25(): the first k rows of the ranking the snapshot sees, or all of them.
  method RankRows(q: Search, k: nat, sees: set<nat>) returns (out: seq<Cand>)
    requires Exact(q)
    ensures out == Take(Visible(FullRanking(q), sees), k)
  {
    hide FullRanking, Visible, Exact;
    out := [];
    if k == 0 {
      return;
    }
    ghost var r := FullRanking(q);
    var l, seen, after := NextL(0, k + 16, q, 0), 0, None;
    assert Visible(r[..0], sees) == [] by { NoneVisible(r, sees); }
    while true
      invariant 0 < l && seen <= |r| && after == After(q, seen) && |out| < k
      invariant out == Visible(r[..seen], sees)
      decreases |r| - seen
    {
      var best := Resume(q, after, l, seen);
      EmitStep(r, seen, seen + |best|, k, sees);
      out := Emit(best, k, sees, out);
      seen := seen + |best|;
      if |best| > 0 {
        after := Some(best[|best| - 1]);
      }
      if |out| >= k || |best| < l {
        break;
      }
      l := NextL(l, k + 16, q, seen);
    }
  }

  lemma NoneVisible(r: seq<Cand>, sees: set<nat>)
    ensures Visible(r[..0], sees) == []
  {
  }

  /* ---------- the LionBm25 scan ---------- */

  class Scan {
    const q: Search
    const firstL: nat
    const sees: set<nat>
    const valid: bool
    var best: seq<Cand>
    var next: nat
    var l: nat
    var seen: nat
    var last: bool

    // best holds the last rows seen of the ranking, next of which are given.
    ghost predicate Valid()
      reads this
    {
      && Exact(q) && (!valid ==> FullRanking(q) == [])
      && next <= |best| <= seen <= |FullRanking(q)|
      && best == FullRanking(q)[seen - |best|..seen]
      && (last ==> seen == |FullRanking(q)|)
      && (!last && seen > 0 ==> best != [])
    }

    // The rows of the ranking not given yet, seen or not.
    ghost function Left(): seq<Cand>
      requires Valid()
      reads this
    {
      FullRanking(q)[seen - |best| + next..]
    }

    // The rows the scan still has to give.
    ghost function Rest(): seq<Cand>
      requires Valid()
      reads this
    {
      Visible(Left(), sees)
    }

    // valid is what lion_bm25_prepare() said: whether any row can score.
    constructor (q: Search, firstL: nat, sees: set<nat>, valid: bool)
      requires Exact(q) && (!valid ==> FullRanking(q) == [])
      ensures Valid() && Rest() == Visible(FullRanking(q), sees)
      ensures this.q == q && this.sees == sees
    {
      this.q, this.firstL, this.sees, this.valid := q, firstL, sees, valid;
      best, next, l, seen, last := [], 0, 0, 0, false;
      new;
      Unstarted();
    }

    lemma Unstarted()
      requires Exact(q) && (!valid ==> FullRanking(q) == []) && best == [] && next == seen == 0 && !last
      ensures Valid() && Left() == FullRanking(q)
    {
      hide FullRanking, Exact;
      ghost var r := FullRanking(q);
      assert r[0..] == r && r[0..0] == [];
    }

    // The walk again, for the rows below the last one it gave.
    method Refill()
      requires Valid() && valid && !last && next == |best|
      modifies this
      ensures Valid() && Left() == old(Left()) && next == 0
      ensures seen >= old(seen) && (seen == old(seen) ==> last)
    {
      hide FullRanking, After, NextL, Take, Visible, Exact;
      l := NextL(l, firstL, q, seen);
      var after := if |best| > 0 then Some(best[|best| - 1]) else None;
      StandsAt();
      ghost var r, was := FullRanking(q), seen;
      var rows := Resume(q, after, l, seen);
      best, next, seen, last := rows, 0, seen + |rows|, |rows| < l;
      assert seen - |best| + next == was && best == r[was..seen];
    }

    lemma StandsAt()
      requires Valid() && !last && next == |best|
      ensures Left() == FullRanking(q)[seen..] && seen <= |FullRanking(q)|
      ensures After(q, seen) == if |best| > 0 then Some(best[|best| - 1]) else None
    {
      hide FullRanking, Exact;
    }

    // One row of those left, given or passed over.
    lemma GiveOne()
      requires Valid() && next < |best|
      ensures Left() != [] && Left()[0] == best[next]
      ensures Left()[1..] == FullRanking(q)[seen - |best| + next + 1..]
      ensures Rest() == (if best[next].code in sees then [best[next]] else []) +
                        Visible(FullRanking(q)[seen - |best| + next + 1..], sees)
    {
      hide FullRanking, Exact;
    }

    // The next row, best first, that the snapshot sees.
    method Next() returns (row: Option<Cand>)
      requires Valid()
      modifies this
      ensures Valid()
      ensures match row
              case None => old(Rest()) == [] && Rest() == []
              case Some(c) => old(Rest()) == [c] + Rest()
    {
      hide FullRanking, Visible, Exact;
      while true
        invariant Valid() && Rest() == old(Rest())
        decreases |FullRanking(q)| - seen, !last, |best| - next
      {
        if next < |best| {
          var c := best[next];
          GiveOne();
          next := next + 1;
          if c.code in sees {
            return Some(c);
          }
        } else if !valid || last {
          NoneVisible(FullRanking(q), sees);
          assert Left() == FullRanking(q)[..0];
          return None;
        } else {
          Refill();
        }
      }
    }

    // Start over.
    method Rescan()
      requires Valid()
      modifies this
      ensures Valid() && Rest() == Visible(FullRanking(q), sees)
    {
      best, next, l, seen, last := [], 0, 0, 0, false;
      Unstarted();
    }

    // Any number of pulls: the next n rows of the ranking the snapshot sees.
    method Pull(n: nat) returns (rows: seq<Cand>)
      requires Valid()
      modifies this
      ensures Valid() && rows == Take(old(Rest()), n) && Rest() == old(Rest())[|rows|..]
    {
      hide FullRanking, Visible, Valid, Rest;
      rows := [];
      while |rows| < n
        invariant Valid() && |rows| <= n
        invariant old(Rest()) == rows + Rest()
      {
        var row := Next();
        match row {
          case None =>
            return;
          case Some(c) =>
            rows := rows + [c];
        }
      }
    }
  }
}
