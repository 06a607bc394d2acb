/**
  The order of a BM25 ranking: candidate rows, best first, equal scores in
  code order, and what it means to hold the best L of a set of candidates.
*/
module Bm25Rank {
  import opened Naturals
  import Sets

  // A candidate row: the code of its TID and its score.
  datatype Cand = Cand(code: nat, score: real)

  predicate Better(x: Cand, y: Cand) {
    if x.score != y.score then x.score > y.score else x.code < y.code
  }

  // Best first, with no two candidates equal.
  ghost predicate Descending(s: seq<Cand>) {
    forall i, j :: 0 <= i < j < |s| ==> Better(s[i], s[j])
  }

  // The longest prefix of s with at most n elements.
  function Take<T>(s: seq<T>, n: nat): seq<T> { s[..Min(n, |s|)] }

  /* ---------- sorting everything: the specification ---------- */

  ghost predicate IsBest(e: set<Cand>, m: Cand) {
    m in e && forall x :: x in e ==> x == m || Better(m, x)
  }

  lemma {:induction false} BestExists(e: set<Cand>) returns (m: Cand)
    requires e != {}
    ensures IsBest(e, m)
  {
    var a :| a in e;
    m := a;
    if e != {a} {
      var b := BestExists(e - {a});
      m := if Better(a, b) then a else b;
      forall x | x in e
        ensures x == m || Better(m, x)
      {
        assert x == a || x in e - {a};
      }
    }
  }

  ghost function BestOf(e: set<Cand>): (m: Cand)
    requires e != {}
    ensures IsBest(e, m)
  {
    assert exists m :: IsBest(e, m) by {
      var m := BestExists(e);
    }
    var m :| IsBest(e, m);
    m
  }

  // All of e, best first.
  ghost function Ranking(e: set<Cand>): (r: seq<Cand>)
    ensures |r| == |e| && multiset(r) == multiset(e)
  {
    if e == {} then [] else
      var m := BestOf(e);
      var rest := Ranking(e - {m});
      assert multiset([m] + rest) == multiset{m} + multiset(e - {m}) == multiset(e);
      [m] + rest
  }

  lemma RankingMembers(e: set<Cand>)
    ensures forall x :: x in Ranking(e) <==> x in e
  {
    forall x
      ensures x in Ranking(e) <==> x in e
    {
      assert x in Ranking(e) <==> x in multiset(Ranking(e));
    }
  }

  lemma {:induction false} RankingDescends(e: set<Cand>)
    ensures Descending(Ranking(e))
  {
    if e != {} {
      var m := BestOf(e);
      RankingDescends(e - {m});
      RankingMembers(e - {m});
      var r, rest := Ranking(e), Ranking(e - {m});
      forall i, j | 0 <= i < j < |r|
        ensures Better(r[i], r[j])
      {
        if i == 0 {
          assert r[j] == rest[j - 1] && rest[j - 1] in rest;
        }
      }
    }
  }

  // Score descending, then code ascending.
  lemma RankingOrder(e: set<Cand>, i: nat, j: nat)
    requires i < j < |Ranking(e)|
    ensures var x, y := Ranking(e)[i], Ranking(e)[j]; x.score > y.score || (x.score == y.score && x.code < y.code)
  {
    RankingDescends(e);
  }

  ghost function Elems(s: seq<Cand>): set<Cand> { set x | x in s }

  // There is one way to put candidates in descending order.
  lemma {:induction false} DescendingIsUnique(s: seq<Cand>, t: seq<Cand>)
    requires Descending(s) && Descending(t) && Elems(s) == Elems(t)
    ensures s == t
  {
    if s == [] {
      assert forall i :: 0 <= i < |t| ==> t[i] in Elems(t);
    } else {
      assert s[0] in Elems(t);
      assert t[0] in Elems(s);
      assert s[0] == t[0];
      TailElems(s);
      TailElems(t);
      DescendingIsUnique(s[1..], t[1..]);
      assert s == [s[0]] + s[1..] && t == [t[0]] + t[1..];
    }
  }

  lemma TailElems(s: seq<Cand>)
    requires s != [] && Descending(s)
    ensures Elems(s[1..]) == Elems(s) - {s[0]}
  {
    assert s == [s[0]] + s[1..];
  }

  lemma AfterInDescending(s: seq<Cand>, n: nat, x: Cand)
    requires Descending(s) && n < |s|
    ensures x in s[n + 1..] <==> x in s && Better(s[n], x)
  {
    if x in s && Better(s[n], x) {
      var i :| 0 <= i < |s| && s[i] == x;
      assert n < i;
      assert s[n + 1..][i - n - 1] == x;
    }
  }

  // Those ranked below a row of the ranking are the ones after it.
  lemma RankedBelow(e: set<Cand>, n: nat)
    requires n < |e|
    ensures Ranking(set x | x in e && Better(Ranking(e)[n], x)) == Ranking(e)[n + 1..]
  {
    var r := Ranking(e);
    RankingDescends(e);
    RankingMembers(e);
    var below := set x | x in e && Better(r[n], x);
    RankingDescends(below);
    RankingMembers(below);
    assert Elems(r[n + 1..]) == Elems(Ranking(below)) by {
      forall x
        ensures x in r[n + 1..] <==> x in below
      {
        AfterInDescending(r, n, x);
      }
    }
    assert Descending(r[n + 1..]);
    DescendingIsUnique(r[n + 1..], Ranking(below));
  }

  /* ---------- the best L of a set ---------- */

  // t is the best l of e: all of e when there are no more than that.
  ghost predicate IsTop(t: set<Cand>, l: nat, e: set<Cand>) {
    && t <= e && |t| <= l && (|t| == l || t == e)
    && forall x, y :: x in t && y in e - t ==> Better(x, y)
  }

  lemma TopIsWithin(t: set<Cand>, l: nat, e: set<Cand>)
    requires IsTop(t, l, e)
    ensures t <= e && |t| <= |e| && |t| <= l && (t == {} ==> l == 0 || e == {})
  {
    Sets.SubsetSize(t, e);
  }

  lemma BestIsInTop(t: set<Cand>, l: nat, e: set<Cand>)
    requires IsTop(t, l, e) && t != {}
    ensures e != {} && BestOf(e) in t && IsTop(t - {BestOf(e)}, l - 1, e - {BestOf(e)})
  {
    var m := BestOf(e);
    var x :| x in t;
    assert m !in t ==> Better(x, m) && x != m;
  }

  lemma NoHeadOfRanking(e: set<Cand>, l: nat)
    requires e == {} || l == 0
    ensures Take(Ranking(e), l) == []
  {
  }

  lemma HeadOfRanking(e: set<Cand>, l: nat)
    requires e != {} && l > 0
    ensures var m := BestOf(e); Take(Ranking(e), l) == [m] + Take(Ranking(e - {m}), l - 1)
  {
    hide IsBest;
    assert Ranking(e) == [BestOf(e)] + Ranking(e - {BestOf(e)});
    hide Ranking;
    HeadOfMore(BestOf(e), Ranking(e - {BestOf(e)}), l);
  }

  lemma HeadOfMore<T>(x: T, s: seq<T>, n: nat)
    requires n > 0
    ensures Take([x] + s, n) == [x] + Take(s, n - 1)
  {
  }

  // IsTop determines its set: it is the head of the ranking.
  lemma {:induction false} TopIsHeadOfRanking(t: set<Cand>, l: nat, e: set<Cand>)
    requires IsTop(t, l, e)
    ensures multiset(Take(Ranking(e), l)) == multiset(t)
    decreases l
  {
    hide IsTop, Take, Ranking;
    TopIsWithin(t, l, e);
    if t == {} {
      NoHeadOfRanking(e, l);
    } else {
      var m := BestOf(e);
      BestIsInTop(t, l, e);
      TopIsHeadOfRanking(t - {m}, l - 1, e - {m});
      HeadOfRanking(e, l);
      assert multiset(t) == multiset{m} + multiset(t - {m});
    }
  }

  // Candidates that beat nothing a full set holds change nothing.
  lemma TopSkips(t: set<Cand>, l: nat, e: set<Cand>, more: set<Cand>)
    requires IsTop(t, l, e) && (|t| == l || more == {})
    requires forall x, y :: x in t && y in more - t ==> Better(x, y)
    ensures IsTop(t, l, e + more)
  {
    assert more == {} ==> e + more == e;
  }

  lemma TopGrows(t: set<Cand>, l: nat, e: set<Cand>, c: Cand)
    requires IsTop(t, l, e) && |t| < l && c !in e
    ensures IsTop(t + {c}, l, e + {c})
  {
  }

  // A better candidate takes the place of the worst one held.
  lemma TopReplaces(t: set<Cand>, l: nat, e: set<Cand>, worst: Cand, c: Cand)
    requires IsTop(t, l, e) && |t| == l && c !in e
    requires worst in t && (forall x :: x in t && x != worst ==> Better(x, worst))
    requires Better(c, worst)
    ensures IsTop(t - {worst} + {c}, l, e + {c})
  {
    var t' := t - {worst} + {c};
    forall x, y | x in t' && y in e + {c} - t'
      ensures Better(x, y)
    {
      assert y == worst || Better(worst, y);
      assert x == c || Better(x, worst);
    }
  }

  /* ---------- qsort() with the ranking's comparison ---------- */

  function CandCmp(x: Cand, y: Cand): int {
    if Better(x, y) then -1 else if Better(y, x) then 1 else 0
  }

  ghost predicate SortedByCmp(s: seq<Cand>) {
    forall i, j :: 0 <= i < j < |s| ==> CandCmp(s[i], s[j]) <= 0
  }

  lemma TwiceIsTwice<T>(s: seq<T>, i: nat, j: nat)
    requires i < j < |s| && s[i] == s[j]
    ensures multiset(s)[s[i]] >= 2
  {
    assert s == s[..j] + [s[j]] + s[j + 1..];
    assert s[..j][i] == s[i];
    assert s[i] in multiset(s[..j]);
  }

  // A sequence of a set's elements, each once.
  lemma Distinct(s: seq<Cand>, e: set<Cand>)
    requires multiset(s) == multiset(e)
    ensures Elems(s) == e && |s| == |e|
    ensures forall i, j :: 0 <= i < j < |s| ==> s[i] != s[j]
  {
    forall x
      ensures x in s <==> x in e
    {
      assert x in s <==> x in multiset(s);
    }
    assert |multiset(s)| == |s|;
    forall i, j | 0 <= i < j < |s|
      ensures s[i] != s[j]
    {
      if s[i] == s[j] {
        TwiceIsTwice(s, i, j);
        assert false;
      }
    }
  }

  // The best l of a set in order, however they lay, are the ranking's head.
  lemma SortGivesRanking(s: seq<Cand>, l: nat, e: set<Cand>)
    requires multiset(s) == multiset(Take(Ranking(e), l)) && SortedByCmp(s)
    ensures s == Take(Ranking(e), l)
  {
    var head := Take(Ranking(e), l);
    RankingDescends(e);
    DescendingIsSet(head);
    Distinct(head, Elems(head));
    Distinct(s, Elems(head));
    DescendingIsUnique(s, head);
  }

  lemma {:induction false} DescendingIsSet(s: seq<Cand>)
    requires Descending(s)
    ensures multiset(s) == multiset(Elems(s))
  {
    if s != [] {
      TailElems(s);
      DescendingIsSet(s[1..]);
      assert s == [s[0]] + s[1..] && s[0] in s;
    }
  }
}
