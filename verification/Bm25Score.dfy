/**
  What a row's BM25 score is: the postings of a query's lexemes, read through
  forward cursors, and the sum of what each lexeme adds, in the order in which
  a walk adds it up. How two scores are added is the query's own `plus`, of
  which nothing is known: a sum in another order is another value.
*/
module Bm25Score {
  import opened Options
  import opened Bm25Rank

  // The end of the codes: no row has this one.
  const NO_CODE: nat := 0xFFFF_FFFF_FFFF_FFFF

  // A member of a key: a row's code, and how many positions it has there (of
  // the empty key, the length its one position holds).
  datatype Posting = Posting(code: nat, count: nat)

  ghost predicate Ascending(list: seq<Posting>) {
    && (forall i, j :: 0 <= i < j < |list| ==> list[i].code < list[j].code)
    && (forall i :: 0 <= i < |list| ==> list[i].code < NO_CODE)
  }

  // A query made ready to rank against one column: the postings of each of its
  // lexemes and of the empty key, each lexeme's idf, the order in which a score
  // adds the lexemes up (from its end), the parameters, the mean length, the
  // lexemes' rows, added up, and how scores are added.
  datatype SearchData = SearchData(lists: seq<seq<Posting>>, lengths: seq<Posting>, idfs: seq<real>, order: seq<nat>,
                                   k1: real, b: real, avgdl: real, ncodes: nat, plus: (real, real) -> real)

  // What lion_bm25_prepare() makes, of parameters lion_bm25() accepts.
  ghost predicate Ready(q: SearchData) {
    && |q.idfs| == |q.lists|
    && (forall t :: 0 <= t < |q.order| ==> q.order[t] < |q.lists|)
    && (forall l :: 0 <= l < |q.idfs| ==> q.idfs[l] >= 0.0)
    && q.k1 >= 0.0 && 0.0 <= q.b <= 1.0 && q.avgdl > 0.0
    && (forall l :: 0 <= l < |q.lists| ==> Ascending(q.lists[l]))
    && Ascending(q.lengths)
  }

  type Search = q: SearchData | Ready(q) witness SearchData([], [], [], [], 1.2, 0.75, 1.0, 0, (a, b) => a + b)

  // Scores are added without rounding, which the maxima of lexemes rest on.
  ghost predicate Exact(q: Search) { forall a, b :: q.plus(a, b) == a + b }

  /* ---------- cursors ---------- */

  // Where a cursor at `from` goes for the first member at or past code.
  function Seek(list: seq<Posting>, from: nat, code: nat): (i: nat)
    requires from <= |list|
    ensures from <= i <= |list|
    ensures forall j :: from <= j < i ==> list[j].code < code
    ensures i < |list| ==> list[i].code >= code
    decreases |list| - from
  {
    if from == |list| || list[from].code >= code then from else Seek(list, from + 1, code)
  }

  // A cursor's members all lie below f up to where it stands.
  ghost predicate Behind(list: seq<Posting>, at: nat, f: nat) {
    at <= |list| && forall j :: 0 <= j < at ==> list[j].code < f
  }

  // A cursor that has not passed f finds what one from the start would.
  lemma SeekFromBehind(list: seq<Posting>, at: nat, f: nat, code: nat)
    requires Ascending(list) && Behind(list, at, f) && f <= code
    ensures Seek(list, at, code) == Seek(list, 0, code)
  {
    var i, j := Seek(list, at, code), Seek(list, 0, code);
    assert j < |list| ==> list[j].code >= code;
    assert i < |list| ==> list[i].code >= code;
  }

  ghost predicate Has(list: seq<Posting>, code: nat) {
    exists i :: 0 <= i < |list| && list[i].code == code
  }

  lemma HasIffSought(list: seq<Posting>, code: nat)
    requires Ascending(list)
    ensures var i := Seek(list, 0, code);
            Has(list, code) <==> i < |list| && list[i].code == code
  {
    var i := Seek(list, 0, code);
    if Has(list, code) {
      var k :| 0 <= k < |list| && list[k].code == code;
      assert k >= i;
      assert i < |list| && list[i].code >= code;
    }
  }

  /* ---------- scores ---------- */

  function CountAt(list: seq<Posting>, code: nat): Option<nat> {
    var i := Seek(list, 0, code);
    if i < |list| && list[i].code == code then Some(list[i].count) else None
  }

  function Norm(q: Search, dl: real): real
  {
    q.k1 / (q.k1 + 1.0) * (1.0 - q.b + q.b * dl / q.avgdl)
  }

  function TfScore(idf: real, tf: real, k1: real, norm: real): real
    requires k1 >= 0.0 && tf / (k1 + 1.0) + norm != 0.0
  {
    idf * tf / (tf / (k1 + 1.0) + norm)
  }

  lemma NormIsNonNegative(q: Search, dl: real)
    requires dl >= 0.0
    ensures Norm(q, dl) >= 0.0
  {
    assert q.b * dl / q.avgdl >= 0.0;
    assert q.k1 / (q.k1 + 1.0) >= 0.0;
    ProductIsNonNegative(q.k1 / (q.k1 + 1.0), 1.0 - q.b + q.b * dl / q.avgdl);
  }

  lemma ProductIsNonNegative(a: real, b: real)
    requires a >= 0.0 && b >= 0.0
    ensures a * b >= 0.0
  {
  }

  /* ---------- the score of the textbook ---------- */

  // BM25: what tf occurrences of a lexeme add to a row of length dl.
  function Textbook(idf: real, tf: real, k1: real, b: real, dl: real, avgdl: real): real
    requires tf >= 1.0 && k1 >= 0.0 && 0.0 <= b <= 1.0 && dl >= 0.0 && avgdl > 0.0
  {
    LengthFactorIsNonNegative(b, dl, avgdl);
    ProductIsNonNegative(k1, 1.0 - b + b * dl / avgdl);
    idf * tf * (k1 + 1.0) / (tf + k1 * (1.0 - b + b * dl / avgdl))
  }

  lemma LengthFactorIsNonNegative(b: real, dl: real, avgdl: real)
    requires 0.0 <= b <= 1.0 && dl >= 0.0 && avgdl > 0.0
    ensures 1.0 - b + b * dl / avgdl >= 0.0
  {
    assert b * dl / avgdl >= 0.0;
  }

  // The quotient the code computes, its top and bottom divided by k1 + 1.
  lemma ScoreIsTextbook(q: Search, idf: real, tf: real, dl: real)
    requires tf >= 1.0 && dl >= 0.0
    ensures tf / (q.k1 + 1.0) + Norm(q, dl) > 0.0
    ensures TfScore(idf, tf, q.k1, Norm(q, dl)) == Textbook(idf, tf, q.k1, q.b, dl, q.avgdl)
  {
    LengthFactorIsNonNegative(q.b, dl, q.avgdl);
    QuotientIsTextbook(idf, tf, q.k1, 1.0 - q.b + q.b * dl / q.avgdl);
  }

  lemma QuotientIsTextbook(idf: real, tf: real, k1: real, f: real)
    requires tf >= 1.0 && k1 >= 0.0 && f >= 0.0
    ensures tf / (k1 + 1.0) + k1 / (k1 + 1.0) * f > 0.0 && tf + k1 * f > 0.0
    ensures idf * tf / (tf / (k1 + 1.0) + k1 / (k1 + 1.0) * f) == idf * tf * (k1 + 1.0) / (tf + k1 * f)
  {
    ProductIsNonNegative(k1, f);
    SumOfQuotients(tf, k1, f, k1 + 1.0);
    QuotientOfQuotient(idf * tf, tf + k1 * f, k1 + 1.0);
  }

  lemma SumOfQuotients(a: real, b: real, f: real, c: real)
    requires c > 0.0
    ensures a / c + b / c * f == (a + b * f) / c
  {
    assert b / c * f == b * f / c;
  }

  lemma QuotientOfQuotient(a: real, d: real, c: real)
    requires c > 0.0 && d > 0.0
    ensures d / c > 0.0 && a / (d / c) == a * c / d
  {
    assert d / c * c == d;
    assert a * c / d * (d / c) == a;
  }

  // Without b the length of a row does not count; with all of it, the norm is
  // in proportion to the length.
  lemma NormAtTheEnds(q: Search, dl: real, dl2: real)
    requires dl >= 0.0 && dl2 >= 0.0
    ensures q.b == 0.0 ==> Norm(q, dl) == Norm(q, dl2)
    ensures q.b == 1.0 ==> Norm(q, dl) * dl2 == Norm(q, dl2) * dl
    ensures Norm(q, q.avgdl) * (q.k1 + 1.0) == q.k1
  {
    var w := q.k1 / (q.k1 + 1.0);
    assert q.b * q.avgdl / q.avgdl == q.b;
    if q.b == 1.0 {
      assert Norm(q, dl) * dl2 == w * (dl / q.avgdl) * dl2 && Norm(q, dl2) * dl == w * (dl2 / q.avgdl) * dl;
    }
  }

  // A longer row never scores higher, nor one with fewer occurrences.
  lemma LongerScoresNoHigher(q: Search, idf: real, tf: real, tf2: real, dl: real, dl2: real)
    requires idf >= 0.0 && tf >= tf2 >= 1.0 && 0.0 <= dl <= dl2
    ensures tf / (q.k1 + 1.0) + Norm(q, dl) > 0.0 && tf2 / (q.k1 + 1.0) + Norm(q, dl2) > 0.0
    ensures TfScore(idf, tf2, q.k1, Norm(q, dl2)) <= TfScore(idf, tf, q.k1, Norm(q, dl))
  {
    NormIsNonNegative(q, dl);
    NormRises(q, dl, dl2);
    QuotientIsPositive(tf, q.k1, Norm(q, dl));
    QuotientIsPositive(tf2, q.k1, Norm(q, dl2));
    MoreOverLess(idf, tf, tf2, q.k1 + 1.0, Norm(q, dl), Norm(q, dl2));
  }

  lemma NormRises(q: Search, dl: real, dl2: real)
    requires 0.0 <= dl <= dl2
    ensures Norm(q, dl) <= Norm(q, dl2)
  {
    var w, a, b := q.k1 / (q.k1 + 1.0), q.b * dl / q.avgdl, q.b * dl2 / q.avgdl;
    assert q.b * dl <= q.b * dl2;
    assert a <= b;
    assert w >= 0.0;
    ProductIsNonNegative(w, b - a);
  }

  lemma MoreOverLess(idf: real, tf: real, tf2: real, c: real, n: real, n2: real)
    requires idf >= 0.0 && tf >= tf2 >= 1.0 && c > 0.0 && 0.0 <= n <= n2
    ensures tf / c + n > 0.0 && tf2 / c + n2 > 0.0
    ensures idf * tf2 / (tf2 / c + n2) <= idf * tf / (tf / c + n)
  {
    var d, d2 := tf / c + n, tf2 / c + n2;
    assert tf / c > 0.0 && tf2 / c > 0.0;
    assert tf * (tf2 / c) == tf2 * (tf / c);
    ProductRises(tf2, tf, n, n2);
    assert tf2 * d <= tf * d2;
    CrossMultiplied(idf, tf2, d2, tf, d);
  }

  lemma ProductRises(a: real, b: real, x: real, y: real)
    requires 0.0 <= a <= b && 0.0 <= x <= y
    ensures a * x <= b * y
  {
    assert a * x <= a * y;
    assert a * y <= b * y;
  }

  lemma CrossMultiplied(f: real, a: real, b: real, c: real, d: real)
    requires f >= 0.0 && b > 0.0 && d > 0.0 && a * d <= c * b
    ensures f * a / b <= f * c / d
  {
    assert f * (a * d) <= f * (c * b);
    var x, y := f * a / b, f * c / d;
    assert x * b == f * a && y * d == f * c;
    assert x * b * d <= y * d * b;
    assert (y - x) * (b * d) >= 0.0;
  }

  // The most a lexeme adds, nudged up as the walk does.
  function UpperBound(q: Search, t: nat): real
    requires t < |q.order|
  {
    q.idfs[q.order[t]] * (q.k1 + 1.0) * (1.0 + 0.000000001)
  }

  lemma QuotientIsPositive(tf: real, k1: real, norm: real)
    requires tf >= 1.0 && k1 >= 0.0 && norm >= 0.0
    ensures tf / (k1 + 1.0) + norm > 0.0
  {
    assert tf / (k1 + 1.0) > 0.0;
  }

  lemma QuotientIsBounded(a: real, d: real, most: real)
    requires d > 0.0 && 0.0 <= a <= most * d
    ensures 0.0 <= a / d <= most
  {
    assert a / d * d == a;
  }

  // A lexeme of idf idf adds at most idf * (k1 + 1) to any row.
  lemma TfScoreIsBounded(idf: real, tf: real, k1: real, norm: real)
    requires idf >= 0.0 && tf >= 1.0 && k1 >= 0.0 && norm >= 0.0
    ensures tf / (k1 + 1.0) + norm > 0.0
    ensures 0.0 <= TfScore(idf, tf, k1, norm) <= idf * (k1 + 1.0)
  {
    QuotientIsPositive(tf, k1, norm);
    var d := tf / (k1 + 1.0) + norm;
    assert d * (k1 + 1.0) >= tf by {
      assert d * (k1 + 1.0) == tf + norm * (k1 + 1.0);
    }
    assert idf * (k1 + 1.0) * d >= idf * tf by {
      assert idf * (k1 + 1.0) * d == idf * (d * (k1 + 1.0));
    }
    QuotientIsBounded(idf * tf, d, idf * (k1 + 1.0));
  }

  // A lexeme without positions counts once.
  function Max1(n: nat): (m: nat)
    ensures m >= 1 && m >= n && (m == 1 || m == n)
  {
    if n == 0 then 1 else n
  }

  // A row's norm: from its length, or the mean when the empty key has none.
  ghost function RowNorm(q: Search, code: nat): (n: real)
    ensures n >= 0.0
  {
    var dl := match CountAt(q.lengths, code) case Some(n) => n as real case None => q.avgdl;
    NormIsNonNegative(q, dl);
    Norm(q, dl)
  }

  function ListOf(q: Search, t: nat): seq<Posting>
    requires t < |q.order|
  {
    q.lists[q.order[t]]
  }

  // What n occurrences of lexeme t of the walk's order add to a row of this norm.
  function TermScore(q: Search, t: nat, n: nat, norm: real): (s: real)
    requires t < |q.order| && norm >= 0.0
    ensures 0.0 <= s <= UpperBound(q, t)
  {
    var idf := q.idfs[q.order[t]];
    TfScoreIsBounded(idf, Max1(n) as real, q.k1, norm);
    NudgeRaises(idf * (q.k1 + 1.0));
    TfScore(idf, Max1(n) as real, q.k1, norm)
  }

  // What lexeme t adds to a row that has it.
  ghost function Adds(q: Search, t: nat, code: nat): (r: Option<real>)
    requires t < |q.order|
    ensures r.Some? ==> 0.0 <= r.value <= UpperBound(q, t)
  {
    match CountAt(ListOf(q, t), code)
    case None => None
    case Some(n) =>
      Some(TermScore(q, t, n, RowNorm(q, code)))
  }

  // A row's length is what the empty key's posting says, or the mean.
  ghost predicate HasLength(q: Search, code: nat, dl: real) {
    && (forall j :: 0 <= j < |q.lengths| && q.lengths[j].code == code ==> dl == q.lengths[j].count as real)
    && (!Has(q.lengths, code) ==> dl == q.avgdl)
  }

  // A lexeme adds to exactly the rows it has a posting of, and that is the
  // textbook's score of the posting's occurrences in a row of its length.
  lemma LexemeAdds(q: Search, t: nat, code: nat, dl: real)
    requires t < |q.order| && HasLength(q, code, dl) && dl >= 0.0
    ensures Adds(q, t, code).Some? <==> Has(q.lists[q.order[t]], code)
    ensures forall p :: p in q.lists[q.order[t]] && p.code == code ==>
              Adds(q, t, code) == Some(Textbook(q.idfs[q.order[t]], (if p.count > 0 then p.count else 1) as real,
                                                q.k1, q.b, dl, q.avgdl))
  {
    var list, idf := q.lists[q.order[t]], q.idfs[q.order[t]];
    HasIffSought(list, code);
    HasIffSought(q.lengths, code);
    assert RowNorm(q, code) == Norm(q, dl);
    hide RowNorm, Norm, Textbook, TfScore;
    var i := Seek(list, 0, code);
    forall p | p in list && p.code == code
      ensures p == list[i]
    {
      var j :| 0 <= j < |list| && list[j] == p;
      assert i <= j;
    }
    if i < |list| && list[i].code == code {
      ScoreIsTextbook(q, idf, Max1(list[i].count) as real, dl);
    }
  }

  lemma NudgeRaises(x: real)
    requires x >= 0.0
    ensures x <= x * (1.0 + 0.000000001)
  {
  }

  // A score and what a lexeme adds: nothing, when the row has not got it.
  function Added(q: Search, score: real, more: Option<real>): real {
    match more
    case None => score
    case Some(x) => q.plus(score, x)
  }

  // The sum of what lexemes t, t + 1, ... of the order add, from the last down.
  ghost function ScoreFrom(q: Search, t: nat, code: nat): (s: real)
    requires t <= |q.order|
    decreases |q.order| - t
  {
    if t == |q.order| then 0.0 else Added(q, ScoreFrom(q, t + 1, code), Adds(q, t, code))
  }

  ghost function RowCand(q: Search, code: nat): Cand
  {
    Cand(code, ScoreFrom(q, 0, code))
  }

  // The maxima of the first t lexemes of the order, summed.
  ghost function Below(q: Search, t: nat): real
    requires t <= |q.order|
  {
    if t == 0 then 0.0 else q.plus(Below(q, t - 1), UpperBound(q, t - 1))
  }

  // Lexemes 0 .. t - 1 lift a row by no more than the sum of their maxima.
  lemma {:induction false} ScoreIsBounded(q: Search, t: nat, code: nat)
    requires t <= |q.order| && Exact(q)
    ensures ScoreFrom(q, 0, code) <= q.plus(ScoreFrom(q, t, code), Below(q, t))
    decreases t
  {
    if t > 0 {
      ScoreIsBounded(q, t - 1, code);
      assert Adds(q, t - 1, code).None? ==> UpperBound(q, t - 1) >= 0.0 by {
        UpperBoundIsNonNegative(q, t - 1);
      }
    }
  }

  lemma UpperBoundIsNonNegative(q: Search, t: nat)
    requires t < |q.order|
    ensures UpperBound(q, t) >= 0.0
  {
    assert q.idfs[q.order[t]] * (q.k1 + 1.0) >= 0.0;
  }

  // A row with none of lexemes t, t + 1, ... gets nothing from them.
  lemma {:induction false} AbsentAddNothing(q: Search, t: nat, code: nat)
    requires t <= |q.order|
    requires forall u :: t <= u < |q.order| ==> !Has(ListOf(q, u), code)
    ensures ScoreFrom(q, t, code) == 0.0
    decreases |q.order| - t
  {
    if t < |q.order| {
      HasIffSought(ListOf(q, t), code);
      AbsentAddNothing(q, t + 1, code);
    }
  }

  /* ---------- the rows that can rank ---------- */

  ghost function Codes(list: seq<Posting>): set<nat> { set p | p in list :: p.code }

  // The rows holding one of lexemes t, t + 1, ... of the order.
  ghost function RowsFrom(q: Search, t: nat): set<nat>
    requires t <= |q.order|
    decreases |q.order| - t
  {
    if t == |q.order| then {} else Codes(ListOf(q, t)) + RowsFrom(q, t + 1)
  }

  lemma {:induction false} RowsFromHave(q: Search, t: nat, code: nat)
    requires t <= |q.order|
    ensures code in RowsFrom(q, t) <==> exists u :: t <= u < |q.order| && Has(ListOf(q, u), code)
    decreases |q.order| - t
  {
    if t < |q.order| {
      RowsFromHave(q, t + 1, code);
      assert code in Codes(ListOf(q, t)) <==> Has(ListOf(q, t), code);
    }
  }

  // The candidates of a walk: the rows with a lexeme, ranked below `after`.
  ghost function Candidates(q: Search, after: Option<Cand>): set<Cand>
  {
    set code | code in RowsFrom(q, 0) && Ranks(q, after, code) :: RowCand(q, code)
  }

  ghost predicate Ranks(q: Search, after: Option<Cand>, code: nat)
  {
    after.None? || Better(after.value, RowCand(q, code))
  }
}
