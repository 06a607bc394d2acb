/**
  The score of one row from its own tsvector, lion_bm25_score(), against what
  a walk of the index gives the same row.
*/
module Bm25Row {
  import opened Options
  import opened Bm25Score

  const MAX_LENGTH: nat := 65535

  // A lexeme of a tsvector: whether it is empty, whether it keeps positions,
  // and how many.
  datatype Word = Word(empty: bool, haspos: bool, npos: nat)

  // A row's tsvector, and where in it each lexeme of a query is.
  datatype Doc = Doc(words: seq<Word>, found: seq<Option<nat>>)

  ghost predicate DocOf(q: Search, doc: Doc) {
    && |doc.found| == |q.lists|
    && forall l :: 0 <= l < |doc.found| && doc.found[l].Some? ==> doc.found[l].value < |doc.words|
  }

  // The occurrences of a word: a stripped one counts once.
  function Occurrences(w: Word): (n: nat)
    ensures n == w.npos || n == 1
    ensures n == 1 <==> !w.haspos || w.npos <= 1
  {
    if w.haspos then Max1(w.npos) else 1
  }

  // Every occurrence of every word but an empty one.
  function Length(words: seq<Word>): nat {
    if words == [] then 0 else
      var last := words[|words| - 1];
      Length(words[..|words| - 1]) + if last.empty then 0 else Occurrences(last)
  }

  // The occurrences, each by its word and its number there.
  ghost function Places(words: seq<Word>): set<(nat, nat)> {
    set i: nat, k: nat | i < |words| && !words[i].empty && k < Occurrences(words[i]) :: (i, k)
  }

  lemma {:induction false} LengthCountsPlaces(words: seq<Word>)
    ensures Length(words) == |Places(words)|
  {
    if words == [] {
      assert Places(words) == {};
    } else {
      LengthCountsPlaces(words[..|words| - 1]);
      LastPlaces(words);
    }
  }

  lemma LastPlaces(words: seq<Word>)
    requires words != []
    ensures var n := |words| - 1;
            |Places(words)| == |Places(words[..n])| + if words[n].empty then 0 else Occurrences(words[n])
  {
    var n := |words| - 1;
    var here := PlacesOf(n, if words[n].empty then 0 else Occurrences(words[n]));
    var before := words[..n];
    forall i: nat, k: nat
      ensures (i, k) in Places(words) <==> (i, k) in Places(before) || (i, k) in here
      ensures (i, k) in Places(before) ==> i < n
    {
      assert i < n ==> before[i] == words[i];
    }
    hide Places, PlacesOf, Occurrences;
    SamePairs(Places(words), Places(before) + here);
    assert Places(before) !! here;
  }

  lemma SamePairs(s: set<(nat, nat)>, t: set<(nat, nat)>)
    requires forall i: nat, k: nat :: (i, k) in s <==> (i, k) in t
    ensures s == t
  {
    forall p
      ensures p in s <==> p in t
    {
      assert p == (p.0, p.1);
    }
  }

  ghost function PlacesOf(i: nat, n: nat): (s: set<(nat, nat)>)
    ensures |s| == n && forall p :: p in s <==> p.0 == i && p.1 < n
  {
    if n == 0 then {} else PlacesOf(i, n - 1) + {(i, n - 1)}
  }

  function Capped(n: nat): (c: nat)
    ensures c <= n && c <= MAX_LENGTH && (c == n || c == MAX_LENGTH)
  {
    if n <= MAX_LENGTH then n else MAX_LENGTH
  }

  // The index files doc under code: each lexeme it has with the positions it
  // keeps there, and its length under the empty key.
  ghost predicate Filed(q: Search, doc: Doc, code: nat)
    requires DocOf(q, doc)
  {
    && CountAt(q.lengths, code) == Some(Capped(Length(doc.words)))
    && forall l :: 0 <= l < |q.lists| ==>
         match doc.found[l]
         case None => CountAt(q.lists[l], code) == None
         case Some(i) =>
           var count := CountAt(q.lists[l], code);
           count.Some? && count.value == if doc.words[i].haspos then doc.words[i].npos else 0
  }

  method RowLength(words: seq<Word>) returns (dl: nat)
    ensures dl == Length(words)
  {
    dl := 0;
    for i := 0 to |words|
      invariant dl == Length(words[..i])
    {
      assert words[..i + 1][..i] == words[..i];
      if !words[i].empty {
        dl := dl + Occurrences(words[i]);
      }
    }
    assert words[..|words|] == words;
  }

  // The same terms in the same order as the walk's: the same score, however two
  // scores are added.
  method ScoreRow(q: Search, doc: Doc, ghost code: nat) returns (score: real)
    requires DocOf(q, doc) && Filed(q, doc, code)
    ensures score == ScoreFrom(q, 0, code)
  {
    var dl := RowLength(doc.words);
    var norm := Norm(q, Capped(dl) as real);
    NormIsNonNegative(q, Capped(dl) as real);
    assert norm == RowNorm(q, code);
    score := 0.0;
    var t := |q.order|;
    while t > 0
      invariant 0 <= t <= |q.order| && score == ScoreFrom(q, t, code)
    {
      hide RowNorm, Norm, Length;
      t := t - 1;
      var e := doc.found[q.order[t]];
      if e.Some? {
        score := q.plus(score, TermScore(q, t, Occurrences(doc.words[e.value]), norm));
        TermScoreOfMax1(q, t, doc.words[e.value], norm);
      }
    }
  }

  lemma TermScoreOfMax1(q: Search, t: nat, w: Word, norm: real)
    requires t < |q.order| && norm >= 0.0
    ensures TermScore(q, t, Occurrences(w), norm) == TermScore(q, t, if w.haspos then w.npos else 0, norm)
  {
  }
}
