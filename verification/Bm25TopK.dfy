/**
  A walk of a query's lexemes for the best L rows (MaxScore): the postings
  merged in code order, the lexemes that together cannot lift a row past the
  heap's worst only looked up for the rows the others bring.
*/
module Bm25TopK {
  import opened Options
  import opened Bm25Rank
  import opened Bm25Score
  import Heap = Bm25Heap

  /* ---------- the cursors of a walk ---------- */

  // Where the walk's cursors stand, once every row below f is decided:
  // an essential lexeme's on its first member at or past f, another's not
  // past one.
  ghost predicate CursorsAt(q: Search, at: seq<nat>, nlow: nat, f: nat)
  {
    && |at| == |q.order| && nlow <= |q.order|
    && (forall t :: 0 <= t < nlow ==> Behind(ListOf(q, t), at[t], f))
    && (forall t :: nlow <= t < |q.order| ==> at[t] == Seek(ListOf(q, t), 0, f))
  }

  ghost predicate MaximaOf(q: Search, below: seq<real>) {
    |below| == |q.order| + 1 && forall t :: 0 <= t <= |q.order| ==> below[t] == Below(q, t)
  }

  // The least code an essential cursor stands on, NO_CODE when none is left.
  method NextCode(q: Search, at: seq<nat>, nlow: nat, ghost f: nat) returns (code: nat)
    requires CursorsAt(q, at, nlow, f) && f <= NO_CODE
    ensures f <= code <= NO_CODE
    ensures code < NO_CODE ==> exists t :: nlow <= t < |q.order| && Has(ListOf(q, t), code)
    ensures forall t, c :: nlow <= t < |q.order| && f <= c < code ==> !Has(ListOf(q, t), c)
  {
    code := NO_CODE;
    for t := nlow to |q.order|
      invariant f <= code <= NO_CODE
      invariant code < NO_CODE ==> exists u :: nlow <= u < t && Has(ListOf(q, u), code)
      invariant forall u, c :: nlow <= u < t && f <= c < code ==> !Has(ListOf(q, u), c)
    {
      var list := ListOf(q, t);
      assert forall c :: f <= c && Has(list, c) ==> at[t] < |list| && list[at[t]].code <= c;
      if at[t] < |list| && list[at[t]].code < code {
        code := list[at[t]].code;
        assert Has(list, code);
      }
    }
  }

  // Rows between f and code that no essential lexeme has move no cursor.
  lemma CursorsReach(q: Search, at: seq<nat>, nlow: nat, f: nat, code: nat)
    requires CursorsAt(q, at, nlow, f) && f <= code
    requires forall t, c :: nlow <= t < |q.order| && f <= c < code ==> !Has(ListOf(q, t), c)
    ensures CursorsAt(q, at, nlow, code)
  {
    forall t | nlow <= t < |q.order|
      ensures at[t] == Seek(ListOf(q, t), 0, code)
    {
      var list := ListOf(q, t);
      assert at[t] < |list| ==> Has(list, list[at[t]].code);
      SeekFromBehind(list, at[t], f, code);
    }
  }

  lemma NothingToScore(q: Search, code: nat)
    ensures ScoreFrom(q, |q.order|, code) == 0.0
  {
  }

  // The essential lexemes of a candidate added up, their cursors moved past it.
  method ScoreEssential(q: Search, at0: seq<nat>, nlow: nat, code: nat, norm: real)
    returns (score: real, at: seq<nat>)
    requires CursorsAt(q, at0, nlow, code) && norm == RowNorm(q, code)
    ensures score == ScoreFrom(q, nlow, code)
    ensures CursorsAt(q, at, nlow, code + 1)
    ensures forall t :: 0 <= t < nlow ==> at[t] == at0[t]
  {
    hide ScoreFrom, RowNorm, Seek;
    score, at := 0.0, at0;
    var t := |q.order|;
    NothingToScore(q, code);
    while t > nlow
      invariant nlow <= t <= |q.order| && |at| == |q.order|
      invariant score == ScoreFrom(q, t, code)
      invariant forall u :: 0 <= u < t ==> at[u] == at0[u]
      invariant forall u :: t <= u < |q.order| ==> at[u] == Seek(ListOf(q, u), 0, code + 1)
    {
      t := t - 1;
      var add, go := EssentialTerm(q, t, at[t], code, norm);
      score := Added(q, score, add);
      at := at[t := go];
    }
  }

  // One essential lexeme: what it adds to the row of code, and its cursor after.
  method EssentialTerm(q: Search, t: nat, at: nat, code: nat, norm: real) returns (add: Option<real>, go: nat)
    requires t < |q.order| && norm == RowNorm(q, code)
    requires at == Seek(ListOf(q, t), 0, code)
    ensures ScoreFrom(q, t, code) == Added(q, ScoreFrom(q, t + 1, code), add)
    ensures go == Seek(ListOf(q, t), 0, code + 1)
  {
    var list := ListOf(q, t);
    SeekFromBehind(list, at, code, code + 1);
    if at < |list| && list[at].code == code {
      add, go := Some(TermScore(q, t, list[at].count, norm)), Seek(list, at, code + 1);
    } else {
      add, go := None, at;
    }
  }

  // One non-essential lexeme, sought: what it adds, and its cursor after.
  method RestTerm(q: Search, t: nat, at: nat, code: nat, norm: real) returns (add: Option<real>, go: nat)
    requires t < |q.order| && norm == RowNorm(q, code) && Behind(ListOf(q, t), at, code)
    ensures ScoreFrom(q, t, code) == Added(q, ScoreFrom(q, t + 1, code), add)
    ensures Behind(ListOf(q, t), go, code + 1)
  {
    var list := ListOf(q, t);
    SeekFromBehind(list, at, code, code);
    go := if at < |list| && list[at].code < code then Seek(list, at, code) else at;
    assert go == Seek(list, 0, code);
    add := if go < |list| && list[go].code == code then Some(TermScore(q, t, list[go].count, norm)) else None;
  }

  // The other lexemes, from the one that can add most, while what is left of
  // them could lift the candidate past `worst`, the score of a full heap's root.
  method ScoreRest(q: Search, at0: seq<nat>, nlow: nat, below: seq<real>, code: nat, norm: real,
                   start: real, full: bool, worst: real)
    returns (score: real, at: seq<nat>, done: bool)
    requires CursorsAt(q, at0, nlow, code + 1) && norm == RowNorm(q, code)
    requires forall t :: 0 <= t < nlow ==> Behind(ListOf(q, t), at0[t], code)
    requires MaximaOf(q, below)
    requires start == ScoreFrom(q, nlow, code)
    ensures done ==> score == ScoreFrom(q, 0, code)
    ensures !done ==> full && (Exact(q) ==> ScoreFrom(q, 0, code) <= worst)
    ensures CursorsAt(q, at, nlow, code + 1)
  {
    hide ScoreFrom, RowNorm, Below;
    score, at := start, at0;
    var t := nlow;
    while t > 0
      invariant 0 <= t <= nlow && |at| == |q.order|
      invariant score == ScoreFrom(q, t, code)
      invariant forall u :: 0 <= u < t ==> at[u] == at0[u]
      invariant CursorsAt(q, at, nlow, code + 1)
    {
      // t counts the lexemes left, of which lexeme t - 1 is next
      if full && q.plus(score, below[t]) <= worst {
        if Exact(q) {
          ScoreIsBounded(q, t, code);
        }
        return score, at, false;
      }
      t := t - 1;
      var add, go := RestTerm(q, t, at[t], code, norm);
      score := Added(q, score, add);
      at := at[t := go];
    }
    done := true;
  }

  /* ---------- what the heap holds ---------- */

  // The candidates among the rows below f.
  ghost function Decided(q: Search, after: Option<Cand>, f: nat): set<Cand>
  {
    set c | c in Candidates(q, after) && c.code < f
  }

  // The heap's n candidates are the best l of those decided, which are `top`.
  ghost predicate Holds(q: Search, after: Option<Cand>, l: nat, f: nat, heap: seq<Cand>, top: set<Cand>)
  {
    && Heap.IsHeap(heap) && multiset(heap) == multiset(top)
    && IsTop(top, l, Decided(q, after, f))
  }

  // Lexemes 0 .. nlow - 1 are non-essential only while they cannot lift a row
  // past a full heap's worst.
  ghost predicate LowAreLow(q: Search, nlow: nat, l: nat, heap: seq<Cand>)
    requires nlow <= |q.order|
  {
    nlow > 0 ==> |heap| == l && l > 0 && Below(q, nlow) <= heap[0].score
  }

  lemma HeapRoot(heap: seq<Cand>, top: set<Cand>)
    requires Heap.IsHeap(heap) && multiset(heap) == multiset(top)
    ensures |heap| == |top|
    ensures heap != [] ==> heap[0] in top && forall x :: x in top ==> x == heap[0] || Better(x, heap[0])
  {
    Distinct(heap, top);
    forall x | x in top && heap != []
      ensures x == heap[0] || Better(x, heap[0])
    {
      assert x in Elems(heap);
      var i :| 0 <= i < |heap| && heap[i] == x;
      Heap.RootIsWorst(heap, i);
    }
    assert heap != [] ==> heap[0] in Elems(heap);
  }

  lemma InDecided(q: Search, after: Option<Cand>, f: nat, c: Cand)
    ensures c in Decided(q, after, f) <==>
            c.code < f && c == RowCand(q, c.code) && Ranks(q, after, c.code) &&
            exists u :: 0 <= u < |q.order| && Has(ListOf(q, u), c.code)
  {
    RowsFromHave(q, 0, c.code);
  }

  // Rows at or past f whose score is no higher than the root of a full heap
  // are ranked below all it holds.
  lemma CannotGetIn(q: Search, after: Option<Cand>, l: nat, f: nat, heap: seq<Cand>, top: set<Cand>, c: Cand)
    requires Holds(q, after, l, f, heap, top) && |heap| == l && l > 0
    requires c.code >= f && c.score <= heap[0].score
    ensures forall x :: x in top ==> Better(x, c)
  {
    HeapRoot(heap, top);
    forall x | x in top
      ensures Better(x, c)
    {
      InDecided(q, after, f, x);
    }
  }

  // The rows between f and `to` that no essential lexeme has stay out.
  lemma SkipRows(q: Search, after: Option<Cand>, l: nat, f: nat, to: nat, nlow: nat, heap: seq<Cand>, top: set<Cand>)
    requires Holds(q, after, l, f, heap, top) && f <= to
    requires nlow <= |q.order| && LowAreLow(q, nlow, l, heap) && Exact(q)
    requires forall t, c :: nlow <= t < |q.order| && f <= c < to ==> !Has(ListOf(q, t), c)
    ensures Holds(q, after, l, to, heap, top)
  {
    var e := Decided(q, after, f);
    var more := Decided(q, after, to) - e;
    HeapRoot(heap, top);
    forall y | y in more
      ensures nlow > 0 && forall x :: x in top ==> Better(x, y)
    {
      InDecided(q, after, to, y);
      InDecided(q, after, f, y);
      ScoreIsBounded(q, nlow, y.code);
      AbsentAddNothing(q, nlow, y.code);
      assert nlow > 0;
      CannotGetIn(q, after, l, f, heap, top, y);
    }
    TopSkips(top, l, e, more);
    assert e + more == Decided(q, after, to);
  }

  // Deciding one more row adds its candidate, or nothing.
  lemma DecideRow(q: Search, after: Option<Cand>, code: nat)
    requires exists u :: 0 <= u < |q.order| && Has(ListOf(q, u), code)
    ensures Decided(q, after, code + 1) ==
            Decided(q, after, code) + if Ranks(q, after, code) then {RowCand(q, code)} else {}
    ensures RowCand(q, code) !in Decided(q, after, code)
  {
    var was, now := Decided(q, after, code), Decided(q, after, code + 1);
    var row := if Ranks(q, after, code) then {RowCand(q, code)} else {};
    forall c
      ensures c in now <==> c in was || c in row
    {
      InDecided(q, after, code, c);
      InDecided(q, after, code + 1, c);
    }
  }

  /* ---------- the walk ---------- */

  // A candidate that gets in: into a heap with room, or over a full one's root.
  lemma HeapTakes(e: set<Cand>, l: nat, was: seq<Cand>, now: seq<Cand>, top: set<Cand>, c: Cand)
    returns (top': set<Cand>)
    requires l > 0 && IsTop(top, l, e) && c !in e
    requires Heap.IsHeap(was) && multiset(was) == multiset(top)
    requires |was| == l ==> c.score > was[0].score
    requires multiset(now) == (if |was| < l then multiset(was) else multiset(was) - multiset{was[0]}) + multiset{c}
    ensures multiset(now) == multiset(top') && IsTop(top', l, e + {c})
    ensures |was| == l ==> forall x :: x in top' ==> x.score >= was[0].score
  {
    HeapRoot(was, top);
    if |was| < l {
      TopGrows(top, l, e, c);
      top' := top + {c};
    } else {
      TopReplaces(top, l, e, was[0], c);
      top' := top - {was[0]} + {c};
    }
  }

  lemma GetsIn(q: Search, after: Option<Cand>, l: nat, code: nat, was: seq<Cand>, now: seq<Cand>,
               top: set<Cand>, c: Cand) returns (top': set<Cand>)
    requires l > 0 && Holds(q, after, l, code, was, top)
    requires Decided(q, after, code + 1) == Decided(q, after, code) + {c}
    requires c !in Decided(q, after, code)
    requires |was| == l ==> c.score > was[0].score
    requires Heap.IsHeap(now) && |now| > 0
    requires multiset(now) == (if |was| < l then multiset(was) else multiset(was) - multiset{was[0]}) + multiset{c}
    ensures Holds(q, after, l, code + 1, now, top')
    ensures |was| == l ==> now[0].score >= was[0].score
  {
    top' := HeapTakes(Decided(q, after, code), l, was, now, top, c);
    HeapRoot(now, top');
  }

  // A candidate that does not: not ranked below `after`, or not past the root.
  lemma StaysOut(q: Search, after: Option<Cand>, l: nat, code: nat, heap: seq<Cand>, top: set<Cand>)
    requires l > 0 && Holds(q, after, l, code, heap, top)
    requires exists u :: 0 <= u < |q.order| && Has(ListOf(q, u), code)
    requires Ranks(q, after, code) ==> |heap| == l && ScoreFrom(q, 0, code) <= heap[0].score
    ensures Holds(q, after, l, code + 1, heap, top)
  {
    DecideRow(q, after, code);
    HeapRoot(heap, top);
    if Ranks(q, after, code) {
      CannotGetIn(q, after, l, code, heap, top, RowCand(q, code));
      TopSkips(top, l, Decided(q, after, code), {RowCand(q, code)});
    } else {
      assert Decided(q, after, code + 1) == Decided(q, after, code);
    }
  }

  // One candidate offered to the heap, as the walk offers it.
  method Offer(q: Search, after: Option<Cand>, best: array<Cand>, nbest: nat, code: nat, score: real,
               done: bool, ghost top: set<Cand>)
    returns (n: nat, ghost top': set<Cand>)
    requires 0 < best.Length && nbest <= best.Length
    requires Holds(q, after, best.Length, code, best[..nbest], top)
    requires exists u :: 0 <= u < |q.order| && Has(ListOf(q, u), code)
    requires done ==> score == ScoreFrom(q, 0, code)
    requires !done ==> nbest == best.Length && ScoreFrom(q, 0, code) <= best[0].score
    modifies best
    ensures nbest <= n <= best.Length
    ensures Holds(q, after, best.Length, code + 1, best[..n], top')
    ensures nbest == best.Length ==> best[0].score >= old(best[0].score)
  {
    var c := Cand(code, score);
    n, top' := nbest, top;
    ghost var was := best[..nbest];
    if done && (nbest < best.Length || score > best[0].score) && (after.None? || Better(after.value, c)) {
      assert c == RowCand(q, code) && Ranks(q, after, code);
      DecideRow(q, after, code);
      n := Heap.Add(best, nbest, c);
      top' := GetsIn(q, after, best.Length, code, was, best[..n], top, c);
    } else {
      StaysOut(q, after, best.Length, code, was, top);
    }
  }

  lemma AllDecided(q: Search, after: Option<Cand>)
    ensures Decided(q, after, NO_CODE) == Candidates(q, after)
    ensures Decided(q, after, 0) == {}
  {
    forall c | c in Candidates(q, after)
      ensures c.code < NO_CODE
    {
      RowsFromHave(q, 0, c.code);
    }
  }

  // One row merged: its score, with what the walk leaves out of it.
  method ScoreRow(q: Search, at0: seq<nat>, lenAt0: nat, nlow: nat, below: seq<real>, code: nat,
                  full: bool, worst: real)
    returns (score: real, at: seq<nat>, lenAt: nat, done: bool)
    requires CursorsAt(q, at0, nlow, code) && Behind(q.lengths, lenAt0, code)
    requires MaximaOf(q, below)
    ensures done ==> score == ScoreFrom(q, 0, code)
    ensures !done ==> full && (Exact(q) ==> ScoreFrom(q, 0, code) <= worst)
    ensures CursorsAt(q, at, nlow, code + 1) && Behind(q.lengths, lenAt, code + 1)
  {
    SeekFromBehind(q.lengths, lenAt0, code, code);
    lenAt := Seek(q.lengths, lenAt0, code);
    var norm := Norm(q, if lenAt < |q.lengths| && q.lengths[lenAt].code == code
                        then q.lengths[lenAt].count as real else q.avgdl);
    score, at := ScoreEssential(q, at0, nlow, code, norm);
    score, at, done := ScoreRest(q, at, nlow, below, code, norm, score, full, worst);
  }

  method Maxima(q: Search) returns (below: seq<real>)
    ensures MaximaOf(q, below)
  {
    below := [0.0];
    for t := 0 to |q.order|
      invariant |below| == t + 1
      invariant forall u :: 0 <= u <= t ==> below[u] == Below(q, u)
    {
      below := below + [q.plus(below[t], UpperBound(q, t))];
    }
  }

  // More of the lexemes become non-essential, once the heap's worst is above
  // what they can add.
  method Lower(q: Search, at: seq<nat>, nlow0: nat, below: seq<real>, best: array<Cand>, nbest: nat, ghost f: nat)
    returns (nlow: nat)
    requires nbest <= best.Length && 0 < best.Length && nlow0 <= |q.order|
    requires CursorsAt(q, at, nlow0, f) && LowAreLow(q, nlow0, best.Length, best[..nbest])
    requires MaximaOf(q, below)
    ensures nlow0 <= nlow <= |q.order|
    ensures CursorsAt(q, at, nlow, f) && LowAreLow(q, nlow, best.Length, best[..nbest])
    ensures nbest == best.Length && nlow < |q.order| ==> Below(q, nlow + 1) > best[0].score
  {
    nlow := nlow0;
    while nbest == best.Length && nlow < |q.order| && below[nlow + 1] <= best[0].score
      invariant nlow0 <= nlow <= |q.order|
      invariant CursorsAt(q, at, nlow, f)
      invariant LowAreLow(q, nlow, best.Length, best[..nbest])
    {
      nlow := nlow + 1;
    }
  }

  // What a walk keeps between two rows: its cursors, the empty key's, the
  // number of non-essential lexemes and the candidates in the heap.
  datatype Walk = Walk(at: seq<nat>, lenAt: nat, nlow: nat, nbest: nat)

  // Every row below f is decided, and the heap holds the best of them.
  ghost predicate Walking(q: Search, after: Option<Cand>, w: Walk, f: nat, heap: seq<Cand>, top: set<Cand>)
  {
    && f <= NO_CODE && w.nbest <= |heap|
    && CursorsAt(q, w.at, w.nlow, f) && Behind(q.lengths, w.lenAt, f)
    && Holds(q, after, |heap|, f, heap[..w.nbest], top)
    && LowAreLow(q, w.nlow, |heap|, heap[..w.nbest])
  }

  // The next row the essential lexemes bring, the ones before it decided;
  // NO_CODE when they bring no more.
  method Advance(q: Search, after: Option<Cand>, heap: array<Cand>, w: Walk, ghost f: nat, ghost top: set<Cand>)
    returns (code: nat)
    requires 0 < heap.Length && Walking(q, after, w, f, heap[..], top) && Exact(q)
    ensures f <= code <= NO_CODE && Walking(q, after, w, code, heap[..], top)
    ensures code < NO_CODE ==> exists t :: 0 <= t < |q.order| && Has(ListOf(q, t), code)
  {
    code := NextCode(q, w.at, w.nlow, f);
    SkipRows(q, after, heap.Length, f, code, w.nlow, heap[..][..w.nbest], top);
    CursorsReach(q, w.at, w.nlow, f, code);
  }

  // One row merged, scored and offered to the heap.
  method Merge(q: Search, after: Option<Cand>, best: array<Cand>, below: seq<real>, w0: Walk, code: nat,
               ghost top0: set<Cand>)
    returns (w: Walk, ghost top: set<Cand>)
    requires 0 < best.Length && MaximaOf(q, below) && code < NO_CODE && Exact(q)
    requires Walking(q, after, w0, code, best[..], top0)
    requires exists t :: 0 <= t < |q.order| && Has(ListOf(q, t), code)
    modifies best
    ensures Walking(q, after, w, code + 1, best[..], top)
  {
    var nbest := w0.nbest;
    assert best[..][..nbest] == best[..nbest];
    var score, at, lenAt, done :=
      ScoreRow(q, w0.at, w0.lenAt, w0.nlow, below, code, nbest == best.Length,
               if nbest > 0 then best[0].score else 0.0);
    nbest, top := Offer(q, after, best, nbest, code, score, done, top0);
    var nlow := Lower(q, at, w0.nlow, below, best, nbest, code + 1);
    assert best[..][..nbest] == best[..nbest];
    w := Walk(at, lenAt, nlow, nbest);
  }

  // Row after row until the essential lexemes bring no more.
  method Run(q: Search, after: Option<Cand>, best: array<Cand>, below: seq<real>, w0: Walk)
    returns (w: Walk, ghost top: set<Cand>)
    requires 0 < best.Length && MaximaOf(q, below) && Walking(q, after, w0, 0, best[..], {}) && Exact(q)
    modifies best
    ensures Walking(q, after, w, NO_CODE, best[..], top)
  {
    hide Walking, MaximaOf;
    w, top := w0, {};
    var code := Advance(q, after, best, w, 0, top);
    while code < NO_CODE
      invariant code <= NO_CODE && Walking(q, after, w, code, best[..], top)
      invariant code < NO_CODE ==> exists t :: 0 <= t < |q.order| && Has(ListOf(q, t), code)
    {
      w, top := Merge(q, after, best, below, w, code, top);
      code := Advance(q, after, best, w, code + 1, top);
    }
  }

  lemma WalkStarts(q: Search, after: Option<Cand>, at: seq<nat>, heap: seq<Cand>)
    requires |at| == |q.order|
    requires forall t :: 0 <= t < |at| ==> at[t] == Seek(ListOf(q, t), 0, 0)
    ensures Walking(q, after, Walk(at, 0, 0, 0), 0, heap, {})
  {
    AllDecided(q, after);
  }

  lemma WalkEnds(q: Search, after: Option<Cand>, w: Walk, heap: seq<Cand>, top: set<Cand>)
    requires Walking(q, after, w, NO_CODE, heap, top)
    ensures multiset(heap[..w.nbest]) == multiset(Take(Ranking(Candidates(q, after)), |heap|))
  {
    AllDecided(q, after);
    TopIsHeadOfRanking(top, |heap|, Candidates(q, after));
  }

  // The best L rows into best[0 .. nbest - 1], L being best.Length.
  method TopK(q: Search, after: Option<Cand>, best: array<Cand>) returns (nbest: nat)
    requires 0 < best.Length && Exact(q)
    modifies best
    ensures nbest <= best.Length
    ensures multiset(best[..nbest]) == multiset(Take(Ranking(Candidates(q, after)), best.Length))
  {
    var at := seq(|q.order|, t requires 0 <= t < |q.order| => Seek(ListOf(q, t), 0, 0));
    var below := Maxima(q);
    WalkStarts(q, after, at, best[..]);
    var w, top := Run(q, after, best, below, Walk(at, 0, 0, 0));
    WalkEnds(q, after, w, best[..], top);
    nbest := w.nbest;
    assert best[..][..nbest] == best[..nbest];
  }
}
