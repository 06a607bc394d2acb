/**
  What a decoded count counts: the visible rows of each combination of the
  columns' values that a WHERE keeps.
*/
module DecodeQuery {
  import opened Options
  import opened Containers
  import opened Tally

  // A heap row: its container key, and its place there.
  datatype Row = Row(key: nat, lo: nat)

  function HeapBlock(r: Row): nat { r.key * BLOCKS + BlockOf(r.lo) }

  // A value's posting set: its containers, by key.
  type Posting = seq<Container>

  ghost predicate PostingOk(p: Posting) {
    && (forall i :: 0 <= i < |p| ==> WellFormed(p[i]))
    && forall i, j :: 0 <= i < j < |p| ==> p[i].ckey < p[j].ckey
  }

  ghost predicate HoldsAt(p: Posting, i: int, r: Row) {
    0 <= i < |p| && p[i].ckey == r.key && r.lo in Members(p[i].rep)
  }

  ghost predicate Has(p: Posting, r: Row) { exists i :: HoldsAt(p, i, r) }

  // cols[c][v] is the posting set of value v of column c; trust the values of
  // column 0 whose sets are pinned; keep the WHERE's rows, when there is one;
  // shown the heap blocks the map shows all-visible, and visible the rows the
  // heap shows.
  datatype Query = Query(cols: seq<seq<Posting>>, trust: seq<bool>, keep: Option<Posting>,
                         shown: set<nat>, visible: set<Row>)

  // None of these rows is in two values' sets: an index files a heap row under
  // one value at a time. Rows no snapshot sees any more may be in several.
  ghost predicate Disjoint(sets: seq<Posting>, rows: set<Row>) {
    forall v, w, r :: r in rows && 0 <= v < |sets| && 0 <= w < |sets| && Has(sets[v], r) && Has(sets[w], r) ==> v == w
  }

  // Rows of a pinned set on a block shown all-visible are visible.
  ghost predicate MapIsSound(q: Query)
    requires |q.cols| > 0 && |q.trust| == |q.cols[0]|
  {
    forall v, r :: 0 <= v < |q.trust| && q.trust[v] && Has(q.cols[0][v], r) && HeapBlock(r) in q.shown ==>
      r in q.visible
  }

  // ... and a column with no value in the pass leaves nothing to count.
  ghost predicate QueryOk(q: Query) {
    Sound(q) && forall c :: 0 <= c < |q.cols| ==> |q.cols[c]| > 0
  }

  ghost predicate Sound(q: Query) {
    && |q.cols| > 0 && |q.trust| == |q.cols[0]|
    && (forall c :: 0 <= c < |q.cols| ==> Disjoint(q.cols[c], q.visible))
    && (forall c, v :: 0 <= c < |q.cols| && 0 <= v < |q.cols[c]| ==> PostingOk(q.cols[c][v]))
    && (q.keep.Some? ==> PostingOk(q.keep.value))
    && MapIsSound(q)
  }

  type Asked = q: Query | QueryOk(q) witness Query([[[]]], [false], None, {}, {})

  ghost predicate HasLabel(q: Asked, c: nat, r: Row)
    requires c < |q.cols|
  {
    exists v :: 0 <= v < |q.cols[c]| && Has(q.cols[c][v], r)
  }

  // The value of column c a row has: the only one, of a visible row.
  ghost function LabelOf(q: Asked, c: nat, r: Row): (v: nat)
    requires c < |q.cols|
    ensures HasLabel(q, c, r) ==> v < |q.cols[c]| && Has(q.cols[c][v], r)
  {
    if HasLabel(q, c, r) then
      var v :| 0 <= v < |q.cols[c]| && Has(q.cols[c][v], r);
      v
    else 0
  }

  lemma LabelIs(q: Asked, c: nat, v: nat, r: Row)
    requires c < |q.cols| && v < |q.cols[c]| && Has(q.cols[c][v], r)
    ensures HasLabel(q, c, r) && (r in q.visible ==> LabelOf(q, c, r) == v)
  {
    assert Disjoint(q.cols[c], q.visible);
  }

  ghost predicate Kept(q: Asked, r: Row) { q.keep.Some? ==> Has(q.keep.value, r) }

  // A row some combination counts, if it is visible.
  ghost predicate Asks(q: Asked, r: Row) {
    Kept(q, r) && forall c :: 0 <= c < |q.cols| ==> HasLabel(q, c, r)
  }

  function Radix(q: Asked): (radix: seq<nat>)
    ensures |radix| == |q.cols| && RadixOk(radix) && forall c :: 0 <= c < |radix| ==> radix[c] == |q.cols[c]|
  {
    seq(|q.cols|, c requires 0 <= c < |q.cols| => |q.cols[c]|)
  }

  ghost function Labels(q: Asked, r: Row): (vals: seq<nat>)
    ensures |vals| == |q.cols| && forall c :: 0 <= c < |vals| ==> vals[c] == LabelOf(q, c, r)
  {
    seq(|q.cols|, c requires 0 <= c < |q.cols| => LabelOf(q, c, r))
  }

  ghost function CodeOf(q: Asked, r: Row): nat { CodeTo(Labels(q, r), Radix(q), |q.cols|) }

  lemma CodeOfIsCell(q: Asked, r: Row)
    requires Asks(q, r)
    ensures ValuesOk(Labels(q, r), Radix(q)) && CodeOf(q, r) < Cells(Radix(q), |q.cols|)
  {
    CodeIsCell(Labels(q, r), Radix(q), |q.cols|);
  }

  // The rows of a set that a code counts.
  ghost function RowsOf(q: Asked, rows: set<Row>, code: nat): set<Row> { set r | r in rows && CodeOf(q, r) == code }

  // The answer: the visible rows asked for.
  ghost function Answer(q: Asked): set<Row> { set r | r in q.visible && Asks(q, r) }

  // The naive count: the visible rows in the intersection of the sets of a
  // combination of values, and the WHERE.
  ghost function Naive(q: Asked, vals: seq<nat>): set<Row>
    requires ValuesOk(vals, Radix(q))
  {
    set r | r in q.visible && Kept(q, r) && InAll(q, vals, r)
  }

  // A row of the set of each of the values.
  ghost predicate InAll(q: Asked, vals: seq<nat>, r: Row)
    requires ValuesOk(vals, Radix(q))
  {
    forall c :: 0 <= c < |q.cols| ==> Has(q.cols[c][vals[c]], r)
  }

  lemma AnswerIsNaive(q: Asked, vals: seq<nat>)
    requires ValuesOk(vals, Radix(q))
    ensures RowsOf(q, Answer(q), CodeTo(vals, Radix(q), |q.cols|)) == Naive(q, vals)
  {
    var code := CodeTo(vals, Radix(q), |q.cols|);
    forall r | r in q.visible
      ensures r in RowsOf(q, Answer(q), code) <==> Kept(q, r) && InAll(q, vals, r)
    {
      NamesRow(q, vals, r);
    }
  }

  lemma NamesRow(q: Asked, vals: seq<nat>, r: Row)
    requires ValuesOk(vals, Radix(q)) && r in q.visible
    ensures Asks(q, r) && CodeOf(q, r) == CodeTo(vals, Radix(q), |q.cols|) <==> Kept(q, r) && InAll(q, vals, r)
  {
    if Asks(q, r) && CodeOf(q, r) == CodeTo(vals, Radix(q), |q.cols|) {
      CodeOfIsCell(q, r);
      CodesDiffer(Labels(q, r), vals, Radix(q), |q.cols|);
    }
    if InAll(q, vals, r) {
      LabelsAre(q, vals, r);
    }
  }

  lemma LabelsAre(q: Asked, vals: seq<nat>, r: Row)
    requires ValuesOk(vals, Radix(q)) && InAll(q, vals, r)
    ensures forall c :: 0 <= c < |q.cols| ==> HasLabel(q, c, r)
    ensures r in q.visible ==> Labels(q, r) == vals
  {
    forall c | 0 <= c < |q.cols|
      ensures HasLabel(q, c, r) && (r in q.visible ==> LabelOf(q, c, r) == vals[c])
    {
      LabelIs(q, c, vals[c], r);
    }
  }

  // The map decides: the row is in a pinned set, on a block shown all-visible.
  ghost predicate FromMap(q: Asked, r: Row) {
    HeapBlock(r) in q.shown && exists v :: 0 <= v < |q.cols[0]| && q.trust[v] && Has(q.cols[0][v], r)
  }

  // One value of the row decides that, though it may have several.
  lemma MapDecides(q: Asked, v: nat, r: Row)
    requires v < |q.cols[0]| && Has(q.cols[0][v], r)
    ensures FromMap(q, r) <==> HeapBlock(r) in q.shown && q.trust[v]
    ensures FromMap(q, r) ==> r in q.visible
  {
    assert MapIsSound(q) && Disjoint(q.cols[0], q.visible);
  }

  // Rows in the order they are met.
  ghost predicate Before(r: Row, key: nat, lo: nat) { r.key < key || (r.key == key && r.lo < lo) }

  lemma OneRowMore(q: Asked, rows: set<Row>, r: Row, code: nat)
    requires r !in rows
    ensures |RowsOf(q, rows + {r}, code)| == |RowsOf(q, rows, code)| + if CodeOf(q, r) == code then 1 else 0
  {
    if CodeOf(q, r) == code {
      assert RowsOf(q, rows + {r}, code) == RowsOf(q, rows, code) + {r};
    } else {
      assert RowsOf(q, rows + {r}, code) == RowsOf(q, rows, code);
    }
  }
}
