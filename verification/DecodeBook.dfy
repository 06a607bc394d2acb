/**
  What a decoded walk has done with the rows met so far: tallied them, put them
  on the list for the heap, or found them invisible there.
*/
module DecodeBook {
  import opened Containers
  import opened DecodeQuery

  // A row for the heap to decide on, with its combination: the one that counts
  // it, when it is visible.
  datatype Listed = Listed(row: Row, code: nat)

  // What the heap has decided on already is on blocks below next.
  datatype Book = Book(tallied: set<Row>, dropped: set<Row>, list: seq<Listed>, next: nat)

  ghost predicate IsListed(b: Book, r: Row) { exists i :: 0 <= i < |b.list| && b.list[i].row == r }

  ghost predicate Met(b: Book, r: Row) { r in b.tallied || r in b.dropped || IsListed(b, r) }

  ghost predicate RowsRise(list: seq<Listed>) {
    forall i, j :: 0 <= i < j < |list| ==> Before(list[i].row, list[j].row.key, list[j].row.lo)
  }

  // Every row asked for before (key, lo) is in one place, and no other row.
  ghost predicate BookOk(q: Asked, b: Book, key: nat, lo: nat) {
    && (forall r :: Met(b, r) <==> Asks(q, r) && Before(r, key, lo))
    && b.tallied <= q.visible && b.dropped !! q.visible
    && (forall i :: 0 <= i < |b.list| ==> ListedOk(q, b, i))
    && RowsRise(b.list) && b.next <= key * BLOCKS + lo / OFFSETS
  }

  ghost predicate ListedOk(q: Asked, b: Book, i: nat)
    requires i < |b.list|
  {
    var x := b.list[i];
    && (x.row in q.visible ==> x.code == CodeOf(q, x.row)) && Asks(q, x.row)
    && x.row !in b.tallied && x.row !in b.dropped
    && b.next <= HeapBlock(x.row)
  }

  lemma AskedInRange(q: Asked, r: Row)
    requires Asks(q, r)
    ensures r.lo < RANGE
  {
    assert HasLabel(q, 0, r);
    var v :| 0 <= v < |q.cols[0]| && Has(q.cols[0][v], r);
    var i :| HoldsAt(q.cols[0][v], i, r);
  }

  lemma BlocksRise(r: Row, key: nat, lo: nat)
    requires Before(r, key, lo) && r.lo < RANGE
    ensures HeapBlock(r) <= key * BLOCKS + lo / OFFSETS
  {
  }

  // (key, lo) is no row asked for.
  lemma SkipRow(q: Asked, b: Book, key: nat, lo: nat)
    requires BookOk(q, b, key, lo) && !Asks(q, Row(key, lo))
    ensures BookOk(q, b, key, lo + 1)
  {
    forall r
      ensures Asks(q, r) && Before(r, key, lo + 1) <==> Asks(q, r) && Before(r, key, lo)
    {
      assert r.key == key && r.lo == lo ==> r == Row(key, lo);
    }
    hide Asks, ListedOk, Met;
  }

  // Nor is anything up to (key2, lo2).
  lemma SkipTo(q: Asked, b: Book, key: nat, lo: nat, key2: nat, lo2: nat)
    requires BookOk(q, b, key, lo) && key * BLOCKS + lo / OFFSETS <= key2 * BLOCKS + lo2 / OFFSETS
    requires forall r :: Asks(q, r) ==> (Before(r, key2, lo2) <==> Before(r, key, lo))
    ensures BookOk(q, b, key2, lo2)
  {
    forall r
      ensures Asks(q, r) && Before(r, key2, lo2) <==> Asks(q, r) && Before(r, key, lo)
    {
    }
    hide Asks, ListedOk, Met;
  }

  lemma NewRow(q: Asked, b: Book, key: nat, lo: nat)
    requires BookOk(q, b, key, lo) && Asks(q, Row(key, lo))
    ensures !Met(b, Row(key, lo))
    ensures forall r :: Asks(q, r) && Before(r, key, lo + 1) <==>
              r == Row(key, lo) || (Asks(q, r) && Before(r, key, lo))
  {
    forall r
      ensures Asks(q, r) && Before(r, key, lo + 1) <==> r == Row(key, lo) || (Asks(q, r) && Before(r, key, lo))
    {
      assert r.key == key && r.lo == lo ==> r == Row(key, lo);
    }
  }

  lemma TallyRow(q: Asked, b: Book, key: nat, lo: nat)
    requires BookOk(q, b, key, lo) && Asks(q, Row(key, lo)) && Row(key, lo) in q.visible
    ensures BookOk(q, b.(tallied := b.tallied + {Row(key, lo)}), key, lo + 1) && Row(key, lo) !in b.tallied
  {
    NewRow(q, b, key, lo);
    var b2 := b.(tallied := b.tallied + {Row(key, lo)});
    forall r
      ensures Met(b2, r) <==> Met(b, r) || r == Row(key, lo)
    {
      assert IsListed(b2, r) <==> IsListed(b, r);
    }
    forall i | 0 <= i < |b2.list|
      ensures ListedOk(q, b2, i)
    {
      assert ListedOk(q, b, i);
      assert IsListed(b, b.list[i].row);
    }
    hide Asks, ListedOk, Met, HeapBlock;
  }

  lemma ListRow(q: Asked, b: Book, key: nat, lo: nat, code: nat)
    requires BookOk(q, b, key, lo) && Asks(q, Row(key, lo))
    requires Row(key, lo) in q.visible ==> code == CodeOf(q, Row(key, lo))
    ensures BookOk(q, b.(list := b.list + [Listed(Row(key, lo), code)]), key, lo + 1)
  {
    NewRow(q, b, key, lo);
    var x := Listed(Row(key, lo), code);
    var b2 := b.(list := b.list + [x]);
    forall r
      ensures Met(b2, r) <==> Met(b, r) || r == Row(key, lo)
    {
      if IsListed(b, r) {
        var i :| 0 <= i < |b.list| && b.list[i].row == r;
        assert b2.list[i].row == r;
      }
      assert b2.list[|b.list|].row == Row(key, lo);
    }
    AskedInRange(q, Row(key, lo));
    forall i | 0 <= i < |b2.list|
      ensures ListedOk(q, b2, i)
    {
      if i < |b.list| {
        assert ListedOk(q, b, i);
      }
    }
    ListAscends(q, b, key, lo);
    hide Asks, ListedOk, Met, HeapBlock;
  }

  lemma ListAscends(q: Asked, b: Book, key: nat, lo: nat)
    requires BookOk(q, b, key, lo)
    ensures forall i :: 0 <= i < |b.list| ==> Before(b.list[i].row, key, lo)
  {
    forall i | 0 <= i < |b.list|
      ensures Before(b.list[i].row, key, lo)
    {
      assert IsListed(b, b.list[i].row);
      assert Met(b, b.list[i].row);
    }
  }

  // The first of the list decided on by the heap.
  ghost function Decided(q: Asked, b: Book): Book
    requires b.list != []
  {
    var r := b.list[0].row;
    if r in q.visible then b.(tallied := b.tallied + {r}, list := b.list[1..])
    else b.(dropped := b.dropped + {r}, list := b.list[1..])
  }

  lemma DecideFirst(q: Asked, b: Book, key: nat, lo: nat)
    requires BookOk(q, b, key, lo) && b.list != []
    ensures BookOk(q, Decided(q, b), key, lo) && b.list[0].row !in b.tallied
    ensures Asks(q, b.list[0].row) && (b.list[0].row in q.visible ==> b.list[0].code == CodeOf(q, b.list[0].row))
  {
    var r, b2 := b.list[0].row, Decided(q, b);
    assert ListedOk(q, b, 0);
    forall x
      ensures Met(b2, x) <==> Met(b, x)
    {
      StillMet(q, b, x);
    }
    forall i | 0 <= i < |b2.list|
      ensures ListedOk(q, b2, i)
    {
      assert ListedOk(q, b, i + 1) && b2.list[i] == b.list[i + 1];
    }
    hide Asks, ListedOk, Met, HeapBlock, CodeOf;
  }

  lemma StillMet(q: Asked, b: Book, x: Row)
    requires b.list != []
    ensures Met(Decided(q, b), x) <==> Met(b, x)
  {
    var b2 := Decided(q, b);
    if IsListed(b, x) {
      var i :| 0 <= i < |b.list| && b.list[i].row == x;
      assert i > 0 ==> b2.list[i - 1].row == x;
    }
    if IsListed(b2, x) {
      var i :| 0 <= i < |b2.list| && b2.list[i].row == x;
      assert b.list[i + 1].row == x;
    }
    assert b.list[0].row == b.list[0].row;
  }

  // With nothing listed, what comes next may be any block not yet passed.
  lemma NextRises(q: Asked, b: Book, key: nat, lo: nat, next: nat)
    requires BookOk(q, b, key, lo) && b.list == [] && b.next <= next <= key * BLOCKS + lo / OFFSETS
    ensures BookOk(q, b.(next := next), key, lo)
  {
    var b2 := b.(next := next);
    forall r
      ensures Met(b2, r) <==> Met(b, r)
    {
    }
    hide Met, Asks;
  }

  // At the end nothing is listed, and the rows tallied are the answer.
  lemma BookEnds(q: Asked, b: Book, key: nat, lo: nat)
    requires BookOk(q, b, key, lo) && b.list == [] && forall r :: Asks(q, r) ==> Before(r, key, lo)
    ensures b.tallied == Answer(q)
  {
    forall r
      ensures r in b.tallied <==> r in q.visible && Asks(q, r)
    {
      assert Met(b, r) <==> Asks(q, r) && Before(r, key, lo);
      assert !IsListed(b, r);
    }
  }

  /* ---------- the list's budget ---------- */

  const BLOCK_ROWS: nat := OFFSETS    // a heap block has, at most

  // From start on the list is one block's rows; the rest left room for them.
  ghost predicate WithinBudget(list: seq<Listed>, start: nat, max: nat) {
    && max >= BLOCK_ROWS
    && (list != [] ==>
          && start < |list| && start + BLOCK_ROWS <= max
          && (forall i :: start <= i < |list| ==> HeapBlock(list[i].row) == HeapBlock(list[|list| - 1].row))
          && |list| - start <= list[|list| - 1].row.lo % OFFSETS + 1)
  }

  lemma BudgetHolds(list: seq<Listed>, start: nat, max: nat)
    requires WithinBudget(list, start, max)
    ensures |list| <= max
  {
  }

  // The list is rechecked before a row of another block when it might outgrow
  // its budget.
  predicate Overflows(list: seq<Listed>, max: nat, row: Row) {
    list != [] && |list| + BLOCK_ROWS > max && HeapBlock(list[|list| - 1].row) != HeapBlock(row)
  }

  // A row more, of the block the last one is on, or of another.
  lemma BudgetGrows(list: seq<Listed>, start: nat, max: nat, x: Listed)
    requires WithinBudget(list, start, max) && x.row.lo < RANGE
    requires list != [] ==> Before(list[|list| - 1].row, x.row.key, x.row.lo) && list[|list| - 1].row.lo < RANGE
    ensures list != [] && HeapBlock(list[|list| - 1].row) == HeapBlock(x.row) ==> WithinBudget(list + [x], start, max)
    ensures list == [] || |list| + BLOCK_ROWS <= max ==> WithinBudget(list + [x], |list|, max)
  {
  }

  /* ---------- the batches the heap is asked about ---------- */

  ghost predicate InBatch(batches: seq<seq<Listed>>, r: Row) {
    exists i, j :: 0 <= i < |batches| && 0 <= j < |batches[i]| && batches[i][j].row == r
  }

  // Each batch is within its budget, in row order, on blocks below next, and no
  // heap block's rows are in two.
  ghost predicate Unsplit(batches: seq<seq<Listed>>, next: nat, max: nat) {
    && (forall i :: 0 <= i < |batches| ==> 0 < |batches[i]| <= max && RowsRise(batches[i]))
    && (forall i, x :: 0 <= i < |batches| && x in batches[i] ==> HeapBlock(x.row) < next)
    && forall i, j, x, y :: 0 <= i < j < |batches| && x in batches[i] && y in batches[j] ==>
         HeapBlock(x.row) < HeapBlock(y.row)
  }

  // No batch was sent before another block's rows might not have fitted in it.
  ghost predicate Filled(batches: seq<seq<Listed>>, max: nat) {
    forall i :: 0 <= i < |batches| ==> |batches[i]| + BLOCK_ROWS > max
  }

  // The batches' rows are those decided on that the map does not decide; nor
  // does it decide a listed one.
  ghost predicate BatchesOk(q: Asked, b: Book, batches: seq<seq<Listed>>, max: nat) {
    && Unsplit(batches, b.next, max)
    && (forall r :: InBatch(batches, r) <==> (r in b.tallied || r in b.dropped) && !FromMap(q, r))
    && forall i :: 0 <= i < |b.list| ==> !FromMap(q, b.list[i].row)
  }

  lemma TallyFromMap(q: Asked, b: Book, batches: seq<seq<Listed>>, max: nat, r: Row)
    requires BatchesOk(q, b, batches, max) && FromMap(q, r)
    ensures BatchesOk(q, b.(tallied := b.tallied + {r}), batches, max)
  {
    hide FromMap, InBatch, Unsplit;
  }

  lemma ListForHeap(q: Asked, b: Book, batches: seq<seq<Listed>>, max: nat, x: Listed)
    requires BatchesOk(q, b, batches, max) && !FromMap(q, x.row)
    ensures BatchesOk(q, b.(list := b.list + [x]), batches, max)
  {
    hide FromMap, InBatch, Unsplit;
  }

  // The batches once the list is rechecked: an empty one is none.
  function Sent(batches: seq<seq<Listed>>, list: seq<Listed>): (more: seq<seq<Listed>>) {
    if list == [] then batches else batches + [list]
  }

  lemma InSent(batches: seq<seq<Listed>>, list: seq<Listed>, r: Row)
    ensures InBatch(Sent(batches, list), r) <==> InBatch(batches, r) || exists j :: 0 <= j < |list| && list[j].row == r
  {
    var more: seq<seq<Listed>> := Sent(batches, list);
    if InBatch(batches, r) {
      var i, j :| 0 <= i < |batches| && 0 <= j < |batches[i]| && batches[i][j].row == r;
      assert more[i][j].row == r;
    }
    if j :| 0 <= j < |list| && list[j].row == r {
      assert more[|batches|][j].row == r;
    }
  }

  lemma SentUnsplit(batches: seq<seq<Listed>>, list: seq<Listed>, was: nat, next: nat, max: nat)
    requires Unsplit(batches, was, max) && was <= next && |list| <= max && RowsRise(list)
    requires forall i :: 0 <= i < |list| ==> was <= HeapBlock(list[i].row) < next
    ensures Unsplit(Sent(batches, list), next, max)
  {
    hide RowsRise, HeapBlock;
  }

  // The list rechecked, b2 the book after it.
  lemma BatchSent(q: Asked, b: Book, b2: Book, batches: seq<seq<Listed>>, start: nat, max: nat, key: nat, lo: nat)
    requires BookOk(q, b, key, lo) && BookOk(q, b2, key, lo) && BatchesOk(q, b, batches, max)
    requires WithinBudget(b.list, start, max)
    requires b2.list == [] && b.next <= b2.next && forall i :: 0 <= i < |b.list| ==> HeapBlock(b.list[i].row) < b2.next
    ensures BatchesOk(q, b2, Sent(batches, b.list), max)
  {
    BudgetHolds(b.list, start, max);
    forall i | 0 <= i < |b.list|
      ensures b.next <= HeapBlock(b.list[i].row)
    {
      assert ListedOk(q, b, i);
    }
    SentUnsplit(batches, b.list, b.next, b2.next, max);
    forall r
      ensures InBatch(Sent(batches, b.list), r) <==> (r in b2.tallied || r in b2.dropped) && !FromMap(q, r)
    {
      InSent(batches, b.list, r);
      assert Met(b, r) <==> Met(b2, r);
    }
    hide Asks, ListedOk, FromMap, HeapBlock, InBatch, Unsplit;
  }

  lemma BatchesUnsplit(q: Asked, b: Book, batches: seq<seq<Listed>>, max: nat)
    requires BatchesOk(q, b, batches, max)
    ensures Unsplit(batches, b.next, max)
  {
  }

  // At the end the batches' rows are the rows asked for that the map does not
  // decide.
  lemma BatchesEnd(q: Asked, b: Book, batches: seq<seq<Listed>>, max: nat, key: nat, lo: nat)
    requires BookOk(q, b, key, lo) && b.list == [] && BatchesOk(q, b, batches, max)
    requires forall r :: Asks(q, r) ==> Before(r, key, lo)
    ensures forall r :: InBatch(batches, r) <==> Asks(q, r) && !FromMap(q, r)
  {
    forall r
      ensures InBatch(batches, r) <==> Asks(q, r) && !FromMap(q, r)
    {
      assert Met(b, r) <==> Asks(q, r) && Before(r, key, lo);
    }
    hide Asks, FromMap, InBatch, Unsplit;
  }
}
