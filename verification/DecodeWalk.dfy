/**
  The decoded walk: one pass over the container keys counts every combination
  of the columns' values.
*/
module DecodeWalk {
  import opened Options
  import opened Sets
  import opened Containers
  import opened Images
  import opened Extraction
  import opened Conversions
  import opened Tally
  import opened DecodeQuery
  import opened DecodeBook
  import opened DecodeKeys

  /* ---------- cursors of every column ---------- */

  // No row of this key is still to be counted, the walk having come to key.
  ghost predicate Skippable(q: Asked, key: nat, k: nat) {
    k < key || (q.keep.Some? && forall j :: 0 <= j < |q.keep.value| ==> q.keep.value[j].ckey != k)
  }

  ghost predicate CursorOk(q: Asked, p: Posting, at: nat, key: nat) {
    at <= |p| && forall i :: 0 <= i < at ==> Skippable(q, key, p[i].ckey)
  }

  // Every cursor has passed only what need not be counted, and column 0's
  // stand at or past key.
  ghost predicate Cursors(q: Asked, pos: seq<seq<nat>>, key: nat) {
    && |pos| == |q.cols| && (forall c :: 0 <= c < |pos| ==> |pos[c]| == |q.cols[c]|)
    && (forall c, v :: 0 <= c < |pos| && 0 <= v < |pos[c]| ==> CursorOk(q, q.cols[c][v], pos[c][v], key))
    && forall v :: 0 <= v < |pos[0]| && pos[0][v] < |q.cols[0][v]| ==> q.cols[0][v][pos[0][v]].ckey >= key
  }

  // The WHERE's containers before idx are below key.
  ghost predicate IndexOk(q: Asked, idx: nat, key: nat) {
    q.keep.Some? ==> idx <= |q.keep.value| && forall j :: 0 <= j < idx ==> q.keep.value[j].ckey < key
  }

  lemma SkippableOn(q: Asked, a: nat, b: nat, k: nat)
    requires Skippable(q, a, k) && a <= b
    ensures Skippable(q, b, k)
  {
  }

  // Column 0's rows from key on are at or past the smallest key it stands at.
  lemma AskedAtOrPast(q: Asked, pos: seq<seq<nat>>, key: nat, least: nat, r: Row)
    requires Cursors(q, pos, key) && Asks(q, r) && r.key >= key
    requires forall v :: 0 <= v < |pos[0]| && pos[0][v] < |q.cols[0][v]| ==> q.cols[0][v][pos[0][v]].ckey >= least
    ensures r.key >= least && exists v :: 0 <= v < |pos[0]| && pos[0][v] < |q.cols[0][v]|
  {
    assert HasLabel(q, 0, r);
    var v :| 0 <= v < |q.cols[0]| && Has(q.cols[0][v], r);
    var i :| HoldsAt(q.cols[0][v], i, r);
    KeptHasKey(q, r);
    assert CursorOk(q, q.cols[0][v], pos[0][v], key);
    assert i >= pos[0][v];
    assert pos[0][v] < i ==> q.cols[0][v][pos[0][v]].ckey < q.cols[0][v][i].ckey;
  }

  lemma KeptHasKey(q: Asked, r: Row)
    requires Asks(q, r)
    ensures q.keep.Some? ==> exists j :: 0 <= j < |q.keep.value| && q.keep.value[j].ckey == r.key
  {
    if q.keep.Some? {
      var j :| HoldsAt(q.keep.value, j, r);
    }
  }

  // A cursor that has passed no container of an unskippable key stands at it.
  lemma StandsWhereSought(q: Asked, p: Posting, at: nat, key: nat)
    requires CursorOk(q, p, at, key) && !Skippable(q, key, key)
    ensures NotPassed(p, at, key)
  {
  }

  lemma KeyIsWanted(q: Asked, idx: nat, key: nat)
    requires q.keep.Some? ==> idx < |q.keep.value| && q.keep.value[idx].ckey == key
    ensures !Skippable(q, key, key)
  {
  }

  /* ---------- the containers column 0 has left ---------- */

  ghost function LeftOf(sets: seq<Posting>, pos: seq<nat>, n: nat): int
    requires n <= |sets| && n <= |pos|
  {
    if n == 0 then 0 else LeftOf(sets, pos, n - 1) + |sets[n - 1]| - pos[n - 1]
  }

  lemma {:induction false} LeftFalls(sets: seq<Posting>, a: seq<nat>, b: seq<nat>, n: nat)
    requires n <= |sets| && n <= |a| && n <= |b| && forall v :: 0 <= v < n ==> a[v] <= b[v] <= |sets[v]|
    ensures 0 <= LeftOf(sets, b, n) <= LeftOf(sets, a, n)
    ensures (exists v :: 0 <= v < n && a[v] < b[v]) ==> LeftOf(sets, b, n) < LeftOf(sets, a, n)
  {
    if n > 0 {
      LeftFalls(sets, a, b, n - 1);
    }
  }

  /* ---------- the tally ---------- */

  // The values the arrays have of a row's place.
  function ValuesAt(stamps: seq<Stamps>, val0: seq<nat>, lo: nat): (vals: seq<nat>)
    requires lo < |val0| && forall d :: 0 <= d < |stamps| ==> lo < |stamps[d].val|
    ensures |vals| == |stamps| + 1 && vals[0] == val0[lo]
    ensures forall c :: 1 <= c < |vals| ==> vals[c] == stamps[c - 1].val[lo]
  {
    [val0[lo]] + seq(|stamps|, d requires 0 <= d < |stamps| => stamps[d].val[lo])
  }

  class Walk {
    const q: Asked
    const batchMax: nat
    const tally: Counts
    var pos: seq<seq<nat>>
    var idx: nat
    var cur: nat
    var stamps: seq<Stamps>       // of columns 1 on
    var val0: seq<nat>
    var list: seq<Listed>
    ghost var tallied: set<Row>
    ghost var dropped: set<Row>
    ghost var batches: seq<seq<Listed>>    // those the heap was asked about
    ghost var next: nat
    ghost var start: nat

    // A cursor for every value, at its set's first container.
    constructor (q: Asked, batchMax: nat, tally: Counts)
      requires batchMax >= BLOCK_ROWS && tally.Valid() && !tally.reading && tally.ncells == Cells(Radix(q), |q.cols|)
      requires forall x :: tally.Total(x) == 0
      ensures At(0, 0) && Ready(0) && this.q == q && this.tally == tally
    {
      this.q, this.batchMax, this.tally := q, batchMax, tally;
      pos := seq(|q.cols|, c requires 0 <= c < |q.cols| => seq(|q.cols[c]|, _ => 0));
      idx, cur := 0, 0;
      stamps := seq(|q.cols| - 1, _ => ZeroStamps());
      val0 := seq(RANGE, _ => 0);
      list, tallied, dropped, batches, next, start := [], {}, {}, [], 0, 0;
      new;
      NothingMet(q, batchMax);
      NothingTallied(q);
    }

    // The cursors, and the arrays of the last generation.
    ghost predicate Ready(key: nat)
      reads this
    {
      && Cursors(q, pos, key) && IndexOk(q, idx, key) && cur < GENERATIONS
      && |stamps| == |q.cols| - 1 && |val0| == RANGE && forall c :: 0 <= c < |stamps| ==> StampsOk(stamps[c], cur)
    }

    ghost function Now(): Book
      reads this`tallied, this`dropped, this`list, this`next
    {
      Book(tallied, dropped, list, next)
    }

    // The tally counts what was tallied.
    ghost predicate Accounts()
      reads this`tallied, tally
    {
      && tally.Valid() && !tally.reading && tally.ncells == Cells(Radix(q), |q.cols|)
      && forall x :: tally.Total(x) == |RowsOf(q, tallied, x)|
    }

    ghost predicate At(key: nat, lo: nat)
      reads this`tallied, this`dropped, this`list, this`batches, this`next, this`start, tally
    {
      Held(key, lo) && Filled(batches, batchMax)
    }

    // The same, but for the last batch, which may be any.
    ghost predicate Held(key: nat, lo: nat)
      reads this`tallied, this`dropped, this`list, this`batches, this`next, this`start, tally
    {
      && BookOk(q, Now(), key, lo) && Accounts() && WithinBudget(list, start, batchMax)
      && BatchesOk(q, Now(), batches, batchMax)
    }

    // A visible row, into the tally.
    method TallyOne(row: Row, code: nat)
      requires Accounts() && Asks(q, row) && code == CodeOf(q, row) && row in q.visible && row !in tallied
      modifies this`tallied, tally
      ensures Accounts() && tallied == old(tallied) + {row}
    {
      CodeOfIsCell(q, row);
      tally.Add(code, 1);
      forall x
        ensures |RowsOf(q, old(tallied) + {row}, x)| == |RowsOf(q, old(tallied), x)| + if x == code then 1 else 0
      {
        OneRowMore(q, old(tallied), row, x);
      }
      tallied := tallied + {row};
    }

    // The rows of the list the heap shows, into the tally; the list emptied.
    method FlushList(ghost key: nat, ghost lo: nat, ghost nb: nat)
      requires Held(key, lo) && next <= nb <= key * BLOCKS + lo / OFFSETS
      requires forall i :: 0 <= i < |list| ==> HeapBlock(list[i].row) < nb
      modifies this`list, this`tallied, this`dropped, this`batches, this`next, this`start, tally
      ensures Held(key, lo) && list == [] && next == nb && batches == Sent(old(batches), old(list))
    {
      hide Asks, CodeOf, HeapBlock, Met, ListedOk, BatchesOk;
      ghost var was := Now();
      for i := 0 to |list|
        invariant list == old(list) && next == old(next) && batches == old(batches) && start == old(start)
        invariant BookOk(q, Book(tallied, dropped, list[i..], next), key, lo) && Accounts()
      {
        ghost var b := Book(tallied, dropped, list[i..], next);
        DecideFirst(q, b, key, lo);
        assert b.list[0] == list[i] && b.list[1..] == list[i + 1..];
        if list[i].row in q.visible {
          TallyOne(list[i].row, list[i].code);
        } else {
          dropped := dropped + {list[i].row};
        }
      }
      assert list[|list|..] == [];
      NextRises(q, Book(tallied, dropped, [], next), key, lo, nb);
      BatchSent(q, was, Book(tallied, dropped, [], nb), batches, start, batchMax, key, lo);
      batches, next := Sent(batches, list), nb;
      list := [];
    }

    // One row for the heap to decide on. The list is rechecked, and emptied,
    // before it outgrows its budget, at a block boundary.
    method RecheckAdd(key: nat, lo: nat, code: nat)
      requires At(key, lo) && Asks(q, Row(key, lo)) && !FromMap(q, Row(key, lo))
      requires Row(key, lo) in q.visible ==> code == CodeOf(q, Row(key, lo))
      modifies this`list, this`tallied, this`dropped, this`batches, this`next, this`start, tally
      ensures At(key, lo + 1)
      ensures if Overflows(old(list), batchMax, Row(key, lo))
              then batches == old(batches) + [old(list)] && list == [Listed(Row(key, lo), code)]
              else batches == old(batches) && list == old(list) + [Listed(Row(key, lo), code)]
    {
      hide Asks, CodeOf, Met, ListedOk, BookOk, RowsOf, BatchesOk, FromMap;
      var row := Row(key, lo);
      var x := Listed(row, code);
      ListInOrder(q, Now(), key, lo);
      AskedInRange(q, row);
      if Overflows(list, batchMax, row) {
        FlushList(key, lo, HeapBlock(row));
      }
      ListInOrder(q, Now(), key, lo);
      BudgetGrows(list, start, batchMax, x);
      ListRow(q, Now(), key, lo, code);
      ListForHeap(q, Now(), batches, batchMax, x);
      start := if list == [] || HeapBlock(list[|list| - 1].row) != HeapBlock(row) then |list| else start;
      list := list + [x];
    }

    /* ---------- one key ---------- */

    // Every column decoded at the key.
    ghost predicate KeyDecoded(key: nat, w: Blocks)
      reads this`stamps, this`val0, this`cur
    {
      && |stamps| == |q.cols| - 1 && Present(q.cols[0], |q.cols[0]|, key, w, val0)
      && forall d :: 0 <= d < |stamps| ==> DecodedAt(q, stamps, d, key, cur)
    }

    // The combination of a row column 0 has, by a value of each column that has
    // it; None when another column has no such value.
    method RowCode(key: nat, lo: nat, ghost w: Blocks) returns (code: Option<nat>, ghost vals: seq<nat>)
      requires KeyDecoded(key, w) && lo < RANGE && HasLabel(q, 0, Row(key, lo))
      ensures code.None? <==> exists c :: 0 <= c < |q.cols| && !HasLabel(q, c, Row(key, lo))
      ensures code.Some? ==>
                && ValuesOk(vals, Radix(q)) && InAll(q, vals, Row(key, lo)) && vals[0] == val0[lo]
                && code.value == CodeTo(vals, Radix(q), |q.cols|) < Cells(Radix(q), |q.cols|)
    {
      hide Has, HasLabel, Labelled, InAll, ValuesOk, KeyDecoded, Cells;
      ghost var row, radix := Row(key, lo), Radix(q);
      StampsFit(key, w);
      vals := ValuesAt(stamps, val0, lo);
      FirstLabel(key, lo, w);
      var n := val0[lo];
      assert n == CodeTo(vals, radix, 1) by {
        assert CodeTo(vals, radix, 0) == 0;
      }
      for c := 1 to |q.cols|
        invariant n == CodeTo(vals, radix, c)
        invariant forall d :: 0 <= d < c ==>
                    HasLabel(q, d, row) && vals[d] < |q.cols[d]| && Has(q.cols[d][vals[d]], row)
      {
        DecodedColumn(key, w, c);
        ColumnLabel(key, c, lo);
        if stamps[c - 1].gen[lo] != cur {
          return None, vals;
        }
        n := n * |q.cols[c]| + stamps[c - 1].val[lo];
      }
      AllLabelled(q, row, vals);
      CodeIsCell(vals, radix, |q.cols|);
      code := Some(n);
    }

    lemma DecodedColumn(key: nat, w: Blocks, c: nat)
      requires KeyDecoded(key, w) && 1 <= c < |q.cols|
      ensures |stamps| + 1 == |q.cols| && DecodedAt(q, stamps, c - 1, key, cur)
    {
    }

    lemma StampsFit(key: nat, w: Blocks)
      requires KeyDecoded(key, w)
      ensures |stamps| + 1 == |q.cols|
      ensures |val0| == RANGE && forall d :: 0 <= d < |stamps| ==> |stamps[d].val| == RANGE
    {
      forall d | 0 <= d < |stamps|
        ensures |stamps[d].val| == RANGE
      {
        assert DecodedAt(q, stamps, d, key, cur);
      }
    }

    lemma FirstLabel(key: nat, lo: nat, w: Blocks)
      requires KeyDecoded(key, w) && lo < RANGE && HasLabel(q, 0, Row(key, lo))
      ensures val0[lo] < |q.cols[0]| && Has(q.cols[0][val0[lo]], Row(key, lo))
    {
      PresentRows(key, w);
    }

    lemma ColumnLabel(key: nat, c: nat, lo: nat)
      requires 1 <= c < |q.cols| == |stamps| + 1 && DecodedAt(q, stamps, c - 1, key, cur) && lo < RANGE
      ensures stamps[c - 1].gen[lo] == cur <==> HasLabel(q, c, Row(key, lo))
      ensures HasLabel(q, c, Row(key, lo)) ==>
                stamps[c - 1].val[lo] < |q.cols[c]| && Has(q.cols[c][stamps[c - 1].val[lo]], Row(key, lo))
    {
      assert Labelled(q.cols[c], |q.cols[c]|, Row(key, lo)) <==> HasLabel(q, c, Row(key, lo));
    }

    // A row column 0 has and the WHERE keeps: counted from the map, or sent to
    // the heap with its combination.
    method CountRow(key: nat, lo: nat, ghost w: Blocks)
      requires At(key, lo) && KeyDecoded(key, w) && lo < RANGE && HasLabel(q, 0, Row(key, lo)) && Kept(q, Row(key, lo))
      modifies this`list, this`tallied, this`dropped, this`batches, this`next, this`start, tally
      ensures At(key, lo + 1)
    {
      var code;
      ghost var vals;
      code, vals := RowCode(key, lo, w);
      FirstLabel(key, lo, w);
      hide Present, Decoded, Has, HasLabel, BookOk, RowsOf, CodeOf, Kept, WithinBudget, BatchesOk, FromMap, InAll;
      ghost var row := Row(key, lo);
      AsksWhenCoded(q, row, code);
      if code.None? {
        SkipRow(q, Now(), key, lo);
        return;
      }
      CodeCounts(q, row, vals);
      var v0 := val0[lo];
      MapDecides(q, v0, row);
      if key * BLOCKS + BlockOf(lo) in q.shown && q.trust[v0] {
        TallyRow(q, Now(), key, lo);
        TallyFromMap(q, Now(), batches, batchMax, row);
        TallyOne(Row(key, lo), code.value);
      } else {
        RecheckAdd(key, lo, code.value);
      }
    }

    // The rows of the key in order.
    method CountRows(key: nat, los: seq<nat>, ghost w: Blocks)
      requires At(key, 0) && KeyDecoded(key, w) && Ascends(los)
      requires forall lo: nat :: lo in ValuesOf(los) <==>
                 lo < RANGE && HasLabel(q, 0, Row(key, lo)) && Kept(q, Row(key, lo))
      modifies this`list, this`tallied, this`dropped, this`batches, this`next, this`start, tally
      ensures At(key + 1, 0)
    {
      hide BookOk, Accounts, WithinBudget, BatchesOk, KeyDecoded, Present, HasLabel, Kept;
      ghost var f: nat := 0;
      for i := 0 to |los|
        invariant At(key, f) && f <= RANGE && f == if i == 0 then 0 else los[i - 1] + 1
      {
        assert los[i] in ValuesOf(los);
        assert i > 0 ==> los[i - 1] < los[i];
        NoneBetween(q, los, i, key, f);
        SkipTo(q, Now(), key, f, key, los[i]);
        CountRow(key, los[i], w);
        f := los[i] + 1;
      }
      NonePast(q, los, key, f);
      SkipTo(q, Now(), key, f, key + 1, 0);
    }

    // Column 0's containers at the key, those of its rows the WHERE keeps, and
    // the other columns'.
    method DecodeKey(key: nat) returns (rows: Blocks, ghost w: Blocks)
      requires Ready(key) && FirstStands(key)
      requires q.keep.Some? ==> idx < |q.keep.value| && q.keep.value[idx].ckey == key
      modifies this`pos, this`cur, this`stamps, this`val0
      ensures Ready(key) && KeyDecoded(key, w) && pos[0] == old(pos)[0]
      ensures Image(rows, BITSET_WIDTH)
      ensures forall lo: nat :: lo in ImageSet(rows) <==>
                lo < RANGE && HasLabel(q, 0, Row(key, lo)) && Kept(q, Row(key, lo))
    {
      hide Has, PostingOk, Present, Decoded, StampsOk, Blank;
      KeyIsWanted(q, idx, key);
      var gen;
      stamps, gen := NextGeneration(stamps, cur);
      cur := gen;
      AreBlank(stamps, cur);
      FirstCursors(q, pos, key);
      var image;
      image, val0 := DecodeFirst(q.cols[0], pos[0], key, val0);
      PresentShape(q.cols[0], |q.cols[0]|, key, image, val0);
      w := image;
      rows := KeepRows(key, image);
      DecodeOthers(key);
    }

    ghost predicate FirstStands(key: nat)
      reads this`pos
    {
      |pos| > 0 && exists v :: 0 <= v < |pos[0]| && v < |q.cols[0]| && Stands(q.cols[0][v], pos[0][v], key)
    }

    // The rows the WHERE keeps: its container there, a BITSET's words or an image.
    method KeepRows(key: nat, image: Blocks) returns (rows: Blocks)
      requires Present(q.cols[0], |q.cols[0]|, key, image, val0)
      requires q.keep.Some? ==> idx < |q.keep.value| && q.keep.value[idx].ckey == key
      ensures Image(rows, BITSET_WIDTH)
      ensures forall lo: nat :: lo in ImageSet(rows) <==>
                lo < RANGE && HasLabel(q, 0, Row(key, lo)) && Kept(q, Row(key, lo))
    {
      PresentRows(key, image);
      if q.keep.Some? {
        var c := q.keep.value[idx];
        var bits;
        if c.rep.Bitmap? && c.rep.width == BITSET_WIDTH {
          ImageIsMembers(c.rep.blocks, BITSET_WIDTH);
          bits := c.rep.blocks;
        } else {
          MembersInRange(c.rep);
          FullWidthHoldsAll(Members(c.rep));
          bits := FillBitmap(c, BITSET_WIDTH);
        }
        rows := Fold(And, image, BITSET_WIDTH, bits, BITSET_WIDTH);
        FoldedSets(And, rows, image, bits, BITSET_WIDTH);
        ImageFits(image, BITSET_WIDTH);
        ImageFits(bits, BITSET_WIDTH);
        hide ImageSet, Image;
        KeptHere(key);
      } else {
        rows := image;
      }
    }

    lemma PresentRows(key: nat, image: Blocks)
      requires Present(q.cols[0], |q.cols[0]|, key, image, val0)
      ensures Image(image, BITSET_WIDTH)
      ensures forall lo: nat :: lo in ImageSet(image) <==> lo < RANGE && HasLabel(q, 0, Row(key, lo))
    {
      forall lo: nat
        ensures lo in ImageSet(image) <==> lo < RANGE && HasLabel(q, 0, Row(key, lo))
      {
        assert lo < RANGE ==> (Labelled(q.cols[0], |q.cols[0]|, Row(key, lo)) <==> HasLabel(q, 0, Row(key, lo)));
      }
    }

    lemma KeptHere(key: nat)
      requires q.keep.Some? && idx < |q.keep.value| && q.keep.value[idx].ckey == key
      ensures WellFormed(q.keep.value[idx])
      ensures forall lo: nat :: Kept(q, Row(key, lo)) <==> lo in Members(q.keep.value[idx].rep)
    {
      var p := q.keep.value;
      assert PostingOk(p);
      forall lo: nat
        ensures Kept(q, Row(key, lo)) <==> lo in Members(p[idx].rep)
      {
        assert StandsAt(p, idx, key);
        CursorDecides(p, idx, key, lo);
      }
    }

    method DecodeOthers(key: nat)
      requires Ready(key) && cur > 0 && (forall c :: 0 <= c < |stamps| ==> Blank(stamps[c], cur))
      requires !Skippable(q, key, key)
      modifies this`pos, this`stamps
      ensures Ready(key) && pos[0] == old(pos)[0] && forall d :: 0 <= d < |stamps| ==> DecodedAt(q, stamps, d, key, cur)
    {
      hide Has, PostingOk, Decoded, StampsOk, Blank, Skippable, CursorOk, Cursors, IndexOk;
      OtherCursors(q, pos, key, 0);
      for c := 1 to |q.cols|
        invariant Cursors(q, pos, key) && |stamps| == |q.cols| - 1 && |pos| == |q.cols| && pos[0] == old(pos)[0]
        invariant forall d :: 0 <= d < c - 1 ==> DecodedAt(q, stamps, d, key, cur)
        invariant forall d :: c - 1 <= d < |stamps| ==> Blank(stamps[d], cur)
      {
        OtherCursors(q, pos, key, c);
        ghost var was := pos;
        var next, t := DecodeColumn(q.cols[c], pos[c], key, stamps[c - 1], cur);
        SoughtCursors(q, pos, key, c, next);
        pos := pos[c := next];
        StampsPut(q, stamps, c - 1, t, stamps[c - 1 := t], key, cur);
        stamps := stamps[c - 1 := t];
      }
      forall c | 0 <= c < |stamps|
        ensures StampsOk(stamps[c], cur)
      {
        assert DecodedAt(q, stamps, c, key, cur);
        DecodedStamps(q.cols[c + 1], |q.cols[c + 1]|, key, stamps[c], cur);
      }
    }

    /* ---------- the walk ---------- */

    // The smallest key a cursor of column 0 stands at.
    method LeastKey() returns (least: Option<nat>)
      requires |pos| == |q.cols| && |pos[0]| == |q.cols[0]|
      ensures least.None? ==> forall v :: 0 <= v < |pos[0]| ==> pos[0][v] >= |q.cols[0][v]|
      ensures least.Some? ==> exists v :: 0 <= v < |pos[0]| && Stands(q.cols[0][v], pos[0][v], least.value)
      ensures least.Some? ==> AtLeast(q.cols[0], pos[0], least.value)
    {
      least := None;
      for v := 0 to |pos[0]|
        invariant least.None? ==> forall w :: 0 <= w < v ==> pos[0][w] >= |q.cols[0][w]|
        invariant least.Some? ==> exists w :: 0 <= w < v && Stands(q.cols[0][w], pos[0][w], least.value)
        invariant least.Some? ==> forall w :: 0 <= w < v && pos[0][w] < |q.cols[0][w]| ==>
                    q.cols[0][w][pos[0][w]].ckey >= least.value
      {
        if pos[0][v] < |q.cols[0][v]| {
          var k := q.cols[0][v][pos[0][v]].ckey;
          if least.None? || k < least.value {
            least := Some(k);
            assert Stands(q.cols[0][v], pos[0][v], k);
          }
        }
      }
    }

    // Column 0's cursors below target sought to it.
    method SeekFirst(ghost key: nat, target: nat)
      requires Ready(key) && key <= target
      modifies this`pos
      ensures Ready(target)
      ensures |old(pos)| > 0 && |old(pos)[0]| == |pos[0]| == |q.cols[0]|
      ensures forall v :: 0 <= v < |pos[0]| ==> old(pos)[0][v] <= pos[0][v] <= |q.cols[0][v]|
      ensures forall v :: 0 <= v < |pos[0]| && old(pos)[0][v] < |q.cols[0][v]| &&
                          q.cols[0][v][old(pos)[0][v]].ckey < target ==>
                old(pos)[0][v] < pos[0][v]
    {
      hide StampsOk;
      ghost var was := pos;
      var first := pos[0];
      FirstInBounds(q, pos, key);
      for v := 0 to |first|
        invariant pos == was && |first| == |was[0]| && forall w :: v <= w < |first| ==> first[w] == was[0][w]
        invariant forall w :: 0 <= w < v ==> Sought(q.cols[0][w], was[0][w], first[w], target)
      {
        var at := Seek(q.cols[0][v], first[v], target);
        first := first[v := at];
      }
      FirstSought(q, was, key, first, target);
      IndexOn(q, idx, key, target);
      pos := pos[0 := first];
    }

    // The cursors standing at the key on to the next key a count can be made at.
    method Advance(key: nat)
      requires Ready(key) && (q.keep.Some? ==> idx + 1 < |q.keep.value| && q.keep.value[idx].ckey == key)
      requires FirstStands(key)
      modifies this`pos
      ensures Ready(key + 1)
      ensures |old(pos)| > 0 && |old(pos)[0]| == |pos[0]| == |q.cols[0]|
      ensures forall v :: 0 <= v < |pos[0]| ==> old(pos)[0][v] <= pos[0][v] <= |q.cols[0][v]|
      ensures exists v :: 0 <= v < |pos[0]| && old(pos)[0][v] < pos[0][v]
    {
      hide StampsOk;
      ghost var was := pos;
      FirstInBounds(q, pos, key);
      var target := if q.keep.Some? then q.keep.value[idx + 1].ckey else key + 1;
      NextWanted(q, idx, key, target);
      for c := 0 to |q.cols|
        invariant |pos| == |was| && forall d :: c <= d < |pos| ==> pos[d] == was[d]
        invariant forall d :: 0 <= d < c ==> ColumnMoved(q, d, was, pos[d], key, target)
      {
        var next := pos[c];
        ghost var here := pos;
        for v := 0 to |next|
          invariant pos == here && |next| == |was[c]| && forall w :: v <= w < |next| ==> next[w] == was[c][w]
          invariant forall w :: 0 <= w < v ==> Moved(q.cols[c][w], was[c][w], next[w], key, target)
        {
          CursorInBounds(q, was, key, c, v);
          if Stands(q.cols[c][v], next[v], key) {
            var at := if target == key + 1 then next[v] + 1 else next[v];
            if target != key + 1 {
              at := Seek(q.cols[c][v], next[v], target);
            }
            StepIsSeek(q.cols[c][v], next[v], key, target, at);
            next := next[v := at];
          }
        }
        pos := pos[c := next];
      }
      AllMoved(q, was, pos, key, target);
      IndexOn(q, idx, key, key + 1);
    }

    // One key: column 0's rows there, the others' values, and each row counted.
    method CountKey(key: nat)
      requires At(key, 0) && Ready(key) && FirstStands(key)
      requires q.keep.Some? ==> idx < |q.keep.value| && q.keep.value[idx].ckey == key
      modifies this, tally
      ensures At(key + 1, 0) && Ready(key) && FirstStands(key) && idx == old(idx)
      ensures |pos| == |old(pos)| == |q.cols| && pos[0] == old(pos)[0]
    {
      hide BookOk, Accounts, WithinBudget, BatchesOk, Cursors, IndexOk, StampsOk, HasLabel, Kept, ImageSet;
      OtherCursorsCount(q, pos, key);
      var rows;
      ghost var w;
      rows, w := DecodeKey(key);
      RowsFit(rows);
      OtherCursorsCount(q, pos, key);
      var los := ImageValues(rows, BITSET_WIDTH, RANGE);
      CountRows(key, los.value, w);
    }

    // The next key column 0 stands at: past it when the WHERE has not got it,
    // else counted. Everything before met is, and then before met2.
    method Step(ghost met: nat) returns (more: bool, ghost met2: nat)
      requires At(met, 0) && Ready(met)
      modifies this, tally
      ensures At(met2, 0)
      ensures !more ==> forall r :: Asks(q, r) ==> Before(r, met2, 0)
      ensures more ==> Ready(met2) && 0 <= LeftAhead() < old(LeftAhead())
    {
      hide BookOk, Cursors, IndexOk, StampsOk, Asks, WithinBudget, BatchesOk, Accounts;
      FirstInBounds(q, pos, met);
      var least := LeastKey();
      if least.None? {
        NoneAhead(q, pos, met);
        return false, met;
      }
      var key := least.value;
      LeastIsPast(q, pos, met, key);
      KeyReached(q, pos, met, key);
      if q.keep.Some? {
        idx := SeekKeep(met, key);
        if idx >= |q.keep.value| {
          KeepEnds(q, pos, met, key);
          return false, met;
        }
        if q.keep.value[idx].ckey != key {
          met2 := PassKeys(met, key);
          return true, met2;
        }
      } else {
        IndexOn(q, idx, met, key);
      }
      NothingTo(q, pos, met, key);
      SkipTo(q, Now(), met, 0, key, 0);
      more := CountAndAdvance(key);
      met2 := key + 1;
    }

    // Nothing below the WHERE's next key is counted: column 0 is sought there.
    method PassKeys(ghost met: nat, ghost key: nat) returns (ghost target: nat)
      requires At(met, 0) && Cursors(q, pos, met) && Ready(key) && met <= key && |pos[0]| == |q.cols[0]|
      requires AtLeast(q.cols[0], pos[0], key) && exists v :: 0 <= v < |pos[0]| && Stands(q.cols[0][v], pos[0][v], key)
      requires q.keep.Some? && idx < |q.keep.value| && q.keep.value[idx].ckey > key
      modifies this`pos
      ensures At(target, 0) && Ready(target) && 0 <= LeftAhead() < old(LeftAhead())
    {
      hide BookOk, Cursors, IndexOk, StampsOk, Asks, WithinBudget, BatchesOk, Accounts;
      ghost var was := pos;
      FirstInBounds(q, pos, met);
      KeepIsPast(q, pos, idx, met, key, q.keep.value[idx].ckey);
      SkipTo(q, Now(), met, 0, q.keep.value[idx].ckey, 0);
      SeekFirst(key, q.keep.value[idx].ckey);
      OtherCursorsCount(q, pos, q.keep.value[idx].ckey);
      LeftLess(q, was, pos, q.keep.value[idx].ckey);
      target := q.keep.value[idx].ckey;
    }

    method CountAndAdvance(key: nat) returns (more: bool)
      requires At(key, 0) && Ready(key) && FirstStands(key) && |pos| == |q.cols| && |pos[0]| == |q.cols[0]|
      requires q.keep.Some? ==> idx < |q.keep.value| && q.keep.value[idx].ckey == key
      modifies this, tally
      ensures At(key + 1, 0)
      ensures !more ==> forall r :: Asks(q, r) ==> Before(r, key + 1, 0)
      ensures more ==> Ready(key + 1) && 0 <= LeftAhead() < old(LeftAhead())
    {
      hide BookOk, Cursors, IndexOk, StampsOk, Asks, WithinBudget, BatchesOk, Accounts;
      ghost var was := pos;
      CountKey(key);
      if q.keep.Some? && idx + 1 >= |q.keep.value| {
        KeepIsDone(q, idx, key);
        return false;
      }
      ghost var stood := pos;
      FirstInBounds(q, pos, key);
      Advance(key);
      OtherCursorsCount(q, pos, key + 1);
      LeftLess(q, stood, pos, key + 1);
      more := true;
    }

    // Every combination's rows, into the tally.
    method Run()
      requires At(0, 0) && Ready(0)
      modifies this, tally
      ensures tally.Valid() && !tally.reading && list == []
      ensures forall x :: tally.Total(x) == |RowsOf(q, Answer(q), x)|
      ensures forall r :: InBatch(batches, r) <==> Asks(q, r) && !FromMap(q, r)
      ensures forall i :: 0 <= i < |batches| ==> |batches[i]| <= batchMax && RowsRise(batches[i])
      ensures forall i :: 0 <= i < |batches| - 1 ==> |batches[i]| + BLOCK_ROWS > batchMax
      ensures forall i, j, x, y :: 0 <= i < j < |batches| && x in batches[i] && y in batches[j] ==>
                HeapBlock(x.row) < HeapBlock(y.row)
    {
      hide BookOk, BatchesOk, InBatch, FromMap, WithinBudget, RowsOf, Ready, Asks;
      ghost var met: nat := 0;
      var more := true;
      while more
        invariant At(met, 0) && if more then Ready(met) else forall r :: Asks(q, r) ==> Before(r, met, 0)
        decreases more, LeftNow()
      {
        more, met := Step(met);
      }
      ListBelow(q, Now(), met);
      FlushList(met, 0, met * BLOCKS);
      BookEnds(q, Now(), met, 0);
      BatchesEnd(q, Now(), batches, batchMax, met, 0);
      BatchesUnsplit(q, Now(), batches, batchMax);
    }

    ghost function LeftNow(): nat
      reads this
    {
      if LeftAhead() < 0 then 0 else LeftAhead()
    }

    ghost function LeftAhead(): int
      reads this
    {
      if |pos| == |q.cols| && |pos[0]| == |q.cols[0]| then LeftOf(q.cols[0], pos[0], |pos[0]|) else 0
    }

    // The WHERE's first container at or past the key.
    method SeekKeep(ghost met: nat, key: nat) returns (at: nat)
      requires q.keep.Some? && IndexOk(q, idx, met) && met <= key
      ensures IndexOk(q, at, key) && at <= |q.keep.value|
      ensures at < |q.keep.value| ==> q.keep.value[at].ckey >= key
    {
      at := Seek(q.keep.value, idx, key);
    }
  }

  lemma OtherCursorsCount(q: Asked, pos: seq<seq<nat>>, key: nat)
    requires Cursors(q, pos, key)
    ensures |pos| == |q.cols|
  {
  }

  lemma RowsFit(rows: Blocks)
    ensures |ImageSet(rows)| <= RANGE
  {
    IntervalSize(0, RANGE);
    SubsetSize(ImageSet(rows), Interval(0, RANGE));
  }

  lemma LeastIsPast(q: Asked, pos: seq<seq<nat>>, met: nat, key: nat)
    requires Cursors(q, pos, met) && |pos[0]| == |q.cols[0]|
    requires exists v :: 0 <= v < |pos[0]| && Stands(q.cols[0][v], pos[0][v], key)
    ensures met <= key
  {
  }

  // The cursors are as good for the least key.
  lemma KeyReached(q: Asked, pos: seq<seq<nat>>, met: nat, key: nat)
    requires Cursors(q, pos, met) && met <= key && |pos[0]| == |q.cols[0]| && AtLeast(q.cols[0], pos[0], key)
    ensures Cursors(q, pos, key)
  {
    forall c, v | 0 <= c < |pos| && 0 <= v < |pos[c]|
      ensures CursorOk(q, q.cols[c][v], pos[c][v], key)
    {
      assert CursorOk(q, q.cols[c][v], pos[c][v], met);
      CursorOn(q, q.cols[c][v], pos[c][v], pos[c][v], met, key);
    }
  }

  lemma NoneAhead(q: Asked, pos: seq<seq<nat>>, met: nat)
    requires Cursors(q, pos, met) && |pos[0]| == |q.cols[0]|
    requires forall v :: 0 <= v < |pos[0]| ==> pos[0][v] >= |q.cols[0][v]|
    ensures forall r :: Asks(q, r) ==> Before(r, met, 0)
  {
    forall r | Asks(q, r)
      ensures Before(r, met, 0)
    {
      if r.key >= met {
        AskedAtOrPast(q, pos, met, met, r);
      }
    }
  }

  lemma NothingTo(q: Asked, pos: seq<seq<nat>>, met: nat, key: nat)
    requires Cursors(q, pos, met) && met <= key && |pos[0]| == |q.cols[0]| && AtLeast(q.cols[0], pos[0], key)
    ensures forall r :: Asks(q, r) ==> (Before(r, key, 0) <==> Before(r, met, 0))
  {
    forall r | Asks(q, r)
      ensures Before(r, key, 0) <==> Before(r, met, 0)
    {
      if r.key >= met {
        AskedAtOrPast(q, pos, met, key, r);
      }
    }
  }

  // The WHERE has no key from the least one to target.
  lemma KeepIsPast(q: Asked, pos: seq<seq<nat>>, idx: nat, met: nat, key: nat, target: nat)
    requires Cursors(q, pos, met) && met <= key && |pos[0]| == |q.cols[0]| && AtLeast(q.cols[0], pos[0], key)
    requires q.keep.Some? && IndexOk(q, idx, key) && idx < |q.keep.value| && q.keep.value[idx].ckey == target >= key
    ensures forall r :: Asks(q, r) ==> (Before(r, target, 0) <==> Before(r, met, 0))
  {
    NothingTo(q, pos, met, key);
    forall r | Asks(q, r)
      ensures Before(r, target, 0) <==> Before(r, met, 0)
    {
      KeptHasKey(q, r);
      var j :| 0 <= j < |q.keep.value| && q.keep.value[j].ckey == r.key;
      assert PostingOk(q.keep.value);
      assert idx < j ==> q.keep.value[idx].ckey < q.keep.value[j].ckey;
    }
  }

  lemma KeepEnds(q: Asked, pos: seq<seq<nat>>, met: nat, key: nat)
    requires Cursors(q, pos, met) && met <= key && |pos[0]| == |q.cols[0]| && AtLeast(q.cols[0], pos[0], key)
    requires q.keep.Some? && IndexOk(q, |q.keep.value|, key)
    ensures forall r :: Asks(q, r) ==> Before(r, met, 0)
  {
    NothingTo(q, pos, met, key);
    forall r | Asks(q, r)
      ensures Before(r, key, 0)
    {
      KeptHasKey(q, r);
    }
  }

  lemma KeepIsDone(q: Asked, idx: nat, key: nat)
    requires q.keep.Some? && idx + 1 == |q.keep.value| && q.keep.value[idx].ckey == key
    ensures forall r :: Asks(q, r) ==> Before(r, key + 1, 0)
  {
    assert PostingOk(q.keep.value);
    forall r | Asks(q, r)
      ensures Before(r, key + 1, 0)
    {
      KeptHasKey(q, r);
      var j :| 0 <= j < |q.keep.value| && q.keep.value[j].ckey == r.key;
      assert j < idx ==> q.keep.value[j].ckey < q.keep.value[idx].ckey;
    }
  }

  // Column 0 has less left once a cursor of it has moved.
  lemma LeftLess(q: Asked, a: seq<seq<nat>>, b: seq<seq<nat>>, next: nat)
    requires Cursors(q, b, next) && |a| == |q.cols| == |b| && |a[0]| == |b[0]| == |q.cols[0]|
    requires forall v :: 0 <= v < |b[0]| ==> a[0][v] <= b[0][v]
    requires exists v :: 0 <= v < |b[0]| && a[0][v] < b[0][v]
    ensures 0 <= LeftOf(q.cols[0], b[0], |b[0]|) < LeftOf(q.cols[0], a[0], |a[0]|)
  {
    FirstInBounds(q, b, next);
    LeftFalls(q.cols[0], a[0], b[0], |a[0]|);
  }

  lemma ListBelow(q: Asked, b: Book, met: nat)
    requires BookOk(q, b, met, 0)
    ensures b.next <= met * BLOCKS && forall i :: 0 <= i < |b.list| ==> HeapBlock(b.list[i].row) < met * BLOCKS
  {
    ListInOrder(q, b, met, 0);
  }

  // Column d + 1 is decoded at the key.
  ghost predicate DecodedAt(q: Asked, stamps: seq<Stamps>, d: nat, key: nat, cur: nat)
    requires d < |stamps| == |q.cols| - 1
  {
    Decoded(q.cols[d + 1], |q.cols[d + 1]|, key, stamps[d], cur)
  }

  lemma StampsPut(q: Asked, stamps: seq<Stamps>, n: nat, t: Stamps, more: seq<Stamps>, key: nat, cur: nat)
    requires n < |stamps| == |q.cols| - 1 && Decoded(q.cols[n + 1], |q.cols[n + 1]|, key, t, cur)
    requires more == stamps[n := t] && forall d :: 0 <= d < n ==> DecodedAt(q, stamps, d, key, cur)
    ensures forall d :: 0 <= d <= n ==> DecodedAt(q, more, d, key, cur)
  {
    hide Decoded;
    forall d | 0 <= d <= n
      ensures DecodedAt(q, more, d, key, cur)
    {
      if d < n {
        assert DecodedAt(q, stamps, d, key, cur);
      }
    }
  }

  lemma AreBlank(all: seq<Stamps>, cur: nat)
    requires forall c :: 0 <= c < |all| ==> Blank(all[c], cur)
    ensures forall c :: 0 <= c < |all| ==> StampsOk(all[c], cur)
  {
  }

  // Column 0's cursors each stand at the key or past it.
  lemma FirstCursors(q: Asked, pos: seq<seq<nat>>, key: nat)
    requires Cursors(q, pos, key) && !Skippable(q, key, key)
    ensures |pos| == |q.cols| && |pos[0]| == |q.cols[0]|
    ensures forall v :: 0 <= v < |pos[0]| ==> PostingOk(q.cols[0][v]) && StandsAt(q.cols[0][v], pos[0][v], key)
  {
    forall v | 0 <= v < |pos[0]|
      ensures StandsAt(q.cols[0][v], pos[0][v], key)
    {
      assert CursorOk(q, q.cols[0][v], pos[0][v], key);
      StandsWhereSought(q, q.cols[0][v], pos[0][v], key);
    }
  }

  lemma OtherCursors(q: Asked, pos: seq<seq<nat>>, key: nat, c: nat)
    requires Cursors(q, pos, key) && !Skippable(q, key, key) && c < |q.cols|
    ensures |pos| == |q.cols| && |pos[c]| == |q.cols[c]|
    ensures forall v :: 0 <= v < |pos[c]| ==>
              PostingOk(q.cols[c][v]) && pos[c][v] <= |q.cols[c][v]| && NotPassed(q.cols[c][v], pos[c][v], key)
  {
    forall v | 0 <= v < |pos[c]|
      ensures pos[c][v] <= |q.cols[c][v]| && NotPassed(q.cols[c][v], pos[c][v], key)
    {
      assert CursorOk(q, q.cols[c][v], pos[c][v], key);
      StandsWhereSought(q, q.cols[c][v], pos[c][v], key);
    }
  }

  // Sought to the key a cursor passes only keys below it.
  lemma SoughtCursors(q: Asked, pos: seq<seq<nat>>, key: nat, c: nat, next: seq<nat>)
    requires Cursors(q, pos, key) && 0 < c < |q.cols| && |next| == |q.cols[c]|
    requires forall v :: 0 <= v < |next| ==>
               pos[c][v] <= next[v] <= |q.cols[c][v]| && Passed(q.cols[c][v], pos[c][v], next[v], key)
    ensures Cursors(q, pos[c := next], key)
  {
    var pos2 := pos[c := next];
    forall d, v | 0 <= d < |pos2| && 0 <= v < |pos2[d]|
      ensures CursorOk(q, q.cols[d][v], pos2[d][v], key)
    {
      assert CursorOk(q, q.cols[d][v], pos[d][v], key);
    }
  }

  // No value's cursor stands below least.
  ghost predicate AtLeast(sets: seq<Posting>, pos: seq<nat>, least: nat)
    requires |sets| == |pos|
  {
    forall v :: 0 <= v < |pos| && pos[v] < |sets[v]| ==> sets[v][pos[v]].ckey >= least
  }

  ghost predicate Sought(p: Posting, a: nat, b: nat, target: nat) {
    a <= b && Passed(p, a, b, target) && (b < |p| ==> p[b].ckey >= target)
  }

  lemma FirstInBounds(q: Asked, pos: seq<seq<nat>>, key: nat)
    requires Cursors(q, pos, key)
    ensures |pos| == |q.cols| && |pos[0]| == |q.cols[0]|
    ensures forall v :: 0 <= v < |pos[0]| ==> pos[0][v] <= |q.cols[0][v]|
  {
    forall v | 0 <= v < |pos[0]|
      ensures pos[0][v] <= |q.cols[0][v]|
    {
      assert CursorOk(q, q.cols[0][v], pos[0][v], key);
    }
  }

  lemma CursorInBounds(q: Asked, pos: seq<seq<nat>>, key: nat, c: nat, v: nat)
    requires Cursors(q, pos, key) && c < |pos| && v < |pos[c]|
    ensures |pos[c]| == |q.cols[c]| && pos[c][v] <= |q.cols[c][v]|
  {
    assert CursorOk(q, q.cols[c][v], pos[c][v], key);
  }

  // A cursor that passes only what need not be counted is still one.
  lemma CursorOn(q: Asked, p: Posting, a: nat, b: nat, key: nat, next: nat)
    requires CursorOk(q, p, a, key) && key <= next && a <= b <= |p|
    requires forall i :: a <= i < b ==> Skippable(q, next, p[i].ckey)
    ensures CursorOk(q, p, b, next)
  {
    forall i | 0 <= i < b
      ensures Skippable(q, next, p[i].ckey)
    {
      if i < a {
        SkippableOn(q, key, next, p[i].ckey);
      }
    }
  }

  lemma FirstSought(q: Asked, pos: seq<seq<nat>>, key: nat, first: seq<nat>, target: nat)
    requires Cursors(q, pos, key) && key <= target && |first| == |pos[0]|
    requires forall v :: 0 <= v < |first| ==> Sought(q.cols[0][v], pos[0][v], first[v], target)
    ensures Cursors(q, pos[0 := first], target)
  {
    var pos2 := pos[0 := first];
    forall c, v | 0 <= c < |pos2| && 0 <= v < |pos2[c]|
      ensures CursorOk(q, q.cols[c][v], pos2[c][v], target)
    {
      assert CursorOk(q, q.cols[c][v], pos[c][v], key);
      assert c == 0 ==> Sought(q.cols[c][v], pos[c][v], pos2[c][v], target);
      CursorOn(q, q.cols[c][v], pos[c][v], pos2[c][v], key, target);
    }
    forall v | 0 <= v < |pos2[0]| && pos2[0][v] < |q.cols[0][v]|
      ensures q.cols[0][v][pos2[0][v]].ckey >= target
    {
      assert Sought(q.cols[0][v], pos[0][v], first[v], target);
    }
  }

  // A cursor at the key moves to the next it is wanted at; another stays.
  ghost predicate Moved(p: Posting, a: nat, b: nat, key: nat, target: nat) {
    if Stands(p, a, key) then a < b && Sought(p, a, b, target) else b == a
  }

  ghost predicate ColumnMoved(q: Asked, c: nat, was: seq<seq<nat>>, next: seq<nat>, key: nat, target: nat)
    requires c < |q.cols| == |was|
  {
    |next| == |was[c]| == |q.cols[c]| &&
    forall v :: 0 <= v < |next| ==> Moved(q.cols[c][v], was[c][v], next[v], key, target)
  }

  lemma StepIsSeek(p: Posting, a: nat, key: nat, target: nat, b: nat)
    requires Stands(p, a, key) && key < target
    requires if target == key + 1 then b == a + 1
             else a <= b <= |p| && Passed(p, a, b, target) && (b < |p| ==> p[b].ckey >= target)
    requires PostingOk(p)
    ensures Moved(p, a, b, key, target)
  {
    assert target == key + 1 && b < |p| ==> p[a].ckey < p[b].ckey;
  }

  // From the key on, none below target is wanted.
  ghost predicate NoneWanted(q: Asked, key: nat, target: nat) { forall k: nat :: k < target ==> Skippable(q, key, k) }

  lemma NextWanted(q: Asked, idx: nat, key: nat, target: nat)
    requires q.keep.Some? ==> idx + 1 < |q.keep.value| && q.keep.value[idx].ckey == key
    requires target == if q.keep.Some? then q.keep.value[idx + 1].ckey else key + 1
    ensures key < target && NoneWanted(q, key + 1, target)
  {
    if q.keep.Some? {
      var p := q.keep.value;
      assert PostingOk(p);
      assert p[idx].ckey < p[idx + 1].ckey;
      forall j | 0 <= j < |p|
        ensures p[j].ckey <= key || target <= p[j].ckey
      {
        assert j < idx ==> p[j].ckey < p[idx].ckey;
        assert idx + 1 < j ==> p[idx + 1].ckey < p[j].ckey;
      }
    }
  }

  lemma AllMoved(q: Asked, was: seq<seq<nat>>, pos: seq<seq<nat>>, key: nat, target: nat)
    requires Cursors(q, was, key) && |pos| == |was| && key < target
    requires NoneWanted(q, key + 1, target)
    requires forall c :: 0 <= c < |pos| ==> ColumnMoved(q, c, was, pos[c], key, target)
    ensures Cursors(q, pos, key + 1)
    ensures |pos[0]| == |was[0]| == |q.cols[0]|
    ensures forall v :: 0 <= v < |pos[0]| ==> was[0][v] <= pos[0][v] <= |q.cols[0][v]|
    ensures forall v :: 0 <= v < |pos[0]| && Stands(q.cols[0][v], was[0][v], key) ==> was[0][v] < pos[0][v]
  {
    forall c, v | 0 <= c < |pos| && 0 <= v < |pos[c]|
      ensures CursorOk(q, q.cols[c][v], pos[c][v], key + 1)
    {
      assert CursorOk(q, q.cols[c][v], was[c][v], key);
      assert ColumnMoved(q, c, was, pos[c], key, target);
      assert Moved(q.cols[c][v], was[c][v], pos[c][v], key, target);
      CursorOn(q, q.cols[c][v], was[c][v], pos[c][v], key, key + 1);
    }
    assert ColumnMoved(q, 0, was, pos[0], key, target);
    FirstInBounds(q, was, key);
    forall v | 0 <= v < |pos[0]|
      ensures was[0][v] <= pos[0][v] <= |q.cols[0][v]|
      ensures Stands(q.cols[0][v], was[0][v], key) ==> was[0][v] < pos[0][v]
      ensures pos[0][v] < |q.cols[0][v]| ==> q.cols[0][v][pos[0][v]].ckey >= key + 1
    {
      assert Moved(q.cols[0][v], was[0][v], pos[0][v], key, target);
    }
  }

  lemma IndexOn(q: Asked, idx: nat, key: nat, next: nat)
    requires IndexOk(q, idx, key) && key <= next
    ensures IndexOk(q, idx, next)
  {
  }

  lemma AsksWhenCoded(q: Asked, row: Row, code: Option<nat>)
    requires Kept(q, row) && (code.None? <==> exists c :: 0 <= c < |q.cols| && !HasLabel(q, c, row))
    ensures code.Some? <==> Asks(q, row)
  {
  }

  lemma AllLabelled(q: Asked, row: Row, vals: seq<nat>)
    requires |vals| == |q.cols|
    requires forall d :: 0 <= d < |q.cols| ==> vals[d] < |q.cols[d]| && Has(q.cols[d][vals[d]], row)
    ensures ValuesOk(vals, Radix(q)) && InAll(q, vals, row)
  {
    hide Has;
  }

  // A code made of values that have a visible row is the row's.
  lemma CodeCounts(q: Asked, row: Row, vals: seq<nat>)
    requires ValuesOk(vals, Radix(q)) && InAll(q, vals, row)
    ensures row in q.visible ==> CodeTo(vals, Radix(q), |q.cols|) == CodeOf(q, row)
  {
    LabelsAre(q, vals, row);
  }

  // Rows asked for are among los.
  lemma AskedIn(q: Asked, los: seq<nat>, key: nat, r: Row)
    requires forall lo: nat :: lo in ValuesOf(los) <==>
               lo < RANGE && HasLabel(q, 0, Row(key, lo)) && Kept(q, Row(key, lo))
    requires Asks(q, r) && r.key == key
    ensures r.lo in ValuesOf(los) && r.lo < RANGE
  {
    AskedInRange(q, r);
    assert r == Row(key, r.lo);
    assert HasLabel(q, 0, r);
  }

  lemma NoneBetween(q: Asked, los: seq<nat>, i: nat, key: nat, f: nat)
    requires Ascends(los) && i < |los| && f == if i == 0 then 0 else los[i - 1] + 1
    requires forall lo: nat :: lo in ValuesOf(los) <==>
               lo < RANGE && HasLabel(q, 0, Row(key, lo)) && Kept(q, Row(key, lo))
    ensures forall r :: Asks(q, r) ==> (Before(r, key, los[i]) <==> Before(r, key, f))
    ensures f <= los[i]
  {
    forall r | Asks(q, r)
      ensures Before(r, key, los[i]) <==> Before(r, key, f)
    {
      if r.key == key {
        AskedIn(q, los, key, r);
        var j :| 0 <= j < |los| && los[j] == r.lo;
        assert j < i - 1 ==> los[j] < los[i - 1];
        assert i < j ==> los[i] < los[j];
      }
    }
  }

  lemma NonePast(q: Asked, los: seq<nat>, key: nat, f: nat)
    requires Ascends(los) && f == if los == [] then 0 else los[|los| - 1] + 1
    requires forall lo: nat :: lo in ValuesOf(los) <==>
               lo < RANGE && HasLabel(q, 0, Row(key, lo)) && Kept(q, Row(key, lo))
    ensures forall r :: Asks(q, r) ==> (Before(r, key + 1, 0) <==> Before(r, key, f))
  {
    forall r | Asks(q, r)
      ensures Before(r, key + 1, 0) <==> Before(r, key, f)
    {
      if r.key == key {
        AskedIn(q, los, key, r);
        var j :| 0 <= j < |los| && los[j] == r.lo;
        assert j < |los| - 1 ==> los[j] < los[|los| - 1];
      }
    }
  }

  lemma NothingMet(q: Asked, max: nat)
    ensures BookOk(q, Book({}, {}, [], 0), 0, 0) && BatchesOk(q, Book({}, {}, [], 0), [], max)
  {
    hide Asks, FromMap;
  }

  lemma NothingTallied(q: Asked)
    ensures forall x :: |RowsOf(q, {}, x)| == 0
  {
    forall x
      ensures |RowsOf(q, {}, x)| == 0
    {
      assert RowsOf(q, {}, x) == {};
    }
  }

  lemma ListInOrder(q: Asked, b: Book, key: nat, lo: nat)
    requires BookOk(q, b, key, lo)
    ensures forall i :: 0 <= i < |b.list| ==>
              Before(b.list[i].row, key, lo) && b.list[i].row.lo < RANGE &&
              b.next <= HeapBlock(b.list[i].row) <= HeapBlock(b.list[|b.list| - 1].row) <= key * BLOCKS + lo / OFFSETS
    ensures b.next <= key * BLOCKS + lo / OFFSETS
  {
    ListAscends(q, b, key, lo);
    forall i | 0 <= i < |b.list|
      ensures b.list[i].row.lo < RANGE && b.next <= HeapBlock(b.list[i].row)
    {
      assert ListedOk(q, b, i);
      AskedInRange(q, b.list[i].row);
    }
    hide Asks, Met, ListedOk, HeapBlock;
    forall i | 0 <= i < |b.list|
      ensures HeapBlock(b.list[i].row) <= HeapBlock(b.list[|b.list| - 1].row) <= key * BLOCKS + lo / OFFSETS
    {
      var last := b.list[|b.list| - 1].row;
      BlocksRise(last, key, lo);
      if i < |b.list| - 1 {
        assert Before(b.list[i].row, last.key, last.lo);
        BlocksRise(b.list[i].row, last.key, last.lo);
        BlockIs(last);
      }
    }
  }

  lemma BlockIs(r: Row)
    ensures HeapBlock(r) == r.key * BLOCKS + r.lo / OFFSETS
  {
  }

  /* ---------- a pass ---------- */

  // The counts of every combination of the columns' values, each as often as
  // the tally spilled it; None when a code cannot hold the combinations.
  method CountGroups(q: Query, batchMax: nat, maxbytes: nat) returns (r: Option<seq<Pair>>)
    requires Sound(q) && batchMax >= BLOCK_ROWS
    ensures (exists c :: 0 <= c < |q.cols| && |q.cols[c]| == 0) ==> r == Some([])
    ensures QueryOk(q) ==> (r.None? <==> Cells(Radix(q), |q.cols|) > MAX_CELLS)
    ensures QueryOk(q) && r.Some? ==>
              forall vals :: ValuesOk(vals, Radix(q)) ==>
                SumFrom(r.value, 0, CodeTo(vals, Radix(q), |q.cols|)) == |Naive(q, vals)|
  {
    for c := 0 to |q.cols|
      invariant forall d :: 0 <= d < c ==> |q.cols[d]| > 0
    {
      if |q.cols[c]| == 0 {
        return Some([]);
      }
    }
    hide Sound, Naive, Answer, RowsOf;
    var ok, ncells := CountCells(Radix(q));
    if !ok {
      return None;
    }
    var tally := new Counts(ncells, maxbytes);
    var walk := new Walk(q, batchMax, tally);
    walk.Run();
    var pairs := ReadBack(tally);
    forall vals | ValuesOk(vals, Radix(q))
      ensures SumFrom(pairs, 0, CodeTo(vals, Radix(q), |q.cols|)) == |Naive(q, vals)|
    {
      AnswerIsNaive(q, vals);
    }
    r := Some(pairs);
  }
}
