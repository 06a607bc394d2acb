/**
  One container key of a decoded walk: cursors over the posting sets, and the
  value each of the key's rows has in each column, stamped with a generation.
*/
module DecodeKeys {
  import opened Sets
  import opened Containers
  import opened Images
  import opened Conversions
  import opened DecodeQuery

  /* ---------- cursors ---------- */

  // The cursor is past nothing of key, and stands at or past it.
  ghost predicate StandsAt(p: Posting, at: nat, key: nat) {
    && at <= |p| && (forall i :: 0 <= i < at ==> p[i].ckey != key)
    && (at < |p| ==> p[at].ckey >= key)
  }

  function Stands(p: Posting, at: nat, key: nat): bool { at < |p| && p[at].ckey == key }

  // What the set has at the key is the container the cursor stands at.
  lemma CursorDecides(p: Posting, at: nat, key: nat, lo: nat)
    requires PostingOk(p) && StandsAt(p, at, key)
    ensures Has(p, Row(key, lo)) <==> Stands(p, at, key) && lo in Members(p[at].rep)
  {
    if Stands(p, at, key) && lo in Members(p[at].rep) {
      assert HoldsAt(p, at, Row(key, lo));
    }
    assert forall i :: at < i < |p| ==> p[at].ckey < p[i].ckey;
  }

  // The first container at or past target.
  method Seek(p: Posting, at: nat, target: nat) returns (r: nat)
    requires at <= |p|
    ensures at <= r <= |p| && (forall i :: at <= i < r ==> p[i].ckey < target) && (r < |p| ==> p[r].ckey >= target)
  {
    r := at;
    while r < |p| && p[r].ckey < target
      invariant at <= r <= |p| && forall i :: at <= i < r ==> p[i].ckey < target
    {
      r := r + 1;
    }
  }

  /* ---------- generations ---------- */

  const GENERATIONS: nat := 0x1_0000

  // A column's values by place in the key, each with the generation it was
  // stored in.
  datatype Stamps = Stamps(val: seq<nat>, gen: seq<nat>)

  ghost predicate StampsOk(s: Stamps, cur: nat) {
    |s.val| == RANGE && |s.gen| == RANGE && cur < GENERATIONS && forall lo :: 0 <= lo < RANGE ==> s.gen[lo] <= cur
  }

  // No place has a value of this generation.
  ghost predicate Blank(s: Stamps, cur: nat) { StampsOk(s, cur) && forall lo :: 0 <= lo < RANGE ==> s.gen[lo] != cur }

  function ZeroStamps(): (s: Stamps)
    ensures StampsOk(s, 0)
  {
    Stamps(seq(RANGE, _ => 0), seq(RANGE, _ => 0))
  }

  // The next generation, without clearing an array but where the counter wraps.
  method NextGeneration(all: seq<Stamps>, cur: nat) returns (next: seq<Stamps>, gen: nat)
    requires cur < GENERATIONS && forall c :: 0 <= c < |all| ==> StampsOk(all[c], cur)
    ensures |next| == |all| && forall c :: 0 <= c < |next| ==> Blank(next[c], gen)
    ensures gen == if cur + 1 == GENERATIONS then 1 else cur + 1
  {
    next := all;
    gen := (cur + 1) % GENERATIONS;
    if gen == 0 {
      for c := 0 to |all|
        invariant |next| == |all| && forall d :: 0 <= d < c ==> Blank(next[d], 1)
        invariant forall d :: c <= d < |all| ==> next[d] == all[d]
      {
        next := next[c := Stamps(all[c].val, seq(RANGE, _ => 0))];
      }
      gen := 1;
    }
  }

  /* ---------- decoding ---------- */

  // Some of the first n values has the row.
  ghost predicate Labelled(sets: seq<Posting>, n: nat, r: Row)
    requires n <= |sets|
  {
    exists v :: 0 <= v < n && Has(sets[v], r)
  }

  // The first n values of a column are decoded at the key: each row some of them
  // has, with one that has it.
  ghost predicate Decoded(sets: seq<Posting>, n: nat, key: nat, s: Stamps, cur: nat)
    requires n <= |sets|
  {
    && StampsOk(s, cur)
    && (forall lo :: 0 <= lo < RANGE ==> (s.gen[lo] == cur <==> Labelled(sets, n, Row(key, lo))))
    && (forall lo :: 0 <= lo < RANGE && s.gen[lo] == cur ==> s.val[lo] < n && Has(sets[s.val[lo]], Row(key, lo)))
  }

  lemma NoneDecoded(sets: seq<Posting>, key: nat, s: Stamps, cur: nat)
    requires Blank(s, cur)
    ensures Decoded(sets, 0, key, s, cur)
  {
  }

  // A value's members at the key stamped.
  ghost predicate Stamped(a: Stamps, b: Stamps, members: set<nat>, v: nat, cur: nat) {
    && |a.val| == |b.val| == RANGE && |a.gen| == |b.gen| == RANGE
    && forall lo :: 0 <= lo < RANGE ==>
         b.val[lo] == (if lo in members then v else a.val[lo]) &&
         b.gen[lo] == (if lo in members then cur else a.gen[lo])
  }

  method Stamp(members: seq<nat>, v: nat, s: Stamps, cur: nat) returns (t: Stamps)
    requires StampsOk(s, cur) && forall j :: 0 <= j < |members| ==> members[j] < RANGE
    ensures Stamped(s, t, ValuesOf(members), v, cur)
  {
    t := s;
    for j := 0 to |members|
      invariant Stamped(s, t, ValuesOf(members[..j]), v, cur)
    {
      assert members[..j + 1] == members[..j] + [members[j]];
      t := Stamps(t.val[members[j] := v], t.gen[members[j] := cur]);
    }
    assert members[..|members|] == members;
  }

  lemma DecodedMore(sets: seq<Posting>, n: nat, key: nat, s: Stamps, t: Stamps, cur: nat, members: set<nat>)
    requires n < |sets| && Decoded(sets, n, key, s, cur) && Stamped(s, t, members, n, cur)
    requires forall lo :: 0 <= lo < RANGE ==> (lo in members <==> Has(sets[n], Row(key, lo)))
    ensures Decoded(sets, n + 1, key, t, cur)
  {
    hide Has;
    forall lo | 0 <= lo < RANGE
      ensures t.gen[lo] == cur <==> Labelled(sets, n + 1, Row(key, lo))
    {
      assert s.gen[lo] == cur <==> Labelled(sets, n, Row(key, lo));
      assert Labelled(sets, n + 1, Row(key, lo)) <==> Labelled(sets, n, Row(key, lo)) || Has(sets[n], Row(key, lo));
    }
    forall lo | 0 <= lo < RANGE && t.gen[lo] == cur
      ensures t.val[lo] < n + 1 && Has(sets[t.val[lo]], Row(key, lo))
    {
      assert lo !in members ==> s.gen[lo] == cur;
    }
  }

  // A column's cursors sought to the key, and what stands there decoded.
  method DecodeColumn(sets: seq<Posting>, pos: seq<nat>, key: nat, s: Stamps, cur: nat)
    returns (next: seq<nat>, t: Stamps)
    requires Blank(s, cur) && |pos| == |sets| && cur > 0
    requires forall v :: 0 <= v < |sets| ==>
               PostingOk(sets[v]) && pos[v] <= |sets[v]| && NotPassed(sets[v], pos[v], key)
    ensures Decoded(sets, |sets|, key, t, cur)
    ensures |next| == |pos|
    ensures forall v :: 0 <= v < |sets| ==> pos[v] <= next[v] && Passed(sets[v], pos[v], next[v], key)
  {
    hide Has, Decoded, Blank, PostingOk, Stamped;
    next, t := pos, s;
    NoneDecoded(sets, key, s, cur);
    for v := 0 to |sets|
      invariant Decoded(sets, v, key, t, cur) && |next| == |pos|
      invariant forall w :: 0 <= w < v ==> pos[w] <= next[w] && Passed(sets[w], pos[w], next[w], key)
      invariant forall w :: v <= w < |pos| ==> next[w] == pos[w]
    {
      var at := Seek(sets[v], pos[v], key);
      next := next[v := at];
      t := DecodeValue(sets, v, at, key, t, cur);
    }
  }

  // From a to b the cursor passes keys below key alone.
  ghost predicate Passed(p: Posting, a: nat, b: nat, key: nat) {
    b <= |p| && forall i :: a <= i < b ==> p[i].ckey < key
  }

  // The cursor has passed no container of the key.
  ghost predicate NotPassed(p: Posting, at: nat, key: nat)
    requires at <= |p|
  {
    forall i :: 0 <= i < at ==> p[i].ckey != key
  }

  method DecodeValue(sets: seq<Posting>, v: nat, at: nat, key: nat, s: Stamps, cur: nat) returns (t: Stamps)
    requires v < |sets| && PostingOk(sets[v]) && StandsAt(sets[v], at, key)
    requires Decoded(sets, v, key, s, cur)
    ensures Decoded(sets, v + 1, key, t, cur)
  {
    ghost var members: set<nat> := {};
    DecodedStamps(sets, v, key, s, cur);
    if Stands(sets[v], at, key) {
      var vals := Extract(sets[v][at], RANGE);
      AtMostRangeMembers(sets[v][at]);
      ExtractedBelow(sets[v][at], vals.value);
      t := Stamp(vals.value, v, s, cur);
      members := Members(sets[v][at].rep);
    } else {
      t := s;
    }
    forall lo | 0 <= lo < RANGE
      ensures lo in members <==> Has(sets[v], Row(key, lo))
    {
      CursorDecides(sets[v], at, key, lo);
    }
    DecodedMore(sets, v, key, s, t, cur, members);
  }

  lemma DecodedStamps(sets: seq<Posting>, n: nat, key: nat, s: Stamps, cur: nat)
    requires n <= |sets| && Decoded(sets, n, key, s, cur)
    ensures StampsOk(s, cur)
  {
  }

  lemma AtMostRangeMembers(c: Container)
    ensures |Members(c.rep)| <= RANGE
  {
    IntervalSize(0, RANGE);
    SubsetSize(Members(c.rep), Interval(0, RANGE));
  }

  lemma ExtractedBelow(c: Container, vals: seq<nat>)
    requires ValuesOf(vals) == Members(c.rep)
    ensures forall j :: 0 <= j < |vals| ==> vals[j] < RANGE
  {
    assert forall j :: 0 <= j < |vals| ==> vals[j] in ValuesOf(vals);
  }

  /* ---------- column 0 ---------- */

  // The rows column 0 has at the key, as an image, and a value of each.
  ghost predicate Present(sets: seq<Posting>, n: nat, key: nat, w: Blocks, val: seq<nat>)
    requires n <= |sets|
  {
    && Image(w, BITSET_WIDTH) && |val| == RANGE
    && (forall lo :: 0 <= lo < RANGE ==> (lo in ImageSet(w) <==> Labelled(sets, n, Row(key, lo))))
    && (forall lo :: 0 <= lo < RANGE && lo in ImageSet(w) ==> val[lo] < n && Has(sets[val[lo]], Row(key, lo)))
  }

  method DecodeFirst(sets: seq<Posting>, pos: seq<nat>, key: nat, val0: seq<nat>) returns (w: Blocks, val: seq<nat>)
    requires |pos| == |sets| && |val0| == RANGE
    requires forall v :: 0 <= v < |sets| ==> PostingOk(sets[v]) && StandsAt(sets[v], pos[v], key)
    ensures Present(sets, |sets|, key, w, val)
  {
    hide Has, Present, PostingOk;
    w, val := Zero(BITSET_WIDTH), val0;
    NonePresent(sets, key, val);
    for v := 0 to |sets|
      invariant Present(sets, v, key, w, val)
    {
      w, val := PresentValue(sets, v, pos[v], key, w, val);
    }
  }

  lemma NonePresent(sets: seq<Posting>, key: nat, val: seq<nat>)
    requires |val| == RANGE
    ensures Present(sets, 0, key, Zero(BITSET_WIDTH), val)
  {
    ZeroIsEmpty(BITSET_WIDTH);
  }

  method PresentValue(sets: seq<Posting>, v: nat, at: nat, key: nat, w0: Blocks, val0: seq<nat>)
    returns (w: Blocks, val: seq<nat>)
    requires v < |sets| && PostingOk(sets[v]) && StandsAt(sets[v], at, key)
    requires Present(sets, v, key, w0, val0)
    ensures Present(sets, v + 1, key, w, val)
  {
    ghost var members: set<nat> := {};
    PresentShape(sets, v, key, w0, val0);
    w, val := w0, val0;
    assert ImageSet(w0) + {} == ImageSet(w0);
    if Stands(sets[v], at, key) {
      var vals := Extract(sets[v][at], RANGE);
      AtMostRangeMembers(sets[v][at]);
      ExtractedBelow(sets[v][at], vals.value);
      w, val := SetMembers(vals.value, v, w0, val0);
      members := Members(sets[v][at].rep);
    }
    forall lo | 0 <= lo < RANGE
      ensures lo in members <==> Has(sets[v], Row(key, lo))
    {
      CursorDecides(sets[v], at, key, lo);
    }
    PresentMore(sets, v, key, w0, val0, w, val, members);
  }

  lemma PresentShape(sets: seq<Posting>, n: nat, key: nat, w: Blocks, val: seq<nat>)
    requires n <= |sets| && Present(sets, n, key, w, val)
    ensures Image(w, BITSET_WIDTH) && |val| == RANGE
  {
  }

  ghost predicate ValuesSet(a: seq<nat>, b: seq<nat>, members: set<nat>, v: nat) {
    |a| == |b| == RANGE && forall lo :: 0 <= lo < RANGE ==> b[lo] == if lo in members then v else a[lo]
  }

  method SetMembers(members: seq<nat>, v: nat, w0: Blocks, val0: seq<nat>) returns (w: Blocks, val: seq<nat>)
    requires Image(w0, BITSET_WIDTH) && |val0| == RANGE && forall j :: 0 <= j < |members| ==> members[j] < RANGE
    ensures Image(w, BITSET_WIDTH) && ImageSet(w) == ImageSet(w0) + ValuesOf(members)
    ensures ValuesSet(val0, val, ValuesOf(members), v)
  {
    hide ImageSet, Image;
    w, val := w0, val0;
    for j := 0 to |members|
      invariant Image(w, BITSET_WIDTH) && ImageSet(w) == ImageSet(w0) + ValuesOf(members[..j])
      invariant ValuesSet(val0, val, ValuesOf(members[..j]), v)
    {
      assert members[..j + 1] == members[..j] + [members[j]];
      assert ValuesOf(members[..j + 1]) == ValuesOf(members[..j]) + {members[j]};
      val := val[members[j] := v];
      SetBitAdds(w, BITSET_WIDTH, members[j]);
      w := SetBit(w, BITSET_WIDTH, members[j]);
    }
    assert members[..|members|] == members;
  }

  lemma PresentMore(sets: seq<Posting>, n: nat, key: nat, w0: Blocks, val0: seq<nat>, w: Blocks, val: seq<nat>,
                    members: set<nat>)
    requires n < |sets| && Present(sets, n, key, w0, val0)
    requires Image(w, BITSET_WIDTH) && ImageSet(w) == ImageSet(w0) + members && ValuesSet(val0, val, members, n)
    requires forall lo :: 0 <= lo < RANGE ==> (lo in members <==> Has(sets[n], Row(key, lo)))
    ensures Present(sets, n + 1, key, w, val)
  {
    hide Has, ImageSet;
    forall lo | 0 <= lo < RANGE
      ensures lo in ImageSet(w) <==> Labelled(sets, n + 1, Row(key, lo))
    {
      assert lo in ImageSet(w0) <==> Labelled(sets, n, Row(key, lo));
      assert Labelled(sets, n + 1, Row(key, lo)) <==> Labelled(sets, n, Row(key, lo)) || Has(sets[n], Row(key, lo));
    }
    forall lo | 0 <= lo < RANGE && lo in ImageSet(w)
      ensures val[lo] < n + 1 && Has(sets[val[lo]], Row(key, lo))
    {
      assert lo !in members ==> lo in ImageSet(w0);
    }
  }
}
