/**
  Unions of many containers: folded, merged in a two-level bitmap, or
  accumulated in a BITSET, all to the same bytes; and a container's
  intersection with a union, without the union.
*/
module Unions {
  import opened Options
  import opened Sets
  import opened Containers
  import opened Images
  import opened Extraction
  import opened Canonical
  import opened Searches
  import opened Conversions
  import opened Merges
  import opened Algebra
  import opened Mutators

  /* ---------- what a union holds ---------- */

  ghost predicate InAny(cs: seq<Container>, n: nat, lo: nat)
    requires n <= |cs|
  {
    exists i :: 0 <= i < n && lo in Members(cs[i].rep)
  }

  // The members of the first n together.
  ghost function UnionTo(cs: seq<Container>, n: nat): set<nat>
    requires n <= |cs|
  {
    set lo: nat | lo < RANGE && InAny(cs, n, lo)
  }

  lemma UnionGrows(cs: seq<Container>, n: nat)
    requires n < |cs|
    ensures UnionTo(cs, n + 1) == UnionTo(cs, n) + Members(cs[n].rep)
  {
  }

  lemma UnionOfNone(cs: seq<Container>)
    ensures UnionTo(cs, 0) == {}
  {
  }

  ghost predicate AllWell(cs: seq<Container>, ckey: nat) {
    forall i :: 0 <= i < |cs| ==> WellFormed(cs[i]) && cs[i].ckey == ckey
  }

  // c is the container optimize() makes of s: there is one.
  ghost predicate IsCanon(c: Container, ckey: nat, s: set<nat>) {
    Optimal(c) && c.ckey == ckey && Members(c.rep) == s
  }

  lemma CanonIsUnique(x: Container, y: Container, ckey: nat, s: set<nat>)
    requires IsCanon(x, ckey, s) && IsCanon(y, ckey, s)
    ensures x == y
  {
    OptimalIsCanonical(x, y);
  }

  /* ---------- bits a position ---------- */

  // The positions marked in words of 64 bits.
  ghost function MarkSet(marks: seq<Word>): set<nat> {
    set p: nat | p < 64 * |marks| && p % 64 in marks[p / 64]
  }

  function Unmarked(n: nat): (marks: seq<Word>)
    ensures |marks| == n && forall i :: 0 <= i < n ==> marks[i] == {}
  {
    seq(n, _ => {})
  }

  function Marked(marks: seq<Word>, p: nat): seq<Word>
    requires p < 64 * |marks|
  {
    marks[p / 64 := marks[p / 64] + {p % 64}]
  }

  lemma MarkAdds(marks: seq<Word>, p: nat)
    requires p < 64 * |marks|
    ensures MarkSet(Marked(marks, p)) == MarkSet(marks) + {p}
  {
    forall q: nat
      ensures q in MarkSet(Marked(marks, p)) <==> q in MarkSet(marks) || q == p
    {
      assert q == 64 * (q / 64) + q % 64 && p == 64 * (p / 64) + p % 64;
    }
  }

  // cur holds the bits of word i of s, from f on.
  ghost predicate Reading(s: set<nat>, i: nat, cur: Word, f: nat) {
    && 64 * i <= f <= 64 * i + 64
    && forall bit: nat :: bit in cur <==> bit < 64 && Plus(64 * i, bit) in s && Plus(64 * i, bit) >= f
  }

  lemma ReadBit(s: set<nat>, i: nat, cur: Word, f: nat)
    requires Reading(s, i, cur, f) && cur != {}
    ensures var v := 64 * i + LeastBit(cur);
            && v in s && f <= v && Slice(s, 0, v + 1) == Slice(s, 0, f) + {v}
            && (forall x :: x in Slice(s, 0, f) ==> x < v)
            && Reading(s, i, cur - {LeastBit(cur)}, v + 1)
  {
    var m := LeastBit(cur);
    var v := 64 * i + m;
    assert v == Plus(64 * i, m);
    forall x | x in s && f <= x <= v
      ensures x == v
    {
      assert x == Plus(64 * i, x - 64 * i);
      assert x - 64 * i in cur;
    }
  }

  lemma ReadAll(s: set<nat>, i: nat, f: nat)
    requires Reading(s, i, {}, f)
    ensures Slice(s, 0, 64 * i + 64) == Slice(s, 0, f) && f <= 64 * i + 64
  {
    forall x | x in Slice(s, 0, 64 * i + 64)
      ensures x in Slice(s, 0, f)
    {
      if 64 * i <= x {
        assert x == Plus(64 * i, x - 64 * i);
      }
    }
  }

  /* ---------- a union merged in a two-level bitmap ---------- */

  const WORDS: nat := 512          // an image's
  const SUMMARY: nat := 8          // words of a bit for each of those

  // Of the words seen names, w holds s; the others are whatever they were.
  ghost predicate TwoLevel(w: seq<Word>, seen: seq<Word>, s: set<nat>) {
    && |w| == WORDS && |seen| == SUMMARY && (forall lo :: lo in s ==> lo < RANGE)
    && forall lo: nat :: lo < RANGE ==> (lo in s <==> lo / 64 in MarkSet(seen) && lo % 64 in w[lo / 64])
  }

  lemma NoneSeen(w: seq<Word>)
    requires |w| == WORDS
    ensures TwoLevel(w, Unmarked(SUMMARY), {})
  {
  }

  // The first member of a word assigns it.
  method MergeSet(w0: seq<Word>, seen0: seq<Word>, lo: nat, ghost s: set<nat>) returns (w: seq<Word>, seen: seq<Word>)
    requires TwoLevel(w0, seen0, s) && lo < RANGE
    ensures TwoLevel(w, seen, s + {lo})
  {
    w, seen := w0, seen0;
    var word := lo / 64;
    if word % 64 in seen[word / 64] {
      w := w[word := w[word] + {lo % 64}];
    } else {
      MarkAdds(seen, word);
      seen := Marked(seen, word);
      w := w[word := {lo % 64}];
    }
    forall x: nat | x < RANGE
      ensures x in s + {lo} <==> x / 64 in MarkSet(seen) && x % 64 in w[x / 64]
    {
      assert x == 64 * (x / 64) + x % 64 && lo == 64 * (lo / 64) + lo % 64;
    }
  }

  method MergeValues(vals: seq<nat>, w0: seq<Word>, seen0: seq<Word>, ghost s: set<nat>)
    returns (w: seq<Word>, seen: seq<Word>)
    requires TwoLevel(w0, seen0, s) && forall i :: 0 <= i < |vals| ==> vals[i] < RANGE
    ensures TwoLevel(w, seen, s + ValuesOf(vals))
  {
    hide TwoLevel;
    w, seen := w0, seen0;
    ghost var t := s;
    for j := 0 to |vals|
      invariant TwoLevel(w, seen, t) && t == s + ValuesOf(vals[..j])
    {
      TakeNext(vals, j);
      w, seen := MergeSet(w, seen, vals[j], t);
      t := t + {vals[j]};
    }
    assert vals[..|vals|] == vals;
  }

  // The values the first n hand out, repeats counted.
  ghost function Yield(cs: seq<Container>, n: nat): nat
    requires n <= |cs|
  {
    if n == 0 then 0 else Yield(cs, n - 1) + |Members(cs[n - 1].rep)|
  }

  lemma {:induction false} YieldGrows(cs: seq<Container>, m: nat, n: nat)
    requires m <= n <= |cs|
    ensures Yield(cs, m) <= Yield(cs, n)
    decreases n
  {
    if m < n {
      YieldGrows(cs, m, n - 1);
    }
  }

  lemma {:induction false} UnionIsAtMost(cs: seq<Container>, n: nat)
    requires n <= |cs|
    ensures |UnionTo(cs, n)| <= Yield(cs, n)
  {
    if n == 0 {
      UnionOfNone(cs);
    } else {
      UnionIsAtMost(cs, n - 1);
      UnionGrows(cs, n - 1);
      UnionAtMost(UnionTo(cs, n - 1), Members(cs[n - 1].rep));
    }
  }

  // Every container's members set, while there is room for what they yield.
  method MergeAll(cs: seq<Container>, ghost ckey: nat, w0: seq<Word>) returns (ok: bool, w: seq<Word>, seen: seq<Word>)
    requires AllWell(cs, ckey) && |w0| == WORDS
    ensures ok <==> Yield(cs, |cs|) <= ARRAY_MAX
    ensures ok ==> TwoLevel(w, seen, UnionTo(cs, |cs|))
  {
    hide TwoLevel, Members, UnionTo, WellFormed;
    ok, w, seen := true, w0, Unmarked(SUMMARY);
    var total := 0;
    UnionOfNone(cs);
    NoneSeen(w);
    for i := 0 to |cs|
      invariant total == Yield(cs, i) && total <= ARRAY_MAX && TwoLevel(w, seen, UnionTo(cs, i))
    {
      YieldGrows(cs, i + 1, |cs|);
      var vals := Extract(cs[i], ARRAY_MAX - total);
      if vals.None? {
        return false, w, seen;
      }
      UnionGrows(cs, i);
      ExtractedInRange(cs[i], vals.value);
      w, seen := MergeValues(vals.value, w, seen, UnionTo(cs, i));
      total := total + |vals.value|;
    }
  }

  lemma ExtractedInRange(c: Container, vals: seq<nat>)
    requires Ascends(vals) && ValuesOf(vals) == Members(c.rep)
    ensures forall i :: 0 <= i < |vals| ==> vals[i] < RANGE
    ensures |vals| == |Members(c.rep)|
  {
    AscendingSize(vals);
    assert forall i :: 0 <= i < |vals| ==> vals[i] in ValuesOf(vals);
  }

  // One word's members, after those before it.
  method ReadWord(ghost s: set<nat>, word: nat, x: Word, out0: seq<nat>) returns (out: seq<nat>)
    requires Lists(out0, Slice(s, 0, 64 * word)) && Reading(s, word, x, 64 * word)
    ensures Lists(out, Slice(s, 0, 64 * word + 64))
  {
    hide Slice, Ascends, ValuesOf, LeastBit, Reading;
    out := out0;
    var cur: Word := x;
    ghost var f: nat := 64 * word;
    while cur != {}
      invariant Reading(s, word, cur, f) && Lists(out, Slice(s, 0, f))
      decreases |cur|
    {
      var m := LeastBit(cur);
      ReadBit(s, word, cur, f);
      Snoc(out, 64 * word + m, Slice(s, 0, f));
      out := out + [64 * word + m];
      cur := cur - {m};
      f := 64 * word + m + 1;
    }
    ReadAll(s, word, f);
  }

  // No word between: no member.
  lemma SkipWords(w: seq<Word>, seen: seq<Word>, s: set<nat>, g: nat, h: nat)
    requires TwoLevel(w, seen, s) && g <= h <= WORDS && Slice(MarkSet(seen), 0, h) == Slice(MarkSet(seen), 0, g)
    ensures Slice(s, 0, 64 * h) == Slice(s, 0, 64 * g)
  {
    forall lo | lo in Slice(s, 0, 64 * h)
      ensures lo in Slice(s, 0, 64 * g)
    {
      assert lo / 64 in Slice(MarkSet(seen), 0, h);
    }
  }

  lemma WordRead(w: seq<Word>, seen: seq<Word>, s: set<nat>, word: nat)
    requires TwoLevel(w, seen, s) && word < WORDS && word in MarkSet(seen)
    ensures Reading(s, word, w[word], 64 * word)
  {
    forall bit: nat
      ensures bit in w[word] <==> bit < 64 && Plus(64 * word, bit) in s
    {
      if bit < 64 {
        var lo := Plus(64 * word, bit);
        assert lo / 64 == word && lo % 64 == bit;
      }
    }
  }

  lemma SeenReading(seen: seq<Word>, i: nat)
    requires i < |seen|
    ensures Reading(MarkSet(seen), i, seen[i], 64 * i)
  {
    forall bit: nat
      ensures bit in seen[i] <==> bit < 64 && Plus(64 * i, bit) in MarkSet(seen)
    {
      if bit < 64 {
        var p := Plus(64 * i, bit);
        assert p / 64 == i && p % 64 == bit;
      }
    }
  }

  // The words one word of the summary names.
  method ReadSummary(w: seq<Word>, seen: seq<Word>, ghost s: set<nat>, i: nat, out0: seq<nat>) returns (out: seq<nat>)
    requires TwoLevel(w, seen, s) && i < SUMMARY && Lists(out0, Slice(s, 0, 64 * (64 * i)))
    ensures Lists(out, Slice(s, 0, 64 * (64 * i + 64)))
  {
    SeenReading(seen, i);
    hide Slice, Lists, LeastBit, Reading, MarkSet;
    out := out0;
    var words: Word := seen[i];
    ghost var g: nat := 64 * i;
    while words != {}
      invariant Reading(MarkSet(seen), i, words, g) && g <= WORDS && Lists(out, Slice(s, 0, 64 * g))
      decreases |words|
    {
      var m := LeastBit(words);
      var word := 64 * i + m;
      ReadBit(MarkSet(seen), i, words, g);
      NoneBetween(MarkSet(seen), g, word);
      SkipWords(w, seen, s, g, word);
      WordRead(w, seen, s, word);
      words := words - {m};
      out := ReadSeenWord(w[word], word, s, out);
      g := word + 1;
    }
    ReadAll(MarkSet(seen), i, g);
    SkipWords(w, seen, s, g, 64 * i + 64);
  }

  method ReadSeenWord(x: Word, word: nat, ghost s: set<nat>, out0: seq<nat>) returns (out: seq<nat>)
    requires Lists(out0, Slice(s, 0, 64 * word)) && Reading(s, word, x, 64 * word)
    ensures Lists(out, Slice(s, 0, 64 * (word + 1)))
  {
    hide Slice, Lists, Reading;
    assert 64 * (word + 1) == 64 * word + 64;
    out := ReadWord(s, word, x, out0);
  }

  lemma NoneBetween(s: set<nat>, g: nat, v: nat)
    requires g <= v && Slice(s, 0, v + 1) == Slice(s, 0, g) + {v}
    ensures Slice(s, 0, v) == Slice(s, 0, g)
  {
    forall x | x in Slice(s, 0, v)
      ensures x in Slice(s, 0, g)
    {
      assert x in Slice(s, 0, v + 1);
    }
  }

  // garbage is what the image's words hold before anything is set in it.
  method OrMerge(cs: seq<Container>, ckey: nat, garbage: seq<Word>) returns (r: Option<Container>)
    requires AllWell(cs, ckey) && |garbage| == WORDS
    ensures r.Some? <==> Yield(cs, |cs|) <= ARRAY_MAX
    ensures r.Some? ==> IsCanon(r.value, ckey, UnionTo(cs, |cs|))
  {
    hide TwoLevel, Members, UnionTo, WellFormed, Slice, Lists, Optimal;
    var ok, w, seen := MergeAll(cs, ckey, garbage);
    if !ok {
      return None;
    }
    ghost var s := UnionTo(cs, |cs|);
    var out: seq<nat> := [];
    NothingListed(s);
    for i := 0 to SUMMARY
      invariant Lists(out, Slice(s, 0, 64 * (64 * i)))
    {
      out := ReadSummary(w, seen, s, i, out);
      assert 64 * (64 * i + 64) == 64 * (64 * (i + 1));
    }
    AllListed(cs, out, w, seen);
    ListMakesArray(ckey, out, s);
    var c := Optimize(Container(ckey, |out|, Array(out)), true);
    return Some(c);
  }

  lemma NothingListed(s: set<nat>)
    ensures Lists([], Slice(s, 0, 0))
  {
    assert Slice(s, 0, 0) == {};
  }

  lemma AllListed(cs: seq<Container>, out: seq<nat>, w: seq<Word>, seen: seq<Word>)
    requires TwoLevel(w, seen, UnionTo(cs, |cs|)) && Lists(out, Slice(UnionTo(cs, |cs|), 0, 64 * (64 * SUMMARY)))
    requires Yield(cs, |cs|) <= ARRAY_MAX
    ensures Lists(out, UnionTo(cs, |cs|)) && |UnionTo(cs, |cs|)| <= ARRAY_MAX
    ensures forall x :: x in UnionTo(cs, |cs|) ==> x < RANGE
  {
    UnionIsAtMost(cs, |cs|);
    assert Slice(UnionTo(cs, |cs|), 0, 64 * (64 * SUMMARY)) == UnionTo(cs, |cs|);
  }

  /* ---------- the union accumulated, and folded ---------- */

  // One BITSET that each container is ORed into, optimized at the end.
  method Accumulate(cs: seq<Container>, ckey: nat) returns (r: Container)
    requires AllWell(cs, ckey)
    ensures IsCanon(r, ckey, UnionTo(cs, |cs|))
  {
    hide Members, UnionTo, Optimal;
    var zero := ZeroBitset(ckey);
    var acc := new Buffer.Copy(zero);
    UnionOfNone(cs);
    for i := 0 to |cs|
      invariant acc.Valid() && acc.ckey == ckey && KindOf(acc.rep) == AsBitmap(BITSET_WIDTH)
      invariant acc.Elements() == UnionTo(cs, i)
    {
      var added := acc.OrInPlace(cs[i]);
      UnionGrows(cs, i);
    }
    acc.OptimizeInPlace();
    return acc.Value();
  }

  method ZeroBitset(ckey: nat) returns (c: Container)
    ensures WellFormed(c) && c.ckey == ckey && KindOf(c.rep) == AsBitmap(BITSET_WIDTH) && Members(c.rep) == {}
  {
    ZeroIsEmpty(BITSET_WIDTH);
    ImageIsMembers(Zero(BITSET_WIDTH), BITSET_WIDTH);
    return Container(ckey, 0, Bitmap(BITSET_WIDTH, Zero(BITSET_WIDTH)));
  }

  // An order and a grouping to fold containers in.
  datatype Folding = One(i: nat) | Both(left: Folding, right: Folding)

  ghost function Leaves(f: Folding): set<nat> {
    match f
    case One(i) => {i}
    case Both(l, r) => Leaves(l) + Leaves(r)
  }

  ghost predicate InBounds(f: Folding, n: nat) {
    match f
    case One(i) => i < n
    case Both(l, r) => InBounds(l, n) && InBounds(r, n)
  }

  ghost function UnionOf(cs: seq<Container>, f: Folding): set<nat>
    requires InBounds(f, |cs|)
  {
    match f
    case One(i) => Members(cs[i].rep)
    case Both(l, r) => UnionOf(cs, l) + UnionOf(cs, r)
  }

  lemma {:induction false} UnionOfLeaves(cs: seq<Container>, f: Folding, lo: nat)
    requires InBounds(f, |cs|)
    ensures lo in UnionOf(cs, f) <==> exists i :: 0 <= i < |cs| && i in Leaves(f) && lo in Members(cs[i].rep)
  {
    if f.Both? {
      UnionOfLeaves(cs, f.left, lo);
      UnionOfLeaves(cs, f.right, lo);
    }
  }

  // Every container folded in, in whatever order, as often as one likes.
  lemma UnionOfAll(cs: seq<Container>, f: Folding)
    requires InBounds(f, |cs|) && Leaves(f) == Interval(0, |cs|)
    ensures UnionOf(cs, f) == UnionTo(cs, |cs|)
  {
    forall lo: nat
      ensures lo in UnionOf(cs, f) <==> lo in UnionTo(cs, |cs|)
    {
      UnionOfLeaves(cs, f, lo);
    }
  }

  method FoldUnion(cs: seq<Container>, ckey: nat, f: Folding) returns (r: Container)
    requires AllWell(cs, ckey) && InBounds(f, |cs|)
    ensures WellFormed(r) && r.ckey == ckey && Members(r.rep) == UnionOf(cs, f)
    ensures f.Both? ==> Optimal(r)
    decreases f
  {
    match f {
      case One(i) =>
        r := cs[i];
      case Both(left, right) =>
        var x := FoldUnion(cs, ckey, left);
        var y := FoldUnion(cs, ckey, right);
        r := Union(x, y);
    }
  }

  // The three ways to a union, whatever order and grouping the first takes,
  // and whatever the second's image held: the same bytes.
  method UnionsAgree(cs: seq<Container>, ckey: nat, f: Folding, garbage: seq<Word>)
    returns (folded: Container, accumulated: Container, merged: Option<Container>)
    requires AllWell(cs, ckey) && |garbage| == WORDS
    requires f.Both? && InBounds(f, |cs|) && Leaves(f) == Interval(0, |cs|)
    ensures folded == accumulated && (merged.Some? ==> merged.value == folded)
    ensures Members(folded.rep) == UnionTo(cs, |cs|)
    ensures merged.Some? <==> Yield(cs, |cs|) <= ARRAY_MAX
  {
    folded := FoldUnion(cs, ckey, f);
    UnionOfAll(cs, f);
    accumulated := Accumulate(cs, ckey);
    merged := OrMerge(cs, ckey, garbage);
    hide Members, Optimal;
    ghost var s := UnionTo(cs, |cs|);
    CanonIsUnique(folded, accumulated, ckey, s);
    if merged.Some? {
      CanonIsUnique(folded, merged.value, ckey, s);
    }
  }

  /* ---------- an intersection with a union, without the union ---------- */

  // Positions in vals whose values s has, and whose values it has not.
  ghost function Hits(vals: seq<nat>, s: set<nat>): set<nat> { set p: nat | p < |vals| && vals[p] in s }

  ghost function Misses(vals: seq<nat>, s: set<nat>): set<nat> { set p: nat | p < |vals| && vals[p] !in s }

  // Of pending, the first i have been probed: those whose values s has are
  // marked beside what was marked before, and kept holds the others in order.
  ghost predicate Probed(vals: seq<nat>, s: set<nat>, pending: seq<nat>, i: nat, kept: seq<nat>,
                         before: set<nat>, found: seq<Word>) {
    && Ascends(vals) && |vals| <= 64 * |found| && (forall q :: 0 <= q < |pending| ==> pending[q] < |vals|)
    && Kept(pending, i, kept, Misses(vals, s))
    && MarkSet(found) == before + ValuesOf(pending[..i]) * Hits(vals, s)
  }

  ghost predicate ProbeReady(vals: seq<nat>, pending: seq<nat>, found: seq<Word>) {
    Ascends(vals) && Ascends(pending) && |vals| <= 64 * |found| &&
    forall q :: 0 <= q < |pending| ==> pending[q] < |vals|
  }

  lemma ProbeStarts(vals: seq<nat>, s: set<nat>, pending: seq<nat>, found: seq<Word>)
    requires ProbeReady(vals, pending, found)
    ensures Probed(vals, s, pending, 0, [], MarkSet(found), found)
  {
  }

  // The position written back, and kept when its value was not found.
  method ProbeKeep(ghost vals: seq<nat>, ghost s: set<nat>, ghost pending: seq<nat>, ghost i: nat, p: nat, hit: bool,
                   kept0: seq<nat>, ghost before: set<nat>, found0: seq<Word>)
    returns (kept: seq<nat>, found: seq<Word>)
    requires Probed(vals, s, pending, i, kept0, before, found0) && i < |pending| && p == pending[i]
    requires hit <==> vals[p] in s
    ensures Probed(vals, s, pending, i + 1, kept, before, found) && |found| == |found0|
  {
    KeepNext(pending, i, kept0, Misses(vals, s));
    MarkAdds(found0, p);
    TakeNext(pending, i);
    hide Kept, MarkSet;
    kept, found := kept0, found0;
    if hit {
      found := Marked(found, p);
    } else {
      kept := kept + [p];
    }
  }

  // Those left are none of s's.
  lemma ProbeRest(vals: seq<nat>, s: set<nat>, pending: seq<nat>, i: nat, kept: seq<nat>, before: set<nat>,
                  found: seq<Word>)
    requires Probed(vals, s, pending, i, kept, before, found)
    requires forall q :: i <= q < |pending| ==> vals[pending[q]] !in s
    ensures Probed(vals, s, pending, |pending|, kept + pending[i..], before, found)
  {
    KeptRest(pending, i, kept, Misses(vals, s));
    assert pending[..|pending|] == pending;
    hide Kept, MarkSet;
    forall p | p in ValuesOf(pending) && p in Hits(vals, s)
      ensures p in ValuesOf(pending[..i])
    {
      var q :| 0 <= q < |pending| && pending[q] == p;
      assert q < i;
      assert pending[..i][q] == p;
    }
  }

  // Every value past i is in s.
  lemma {:induction false} KeptRest(arr: seq<nat>, i: nat, out: seq<nat>, s: set<nat>)
    requires Kept(arr, i, out, s) && forall q :: i <= q < |arr| ==> arr[q] in s
    ensures Kept(arr, |arr|, out + arr[i..], s)
    decreases |arr| - i
  {
    if i < |arr| {
      KeepNext(arr, i, out, s);
      assert out + [arr[i]] + arr[i + 1..] == out + arr[i..];
      hide Kept;
      KeptRest(arr, i + 1, out + [arr[i]], s);
    } else {
      assert out + arr[i..] == out;
    }
  }

  // Positions whose values b holds marked, the others left in pending.
  method ProbePending(b: Container, vals: seq<nat>, pending: seq<nat>, found0: seq<Word>)
    returns (kept: seq<nat>, found: seq<Word>)
    requires WellFormed(b) && ProbeReady(vals, pending, found0) && forall i :: 0 <= i < |vals| ==> vals[i] < RANGE
    ensures Probed(vals, Members(b.rep), pending, |pending|, kept, MarkSet(found0), found) && |found| == |found0|
  {
    hide Probed, Members;
    ghost var s, before := Members(b.rep), MarkSet(found0);
    kept, found := [], found0;
    ProbeStarts(vals, s, pending, found);
    match b.rep {
      case Bitmap(k, w) =>
        ImageIsMembers(w, k);
        for i := 0 to |pending|
          invariant Probed(vals, s, pending, i, kept, before, found) && |found| == |found0|
        {
          TestDecides(w, k, vals[pending[i]]);
          kept, found := ProbeKeep(vals, s, pending, i, pending[i], Test(w, k, vals[pending[i]]), kept, before, found);
        }
      case Array(arr) =>
        ArrayMembers(arr);
        kept, found := ProbeArray(arr, vals, pending, found0);
      case Runs(runs) =>
        RunsMembers(runs);
        if runs == [] {
          EmptyRuns(runs);
          ProbeRest(vals, s, pending, 0, [], before, found);
          assert [] + pending[0..] == pending;
          return pending, found;
        }
        if |runs| >= SEARCH_RATIO * |pending| {
          for i := 0 to |pending|
            invariant Probed(vals, s, pending, i, kept, before, found) && |found| == |found0|
          {
            var hit := RunHasMember(runs, vals[pending[i]]);
            kept, found := ProbeKeep(vals, s, pending, i, pending[i], hit, kept, before, found);
          }
        } else {
          kept, found := ProbeRuns(runs, vals, pending, found0);
        }
    }
  }

  // Galloped for, from where the last value was found.
  method ProbeArray(arr: seq<nat>, vals: seq<nat>, pending: seq<nat>, found0: seq<Word>)
    returns (kept: seq<nat>, found: seq<Word>)
    requires ArrayOk(arr) && ProbeReady(vals, pending, found0)
    ensures Probed(vals, ValuesOf(arr), pending, |pending|, kept, MarkSet(found0), found) && |found| == |found0|
  {
    hide Probed;
    ghost var s, before := ValuesOf(arr), MarkSet(found0);
    kept, found := [], found0;
    ProbeStarts(vals, s, pending, found);
    var j := 0;
    for i := 0 to |pending|
      invariant Probed(vals, s, pending, i, kept, before, found) && |found| == |found0|
      invariant j <= |arr| && forall q :: 0 <= q < j && i < |pending| ==> arr[q] < vals[pending[i]]
    {
      j := Gallop(arr, j, vals[pending[i]]);
      FoundAtLowerBound(arr, vals[pending[i]], j);
      var hit := j < |arr| && arr[j] == vals[pending[i]];
      kept, found := ProbeKeep(vals, s, pending, i, pending[i], hit, kept, before, found);
    }
  }

  // Merged with the runs.
  method ProbeRuns(runs: seq<Run>, vals: seq<nat>, pending: seq<nat>, found0: seq<Word>)
    returns (kept: seq<nat>, found: seq<Word>)
    requires RunsAscend(runs) && ProbeReady(vals, pending, found0)
    ensures Probed(vals, RunSet(runs), pending, |pending|, kept, MarkSet(found0), found) && |found| == |found0|
  {
    hide Probed, RunSet;
    ghost var s, before := RunSet(runs), MarkSet(found0);
    kept, found := [], found0;
    ProbeStarts(vals, s, pending, found);
    var i, j := 0, 0;
    while i < |pending| && j < |runs|
      invariant i <= |pending| && Probed(vals, s, pending, i, kept, before, found) && |found| == |found0|
      invariant j <= |runs| && (i < |pending| ==> RunsPassed(runs, j, vals[pending[i]]))
      decreases |pending| - i + |runs| - j
    {
      var p := pending[i];
      var v := vals[p];
      if v > runs[j].Last() {
        j := j + 1;
      } else {
        PassedDecides(runs, j, v);
        kept, found := ProbeKeep(vals, s, pending, i, p, v >= runs[j].start, kept, before, found);
        i := i + 1;
      }
    }
    ghost var rest := kept + pending[i..];
    forall q | i <= q < |pending|
      ensures vals[pending[q]] !in s
    {
      assert vals[pending[i]] <= vals[pending[q]];
      PassedDecides(runs, |runs|, vals[pending[q]]);
    }
    ProbeRest(vals, s, pending, i, kept, before, found);
    while i < |pending|
      invariant i <= |pending| && kept + pending[i..] == rest
    {
      assert kept + [pending[i]] + pending[i + 1..] == kept + pending[i..];
      kept := kept + [pending[i]];
      i := i + 1;
    }
    assert kept == rest;
  }

  /* ---------- what the marks pick ---------- */

  // The values at the marked positions below n.
  ghost function Picked(vals: seq<nat>, n: nat, marks: set<nat>): set<nat>
    requires n <= |vals|
  {
    set p: nat | p < n && p in marks :: vals[p]
  }

  // out ascends in range, and when vals does it is the values of vals at the
  // positions of s below f.
  ghost predicate Picking(out: seq<nat>, vals: seq<nat>, n: nat, s: set<nat>, f: nat) {
    && n <= |vals| && (forall p :: p in s ==> p < n) && |out| <= f && |out| <= n
    && Ascends(out) && (forall i :: 0 <= i < |out| ==> out[i] < RANGE)
    && (ArrayOk(vals) ==> ValuesOf(out) == Picked(vals, n, Slice(s, 0, f)))
  }

  function Skips(out: seq<nat>, v: nat): bool { |out| > 0 && v <= out[|out| - 1] }

  lemma PickOne(out: seq<nat>, vals: seq<nat>, n: nat, s: set<nat>, f: nat, p: nat)
    requires Picking(out, vals, n, s, f) && p in s && f <= p && Slice(s, 0, p + 1) == Slice(s, 0, f) + {p}
    ensures var v := vals[p] % RANGE;
            Picking(if Skips(out, v) then out else out + [v], vals, n, s, p + 1)
  {
    var v := vals[p] % RANGE;
    var next := if Skips(out, v) then out else out + [v];
    assert Ascends(next) by {
      if !Skips(out, v) {
        assert forall i :: 0 <= i < |out| ==> out[i] <= out[|out| - 1];
      }
    }
    if ArrayOk(vals) {
      if out != [] {
        assert out[|out| - 1] in ValuesOf(out);
        var q :| q < n && q in Slice(s, 0, f) && vals[q] == out[|out| - 1];
        assert vals[q] < vals[p];
      }
      assert next == out + [vals[p]];
      PickedGrows(vals, n, Slice(s, 0, f), p);
    }
  }

  lemma PickedGrows(vals: seq<nat>, n: nat, s: set<nat>, p: nat)
    requires n <= |vals| && p < n
    ensures Picked(vals, n, s + {p}) == Picked(vals, n, s) + {vals[p]}
  {
    forall x | x in Picked(vals, n, s) + {vals[p]}
      ensures x in Picked(vals, n, s + {p})
    {
      if x in Picked(vals, n, s) {
        var q :| q < n && q in s && vals[q] == x;
        assert q in s + {p};
      } else {
        assert p in s + {p};
      }
    }
  }

  lemma CutReading(marks: seq<Word>, i: nat, n: nat, word: Word)
    requires i < |marks|
    requires word == if 64 * i + 64 > n then set b | b in marks[i] && b < n - 64 * i else marks[i]
    ensures Reading(Slice(MarkSet(marks), 0, n), i, word, 64 * i)
  {
    SeenReading(marks, i);
    var s := Slice(MarkSet(marks), 0, n);
    forall bit: nat
      ensures bit in word <==> bit < 64 && Plus(64 * i, bit) in s
    {
      assert bit in marks[i] <==> bit < 64 && Plus(64 * i, bit) in MarkSet(marks);
    }
  }

  lemma PickingStarts(vals: seq<nat>, n: nat, s: set<nat>)
    requires n <= |vals| && forall p :: p in s ==> p < n
    ensures Picking([], vals, n, s, 0)
  {
    assert Slice(s, 0, 0) == {};
    assert Picked(vals, n, {}) == {};
  }

  lemma PickedAll(out: seq<nat>, vals: seq<nat>, n: nat, s: set<nat>, f: nat)
    requires Picking(out, vals, n, s, f) && n <= f && n <= ARRAY_MAX
    ensures ArrayOk(out) && (ArrayOk(vals) ==> ValuesOf(out) == Picked(vals, n, s))
  {
    assert Slice(s, 0, f) == s;
  }

  lemma PickedBelow(vals: seq<nat>, n: nat, s: set<nat>)
    requires n <= |vals|
    ensures Picked(vals, n, Slice(s, 0, n)) == Picked(vals, n, s)
  {
    forall x | x in Picked(vals, n, s)
      ensures x in Picked(vals, n, Slice(s, 0, n))
    {
      var p :| p < n && p in s && vals[p] == x;
      assert p in Slice(s, 0, n);
    }
  }

  // The ARRAY of the values at the marked positions. Whatever vals holds, what
  // comes out ascends in range; ascending values come out all.
  method ArrayFromMarks(ckey: nat, vals: seq<nat>, n0: nat, marks: seq<Word>) returns (r: Container)
    requires n0 <= |vals| && n0 <= 64 * |marks|
    ensures WellFormed(r) && r.ckey == ckey && r.rep.Array?
    ensures n0 <= ARRAY_MAX && ArrayOk(vals) ==> Members(r.rep) == Picked(vals, n0, MarkSet(marks))
  {
    var n := if n0 <= ARRAY_MAX then n0 else ARRAY_MAX;
    var out: seq<nat> := [];
    ghost var s := Slice(MarkSet(marks), 0, n);
    PickingStarts(vals, n, s);
    for i := 0 to (n + 63) / 64
      invariant Picking(out, vals, n, s, 64 * i)
    {
      var word: Word := marks[i];
      if 64 * i + 64 > n {
        word := set b | b in word && b < n - 64 * i;
      }
      CutReading(marks, i, n, word);
      out := PickWord(vals, n, s, i, word, out);
    }
    PickedAll(out, vals, n, s, 64 * ((n + 63) / 64));
    PickedBelow(vals, n, MarkSet(marks));
    ArrayMembers(out);
    return Container(ckey, |out|, Array(out));
  }

  method PickWord(vals: seq<nat>, ghost n: nat, ghost s: set<nat>, i: nat, word0: Word, out0: seq<nat>)
    returns (out: seq<nat>)
    requires Picking(out0, vals, n, s, 64 * i) && Reading(s, i, word0, 64 * i)
    ensures Picking(out, vals, n, s, 64 * (i + 1))
  {
    hide LeastBit, Slice, Reading, Picking;
    out := out0;
    var word: Word := word0;
    ghost var f: nat := 64 * i;
    while word != {}
      invariant Reading(s, i, word, f) && Picking(out, vals, n, s, f)
      decreases |word|
    {
      var m := LeastBit(word);
      ReadBit(s, i, word, f);
      word := word - {m};
      PositionIn(out, vals, n, s, f, 64 * i + m);
      PickOne(out, vals, n, s, f, 64 * i + m);
      var v := vals[64 * i + m] % RANGE;
      if !(|out| > 0 && v <= out[|out| - 1]) {
        out := out + [v];
      }
      f := 64 * i + m + 1;
    }
    ReadAll(s, i, f);
    PickOn(out, vals, n, s, f, 64 * (i + 1));
  }

  lemma PositionIn(out: seq<nat>, vals: seq<nat>, n: nat, s: set<nat>, f: nat, p: nat)
    requires Picking(out, vals, n, s, f) && p in s
    ensures p < |vals|
  {
  }

  lemma PickOn(out: seq<nat>, vals: seq<nat>, n: nat, s: set<nat>, f: nat, g: nat)
    requires Picking(out, vals, n, s, f) && f <= g && Slice(s, 0, g) == Slice(s, 0, f)
    ensures Picking(out, vals, n, s, g)
  {
  }

  /* ---------- a container and a union ---------- */

  // Of vals' positions, pending holds those none of the first i containers has
  // the value of, in order, and found the rest.
  ghost predicate Sifted(vals: seq<nat>, bs: seq<Container>, i: nat, pending: seq<nat>, found: seq<Word>) {
    && i <= |bs| && ProbeReady(vals, pending, found)
    && ValuesOf(pending) == Misses(vals, UnionTo(bs, i)) && MarkSet(found) == Hits(vals, UnionTo(bs, i))
  }

  lemma SiftNext(vals: seq<nat>, bs: seq<Container>, i: nat, pending: seq<nat>, found: seq<Word>, kept: seq<nat>,
                 more: seq<Word>)
    requires Sifted(vals, bs, i, pending, found) && i < |bs| && |more| == |found|
    requires Probed(vals, Members(bs[i].rep), pending, |pending|, kept, MarkSet(found), more)
    ensures Sifted(vals, bs, i + 1, kept, more)
  {
    UnionGrows(bs, i);
    assert pending[..|pending|] == pending;
    hide UnionTo, Members, MarkSet;
    forall q | 0 <= q < |kept|
      ensures kept[q] < |vals|
    {
      assert kept[q] in ValuesOf(kept);
    }
  }

  lemma SiftStarts(vals: seq<nat>, bs: seq<Container>, pending: seq<nat>, found: seq<Word>)
    requires Ascends(vals) && |pending| == |vals| && (forall p :: 0 <= p < |pending| ==> pending[p] == p)
    requires |vals| <= 64 * |found| && forall i :: 0 <= i < |found| ==> found[i] == {}
    ensures Sifted(vals, bs, 0, pending, found)
  {
    UnionOfNone(bs);
    assert MarkSet(found) == {} && Hits(vals, {}) == {};
    forall p
      ensures p in ValuesOf(pending) <==> p in Misses(vals, {})
    {
      assert 0 <= p < |pending| ==> pending[p] == p;
    }
  }

  // The marks pick what vals has in common with the union.
  lemma SiftEnds(vals: seq<nat>, bs: seq<Container>, i: nat, pending: seq<nat>, found: seq<Word>)
    requires Sifted(vals, bs, i, pending, found) && (i == |bs| || pending == [])
    ensures Picked(vals, |vals|, MarkSet(found)) == ValuesOf(vals) * UnionTo(bs, |bs|)
  {
    var u := UnionTo(bs, |bs|);
    assert UnionTo(bs, i) <= u;
    hide UnionTo;
    assert pending == [] ==> forall p: nat :: p !in Misses(vals, UnionTo(bs, i));
    forall x
      ensures x in Picked(vals, |vals|, MarkSet(found)) <==> x in ValuesOf(vals) * u
    {
      if x in ValuesOf(vals) * u {
        var p :| 0 <= p < |vals| && vals[p] == x;
        assert p !in Misses(vals, UnionTo(bs, i));
        assert p in MarkSet(found);
      }
    }
  }

  // a AND (bs[0] OR ... OR bs[n - 1]). More members than an ARRAY may have
  // are taken as none.
  method AndUnionRaw(a: Container, bs: seq<Container>) returns (r: Container)
    requires WellFormed(a) && AllWell(bs, a.ckey)
    ensures WellFormed(r) && r.ckey == a.ckey && r.rep.Array?
    ensures Members(r.rep) == if a.card <= ARRAY_MAX then Members(a.rep) * UnionTo(bs, |bs|) else {}
  {
    hide Sifted, Probed, UnionTo, Members, Picked, WellFormed;
    var vals := ValuesToProbe(a);
    var n := |vals|;
    var found := Unmarked((n + 63) / 64);
    var pending: seq<nat> := [];
    for i := 0 to n
      invariant |pending| == i && forall p :: 0 <= p < i ==> pending[p] == p
    {
      pending := pending + [i];
    }
    SiftStarts(vals, bs, pending, found);
    var i := 0;
    while i < |bs| && |pending| > 0
      invariant i <= |bs| && Sifted(vals, bs, i, pending, found) && |found| == (n + 63) / 64
    {
      SiftReady(vals, bs, i, pending, found);
      var kept, more := ProbePending(bs[i], vals, pending, found);
      SiftNext(vals, bs, i, pending, found, kept, more);
      pending, found := kept, more;
      i := i + 1;
    }
    SiftEnds(vals, bs, i, pending, found);
    r := ArrayFromMarks(a.ckey, vals, n, found);
    if a.card > ARRAY_MAX {
      assert ValuesOf(vals) * UnionTo(bs, |bs|) == {};
    }
  }

  lemma SiftReady(vals: seq<nat>, bs: seq<Container>, i: nat, pending: seq<nat>, found: seq<Word>)
    requires Sifted(vals, bs, i, pending, found)
    ensures ProbeReady(vals, pending, found)
  {
  }

  // a's members, as iterate() hands them out.
  method ValuesToProbe(a: Container) returns (vals: seq<nat>)
    requires WellFormed(a)
    ensures ArrayOk(vals) && ValuesOf(vals) == if a.card <= ARRAY_MAX then Members(a.rep) else {}
  {
    match a.rep {
      case Array(arr) =>
        ArrayMembers(arr);
        return arr;
      case _ =>
        var r := Extract(a, ARRAY_MAX);
        if r.None? {
          return [];
        }
        MembersInRange(a.rep);
        ValuesMakeArray(r.value, Members(a.rep));
        return r.value;
    }
  }
}
