/**
  A key's posting set as the build makes it: the ascending stream of codes cut
  into sparse segments and containers.
*/
module PostingItems {
  import opened Sets
  import opened Containers
  import opened Mutators
  import opened Varints

  const THRESHOLD: nat := 4      // members of a container key that make it a container
  const MAX_PAIRS: nat := 255    // of a segment, and its stream's bytes
  const MAX_BYTES: nat := 255

  function CkeyOf(code: nat): nat { code / RANGE }

  function LoOf(code: nat): nat { code % RANGE }

  function MakeCode(ckey: nat, lo: nat): nat { ckey * RANGE + lo }

  lemma CodeParts(ckey: nat, lo: nat)
    requires lo < RANGE
    ensures CkeyOf(MakeCode(ckey, lo)) == ckey && LoOf(MakeCode(ckey, lo)) == lo
    ensures forall code: nat :: MakeCode(CkeyOf(code), LoOf(code)) == code
  {
  }

  // The bytes of the stream of a segment of these codes: the first from its key's base,
  // each other from the one before.
  function SegmentBytes(codes: seq<nat>): nat
    requires Ascends(codes)
  {
    var n := |codes|;
    if n == 0 then 0
    else if n == 1 then VarintSize(LoOf(codes[0]))
    else SegmentBytes(codes[..n - 1]) + VarintSize(codes[n - 1] - codes[n - 2])
  }

  datatype Item = Pairs(codes: seq<nat>, nbytes: nat) | Whole(c: Container)

  // No container key has THRESHOLD of the codes.
  ghost predicate Few(codes: seq<nat>) {
    forall i, j :: 0 <= i && i + THRESHOLD - 1 <= j < |codes| ==> CkeyOf(codes[i]) < CkeyOf(codes[j])
  }

  ghost predicate SegmentOk(codes: seq<nat>, nbytes: nat) {
    Ascends(codes) && |codes| <= MAX_PAIRS && nbytes == SegmentBytes(codes) <= MAX_BYTES && Few(codes)
  }

  ghost function Los(codes: seq<nat>): set<nat> { set i | 0 <= i < |codes| :: LoOf(codes[i]) }

  ghost predicate AllOf(codes: seq<nat>, ckey: nat) { forall i :: 0 <= i < |codes| ==> CkeyOf(codes[i]) == ckey }

  // The item holds exactly these codes of the stream.
  ghost predicate ItemHolds(item: Item, codes: seq<nat>) {
    match item
    case Pairs(have, nbytes) => have == codes && codes != [] && SegmentOk(codes, nbytes)
    case Whole(c) => |codes| >= THRESHOLD && AllOf(codes, c.ckey) && Optimal(c) && Members(c.rep) == Los(codes)
  }

  // Keys change at n.
  ghost predicate Boundary(stream: seq<nat>, n: nat) {
    n <= |stream| && (0 < n < |stream| ==> CkeyOf(stream[n - 1]) < CkeyOf(stream[n]))
  }

  // The items are the stream, cut where keys change.
  ghost predicate Cut(items: seq<Item>, stream: seq<nat>, cuts: seq<nat>) {
    && Ascends(stream) && |cuts| == |items| + 1 && cuts[0] == 0
    && (forall k :: 0 <= k < |cuts| ==> Boundary(stream, cuts[k]))
    && (forall k, j :: 0 <= k < j < |cuts| ==> cuts[k] < cuts[j])
    && (forall k :: 0 <= k < |items| ==> ItemAt(items, stream, cuts, k))
  }

  ghost predicate ItemAt(items: seq<Item>, stream: seq<nat>, cuts: seq<nat>, k: nat)
    requires |cuts| == |items| + 1 && k < |items| && forall j :: 0 <= j < |cuts| ==> cuts[j] <= |stream|
  {
    cuts[k] < cuts[k + 1] && ItemHolds(items[k], stream[cuts[k]..cuts[k + 1]])
  }

  // Container keys among the first n codes.
  ghost function Keys(stream: seq<nat>, n: nat): nat
    requires n <= |stream|
  {
    if n == 0 then 0
    else Keys(stream, n - 1) + if n == 1 || CkeyOf(stream[n - 1]) != CkeyOf(stream[n - 2]) then 1 else 0
  }

  /* ---------- slices ---------- */

  lemma SliceItems(s: seq<nat>, a: nat, b: nat)
    requires a <= b <= |s|
    ensures forall i :: 0 <= i < b - a ==> s[a..b][i] == s[a + i]
    ensures s[a..|s|] == s[a..]
  {
  }

  lemma SliceOfMore(s: seq<nat>, x: nat, a: nat, b: nat)
    requires a <= b <= |s|
    ensures (s + [x])[a..b] == s[a..b] && (s + [x])[b..] == s[b..] + [x]
  {
  }

  lemma SliceSplits(s: seq<nat>, a: nat, b: nat)
    requires a <= b <= |s|
    ensures s[a..b] + s[b..] == s[a..]
  {
  }

  /* ---------- lemmas on the stream ---------- */

  lemma KeysAscend(stream: seq<nat>, i: nat, j: nat)
    requires Ascends(stream) && i <= j < |stream|
    ensures CkeyOf(stream[i]) <= CkeyOf(stream[j])
  {
    if i < j {
      assert stream[i] < stream[j];
    }
  }

  lemma EarlierKeys(stream: seq<nat>, n: nat)
    requires Ascends(stream) && n < |stream| && Boundary(stream, n)
    ensures forall i :: 0 <= i < n ==> CkeyOf(stream[i]) < CkeyOf(stream[n])
  {
    hide CkeyOf, LoOf;
    forall i | 0 <= i < n
      ensures CkeyOf(stream[i]) < CkeyOf(stream[n])
    {
      KeysAscend(stream, i, n - 1);
    }
  }

  lemma StreamGrows(stream: seq<nat>, code: nat)
    requires Ascends(stream) && (stream != [] ==> stream[|stream| - 1] < code)
    ensures Ascends(stream + [code])
  {
    var more := stream + [code];
    forall i, j | 0 <= i < j < |more|
      ensures more[i] < more[j]
    {
      if j == |stream| && i < |stream| - 1 {
        assert stream[i] < stream[|stream| - 1];
      }
    }
  }

  lemma {:induction false} SameKeys(a: seq<nat>, b: seq<nat>, n: nat)
    requires n <= |a| && n <= |b| && forall i :: 0 <= i < n ==> a[i] == b[i]
    ensures Keys(a, n) == Keys(b, n)
  {
    hide CkeyOf, LoOf;
    if n > 0 {
      SameKeys(a, b, n - 1);
    }
  }

  // A group is one key.
  lemma {:induction false} GroupIsOneKey(stream: seq<nat>, a: nat, b: nat)
    requires Ascends(stream) && a < b <= |stream| && AllOf(stream[a..b], CkeyOf(stream[a])) && Boundary(stream, a)
    ensures Keys(stream, b) == Keys(stream, a) + 1
    decreases b
  {
    hide CkeyOf, LoOf;
    assert stream[a..b][b - 1 - a] == stream[b - 1];
    if a + 1 < b {
      assert stream[a..b][b - 2 - a] == stream[b - 2];
      assert stream[a..b - 1] == stream[a..b][..b - 1 - a];
      GroupIsOneKey(stream, a, b - 1);
    }
  }

  ghost function KeySet(stream: seq<nat>, n: nat): set<nat>
    requires n <= |stream|
  {
    set i | 0 <= i < n :: CkeyOf(stream[i])
  }

  lemma NextKey(stream: seq<nat>, n: nat)
    requires Ascends(stream) && 0 < n <= |stream|
    ensures KeySet(stream, n) == KeySet(stream, n - 1) + {CkeyOf(stream[n - 1])}
    ensures CkeyOf(stream[n - 1]) in KeySet(stream, n - 1) <==> n > 1 && CkeyOf(stream[n - 2]) == CkeyOf(stream[n - 1])
  {
    hide CkeyOf, Ascends;
    forall i | 0 <= i < n - 1
      ensures CkeyOf(stream[i]) <= CkeyOf(stream[n - 2]) <= CkeyOf(stream[n - 1])
    {
      KeysAscend(stream, i, n - 2);
      KeysAscend(stream, n - 2, n - 1);
    }
  }

  // Of the first n codes, each container key is counted once.
  lemma {:induction false} KeysAreDistinct(stream: seq<nat>, n: nat)
    requires Ascends(stream) && n <= |stream|
    ensures Keys(stream, n) == |KeySet(stream, n)|
  {
    hide CkeyOf, Ascends;
    if n > 0 {
      KeysAreDistinct(stream, n - 1);
      NextKey(stream, n);
      hide KeySet;
      OneMore(KeySet(stream, n - 1), CkeyOf(stream[n - 1]));
    }
  }

  lemma CutGrows(items: seq<Item>, stream: seq<nat>, cuts: seq<nat>, code: nat)
    requires Cut(items, stream, cuts) && Ascends(stream + [code])
    requires cuts[|items|] == |stream| > 0 ==> CkeyOf(stream[|stream| - 1]) < CkeyOf(code)
    ensures Cut(items, stream + [code], cuts)
  {
    hide CkeyOf, LoOf;
    var more := stream + [code];
    forall k | 0 <= k < |items|
      ensures ItemAt(items, more, cuts, k)
    {
      assert ItemAt(items, stream, cuts, k);
      assert more[cuts[k]..cuts[k + 1]] == stream[cuts[k]..cuts[k + 1]];
    }
    forall k | 0 <= k < |cuts|
      ensures Boundary(more, cuts[k])
    {
      assert Boundary(stream, cuts[k]);
      assert k < |items| ==> cuts[k] < cuts[|items|];
    }
  }

  lemma CutNext(items: seq<Item>, stream: seq<nat>, cuts: seq<nat>, item: Item, n: nat)
    requires Cut(items, stream, cuts) && cuts[|items|] < n <= |stream| && Boundary(stream, n)
    requires ItemHolds(item, stream[cuts[|items|]..n])
    ensures Cut(items + [item], stream, cuts + [n])
  {
    hide CkeyOf, LoOf;
    var items2, cuts2 := items + [item], cuts + [n];
    forall k, j | 0 <= k < j < |cuts2|
      ensures cuts2[k] < cuts2[j]
    {
      assert k < |items| ==> cuts[k] < cuts[|items|];
    }
    forall k | 0 <= k < |items2|
      ensures ItemAt(items2, stream, cuts2, k)
    {
      if k < |items| {
        assert ItemAt(items, stream, cuts, k);
      }
    }
  }

  /* ---------- lemmas on segments ---------- */

  lemma OneMoreCode(codes: seq<nat>, code: nat)
    requires Ascends(codes) && (codes != [] ==> codes[|codes| - 1] < code)
    ensures Ascends(codes + [code])
    ensures SegmentBytes(codes + [code]) ==
            if codes == [] then VarintSize(LoOf(code)) else SegmentBytes(codes) + VarintSize(code - codes[|codes| - 1])
  {
    StreamGrows(codes, code);
    hide Ascends, VarintSize, LoOf;
    assert (codes + [code])[..|codes|] == codes;
  }

  lemma {:induction false} BytesGrow(codes: seq<nat>, n: nat)
    requires Ascends(codes) && n <= |codes|
    ensures Ascends(codes[..n]) && SegmentBytes(codes[..n]) <= SegmentBytes(codes)
    decreases |codes|
  {
    if n < |codes| {
      var m := |codes| - 1;
      BytesGrow(codes[..m], n);
      assert codes[..m][..n] == codes[..n];
      assert codes[..m] + [codes[m]] == codes;
      OneMoreCode(codes[..m], codes[m]);
    } else {
      assert codes[..n] == codes;
    }
  }

  // A group too small for a container fits an empty segment.
  lemma SmallGroupFits(codes: seq<nat>, ckey: nat)
    requires Ascends(codes) && |codes| < THRESHOLD && AllOf(codes, ckey)
    ensures SegmentBytes(codes) <= MAX_BYTES
  {
    hide SegmentBytes, VarintSize;
    assert codes[..|codes|] == codes;
    if codes == [] {
      NoBytes();
    } else {
      FirstBytes(codes);
      for n := 1 to |codes|
        invariant SegmentBytes(codes[..n]) <= 3 * n
      {
        BytesStep(codes, n);
        assert codes[n] - codes[n - 1] < RANGE;
      }
    }
  }

  lemma NoBytes()
    ensures SegmentBytes([]) == 0
  {
  }

  lemma FirstBytes(codes: seq<nat>)
    requires Ascends(codes) && codes != []
    ensures SegmentBytes(codes[..1]) <= 3
  {
    assert codes[..1] == [codes[0]];
  }

  lemma BytesStep(codes: seq<nat>, n: nat)
    requires Ascends(codes) && 0 < n < |codes|
    ensures Ascends(codes[..n]) && Ascends(codes[..n + 1])
    ensures SegmentBytes(codes[..n + 1]) == SegmentBytes(codes[..n]) + VarintSize(codes[n] - codes[n - 1])
  {
    assert codes[..n] + [codes[n]] == codes[..n + 1];
    OneMoreCode(codes[..n], codes[n]);
  }

  // A small group after a segment of earlier keys leaves no key with many.
  lemma FewMore(codes: seq<nat>, group: seq<nat>, ckey: nat)
    requires Ascends(codes + group) && Few(codes) && |group| < THRESHOLD && AllOf(group, ckey)
    requires forall i :: 0 <= i < |codes| ==> CkeyOf(codes[i]) < ckey
    ensures Few(codes + group)
  {
    hide CkeyOf, LoOf;
  }

  /* ---------- the builder ---------- */

  // The group of codes past n: its pending members, or its container.
  ghost predicate GroupIs(stream: seq<nat>, n: nat, hasgroup: bool, curckey: nat, hascur: bool, pend: seq<nat>) {
    && n <= |stream| && (hasgroup <==> n < |stream|) && AllOf(stream[n..], curckey)
    && (if hascur then |stream| - n >= THRESHOLD && pend == []
        else |pend| == |stream| - n < THRESHOLD && forall i :: 0 <= i < |pend| ==> pend[i] == LoOf(stream[n + i]))
  }

  // A builder's fields, and what it has been given: the codes, where the items
  // end in them, and where the open group starts.
  datatype State = State(items: seq<Item>, seg: seq<nat>, segbytes: nat, hasgroup: bool, curckey: nat, hascur: bool,
                         pend: seq<nat>, ntids: nat, nckeys: nat, nitems: nat, stream: seq<nat>,
                         cuts: seq<nat>, group: nat)

  ghost predicate Good(s: State) {
    && Cut(s.items, s.stream, s.cuts) && Boundary(s.stream, s.group)
    && s.cuts[|s.items|] <= s.group && s.seg == s.stream[s.cuts[|s.items|]..s.group] && SegmentOk(s.seg, s.segbytes)
    && GroupIs(s.stream, s.group, s.hasgroup, s.curckey, s.hascur, s.pend) && (s.hascur ==> s.seg == [])
    && s.ntids == |s.stream| && s.nitems == |s.items| && s.nckeys == Keys(s.stream, s.group)
  }

  lemma GoodFacts(s: State)
    requires Good(s)
    ensures Ascends(s.stream) && |s.cuts| == |s.items| + 1 && s.group <= |s.stream| && s.ntids == |s.stream|
    ensures s.cuts[|s.items|] + |s.seg| == s.group && s.seg == s.stream[s.cuts[|s.items|]..s.group]
    ensures s.seg + s.stream[s.group..] == s.stream[s.cuts[|s.items|]..] && Ascends(s.seg + s.stream[s.group..])
    ensures SegmentOk(s.seg, s.segbytes) && GroupIs(s.stream, s.group, s.hasgroup, s.curckey, s.hascur, s.pend)
    ensures (s.hasgroup <==> s.group < |s.stream|) && s.nckeys == Keys(s.stream, s.group) && s.nitems == |s.items|
    ensures Cut(s.items, s.stream, s.cuts) && Boundary(s.stream, s.group) && Boundary(s.stream, |s.stream|)
    ensures AllOf(s.stream[s.group..], s.curckey) && (s.hascur ==> s.seg == [] && s.pend == [])
  {
    SliceSplits(s.stream, s.cuts[|s.items|], s.group);
    hide CkeyOf, LoOf, SegmentOk, Keys;
  }

  lemma SegmentFacts(codes: seq<nat>, nbytes: nat)
    requires SegmentOk(codes, nbytes)
    ensures Ascends(codes) && |codes| <= MAX_PAIRS && nbytes == SegmentBytes(codes)
  {
  }

  lemma PendingCodes(s: State)
    requires Good(s) && !s.hascur
    ensures |s.pend| == |s.stream[s.group..]|
    ensures forall i :: 0 <= i < |s.pend| ==> MakeCode(s.curckey, s.pend[i]) == s.stream[s.group..][i]
  {
    forall i | 0 <= i < |s.pend|
      ensures MakeCode(s.curckey, s.pend[i]) == s.stream[s.group..][i]
    {
      CodeParts(s.curckey, s.pend[i]);
      assert s.stream[s.group..][i] == s.stream[s.group + i];
    }
  }

  // The open group is one key more, above the open segment's.
  lemma ClosesGroup(s: State)
    requires Good(s) && s.hasgroup
    ensures Keys(s.stream, |s.stream|) == s.nckeys + 1
    ensures forall i :: 0 <= i < |s.seg| ==> CkeyOf(s.seg[i]) < s.curckey
  {
    hide Good, CkeyOf, LoOf, Keys, Boundary, Cut, Ascends, SegmentOk, GroupIs;
    GoodFacts(s);
    SliceItems(s.stream, s.group, |s.stream|);
    assert s.stream[s.group..][0] == s.stream[s.group];
    assert CkeyOf(s.stream[s.group]) == s.curckey;
    GroupIsOneKey(s.stream, s.group, |s.stream|);
    EarlierKeys(s.stream, s.group);
    SliceItems(s.stream, s.cuts[|s.items|], s.group);
  }

  lemma SegmentClosed(s: State)
    requires Good(s) && s.seg != []
    ensures Good(s.(items := s.items + [Pairs(s.seg, s.segbytes)], cuts := s.cuts + [s.group], seg := [], segbytes := 0,
                    nitems := s.nitems + 1))
  {
    hide CkeyOf, LoOf;
    hide SegmentOk, Ascends, GroupIs, Keys;
    GoodFacts(s);
    EmptySegment();
    CutNext(s.items, s.stream, s.cuts, Pairs(s.seg, s.segbytes), s.group);
    hide Cut;
    assert s.stream[s.group..s.group] == [];
  }

  // The group after the open segment is a segment.
  lemma GroupHasRoom(s: State)
    requires Good(s) && s.hasgroup && !s.hascur
    requires var codes := s.seg + s.stream[s.group..];
             s.seg != [] ==> |codes| <= MAX_PAIRS && Ascends(codes) && SegmentBytes(codes) <= MAX_BYTES
    ensures var codes := s.seg + s.stream[s.group..];
            |codes| <= MAX_PAIRS && Ascends(codes) && SegmentBytes(codes) <= MAX_BYTES && Few(codes)
  {
    hide CkeyOf, LoOf, Cut, Ascends, SegmentBytes, Keys, Good, Boundary;
    GoodFacts(s);
    ClosesGroup(s);
    var group := s.stream[s.group..];
    if s.seg == [] {
      assert s.seg + group == group;
      SmallGroupFits(group, s.curckey);
    }
    FewMore(s.seg, group, s.curckey);
  }

  lemma GroupAppended(s: State)
    requires Good(s) && s.hasgroup && !s.hascur
    requires var codes := s.seg + s.stream[s.group..];
             |codes| <= MAX_PAIRS && Ascends(codes) && SegmentBytes(codes) <= MAX_BYTES && Few(codes)
    ensures Good(s.(seg := s.seg + s.stream[s.group..], segbytes := SegmentBytes(s.seg + s.stream[s.group..]),
                    pend := [], hasgroup := false, group := |s.stream|, nckeys := s.nckeys + 1))
  {
    hide CkeyOf, LoOf, Cut, Ascends, SegmentBytes, Keys, Few, Boundary;
    GoodFacts(s);
    ClosesGroup(s);
    SliceItems(s.stream, s.cuts[|s.items|], |s.stream|);
    SliceItems(s.stream, |s.stream|, |s.stream|);
  }

  lemma ContainerEmitted(s: State, c: Container)
    requires Good(s) && s.hasgroup && s.hascur && Optimal(c) && c.ckey == s.curckey
    requires Members(c.rep) == Los(s.stream[s.group..])
    ensures Good(s.(items := s.items + [Whole(c)], cuts := s.cuts + [|s.stream|], hascur := false, hasgroup := false,
                    group := |s.stream|, nitems := s.nitems + 1, nckeys := s.nckeys + 1))
  {
    hide CkeyOf, LoOf;
    hide Ascends, SegmentOk, Keys, Optimal, Los, Members;
    GoodFacts(s);
    ClosesGroup(s);
    EmptySegment();
    assert s.stream[s.group..|s.stream|] == s.stream[s.group..];
    CutNext(s.items, s.stream, s.cuts, Whole(c), |s.stream|);
    hide Cut, Boundary;
    assert s.stream[|s.stream|..] == [];
  }

  // One code more on the stream, of the open group or starting one.
  ghost predicate CanAdd(s: State, code: nat) {
    && Good(s) && (s.stream != [] ==> s.stream[|s.stream| - 1] < code)
    && if s.hasgroup then CkeyOf(code) == s.curckey
       else s.stream != [] ==> CkeyOf(s.stream[|s.stream| - 1]) < CkeyOf(code)
  }

  lemma CodeAdded(s: State, code: nat)
    requires CanAdd(s, code)
    ensures var more := s.stream + [code];
            && Cut(s.items, more, s.cuts) && Boundary(more, s.group) && Keys(more, s.group) == s.nckeys
            && |s.cuts| == |s.items| + 1 && s.cuts[|s.items|] <= s.group <= |s.stream|
            && s.seg == more[s.cuts[|s.items|]..s.group] && more[s.group..] == s.stream[s.group..] + [code]
            && AllOf(more[s.group..], CkeyOf(code))
  {
    hide Good, CkeyOf, LoOf, Keys, Cut, Ascends, SegmentOk, GroupIs;
    GoodFacts(s);
    if s.cuts[|s.items|] == |s.stream| {
      assert !s.hasgroup;
    }
    StreamGrows(s.stream, code);
    CutGrows(s.items, s.stream, s.cuts, code);
    SameKeys(s.stream, s.stream + [code], s.group);
    CodeInSlices(s, code);
  }

  lemma CodeInSlices(s: State, code: nat)
    requires CanAdd(s, code)
    ensures var more := s.stream + [code];
            && |s.cuts| == |s.items| + 1 && s.cuts[|s.items|] <= s.group <= |s.stream| && Boundary(more, s.group)
            && s.seg == more[s.cuts[|s.items|]..s.group] && more[s.group..] == s.stream[s.group..] + [code]
            && AllOf(more[s.group..], CkeyOf(code))
  {
    hide Good, CkeyOf, LoOf, Keys, Cut, Ascends, SegmentOk, GroupIs;
    GoodFacts(s);
    SliceOfMore(s.stream, code, s.cuts[|s.items|], s.group);
    SliceItems(s.stream, s.group, |s.stream|);
    var group := s.stream[s.group..];
    assert s.hasgroup || group == [];
    assert AllOf(group + [code], CkeyOf(code));
  }

  // With its first code the group is pending; with its third it still is; with
  // its fourth it is a container, and stays one.
  lemma GroupGrows(s: State, code: nat, hascur: bool, pend: seq<nat>)
    requires CanAdd(s, code) && (hascur ==> s.seg == []) && (!s.hasgroup ==> s.pend == [] && !s.hascur)
    requires if s.hascur then hascur && pend == []
             else if |s.pend| + 1 < THRESHOLD then !hascur && pend == s.pend + [LoOf(code)]
             else hascur && pend == []
    ensures Good(s.(hasgroup := true, curckey := CkeyOf(code), hascur := hascur, pend := pend, ntids := s.ntids + 1,
                    stream := s.stream + [code]))
  {
    hide CkeyOf, LoOf, Keys, Cut, Ascends, SegmentOk, AllOf, Boundary;
    CodeAdded(s, code);
    GoodFacts(s);
    var more := s.stream + [code];
    assert forall i :: s.group <= i < |s.stream| ==> more[i] == s.stream[i];
  }

  lemma NoGroup(s: State)
    requires Good(s) && !s.hasgroup
    ensures s.pend == [] && !s.hascur && s.stream[s.group..] == []
  {
    hide Cut, SegmentOk, Keys, Boundary;
  }

  lemma LosGrow(codes: seq<nat>, code: nat)
    ensures Los(codes + [code]) == Los(codes) + {LoOf(code)}
  {
    forall x
      ensures x in Los(codes + [code]) <==> x in Los(codes) || x == LoOf(code)
    {
      if x in Los(codes) {
        var i :| 0 <= i < |codes| && LoOf(codes[i]) == x;
        assert (codes + [code])[i] == codes[i];
      }
      if x == LoOf(code) {
        assert (codes + [code])[|codes|] == code;
      }
    }
  }

  /* ---------- no segment is closed early ---------- */

  // The codes of b's first key do not fit after those of a.
  ghost predicate TooMany(a: seq<nat>, b: seq<nat>) { exists n :: FirstGroup(b, n) && NoRoomFor(a, b, n) }

  ghost predicate FirstGroup(b: seq<nat>, n: nat) {
    && 0 < n <= |b| && (forall i :: 0 <= i < n ==> CkeyOf(b[i]) == CkeyOf(b[0]))
    && (n < |b| ==> CkeyOf(b[0]) < CkeyOf(b[n]))
  }

  ghost predicate NoRoomFor(a: seq<nat>, b: seq<nat>, n: nat) {
    n <= |b| && Ascends(a + b[..n]) && (|a| + n > 255 || SegmentBytes(a + b[..n]) > 255)
  }

  // Of two segments in a row the first has no room for the next one's first key.
  ghost predicate Tight(items: seq<Item>) {
    forall k :: 0 <= k < |items| - 1 && items[k].Pairs? && items[k + 1].Pairs? ==>
      TooMany(items[k].codes, items[k + 1].codes)
  }

  // Nor has the last of them for the open segment's; with none open a container
  // follows.
  ghost predicate OpenTight(items: seq<Item>, seg: seq<nat>, hascur: bool) {
    && Tight(items)
    && (items != [] && items[|items| - 1].Pairs? ==>
          if seg == [] then hascur else TooMany(items[|items| - 1].codes, seg))
  }

  lemma TightAsEmitted(items: seq<Item>, seg: seq<nat>, nbytes: nat, hascur: bool)
    requires OpenTight(items, seg, hascur)
    ensures seg != [] ==> Tight(items + [Pairs(seg, nbytes)])
    ensures forall c :: Tight(items + [Whole(c)])
  {
    hide TooMany;
  }

  lemma TooManyAsGrown(a: seq<nat>, b: seq<nat>, more: seq<nat>)
    requires TooMany(a, b) && b != [] && (more != [] ==> CkeyOf(b[0]) < CkeyOf(more[0]))
    ensures TooMany(a, b + more)
  {
    hide CkeyOf, Ascends, SegmentBytes;
    var n: nat :| FirstGroup(b, n) && NoRoomFor(a, b, n);
    assert (b + more)[..n] == b[..n];
    assert FirstGroup(b + more, n) && NoRoomFor(a, b + more, n);
  }

  // A group that does not fit after the open segment, which is closed.
  lemma GroupTooMany(s: State)
    requires Good(s) && s.hasgroup && !s.hascur && s.seg != []
    requires var codes := s.seg + s.stream[s.group..]; |codes| > MAX_PAIRS || SegmentBytes(codes) > MAX_BYTES
    ensures TooMany(s.seg, s.stream[s.group..])
  {
    hide Good, CkeyOf, SegmentBytes, Ascends;
    GoodFacts(s);
    var group := s.stream[s.group..];
    assert group[..|group|] == group;
    assert FirstGroup(group, |group|) && NoRoomFor(s.seg, group, |group|);
  }

  // The group appended to the open segment.
  lemma TightAsAppended(s: State, items: seq<Item>, seg: seq<nat>)
    requires Good(s) && s.hasgroup && !s.hascur && OpenTight(s.items, s.seg, false)
    requires if items == s.items then seg == s.seg + s.stream[s.group..]
             else items == s.items + [Pairs(s.seg, s.segbytes)] && seg == s.stream[s.group..] &&
                  s.seg != [] && TooMany(s.seg, seg)
    ensures OpenTight(items, seg, false)
  {
    hide Good, CkeyOf, TooMany;
    GoodFacts(s);
    ClosesGroup(s);
    var group := s.stream[s.group..];
    if items == s.items {
      if items != [] && items[|items| - 1].Pairs? {
        assert CkeyOf(group[0]) == s.curckey;
        TooManyAsGrown(items[|items| - 1].codes, s.seg, group);
      }
    } else {
      TightAsEmitted(s.items, s.seg, s.segbytes, false);
    }
  }

  class Builder {
    var items: seq<Item>
    var seg: seq<nat>
    var segbytes: nat
    var hasgroup: bool
    var curckey: nat
    var hascur: bool
    var cur: Buffer
    var pend: seq<nat>
    var ntids: nat
    var nckeys: nat
    var nitems: nat
    ghost var stream: seq<nat>
    ghost var cuts: seq<nat>
    ghost var group: nat

    ghost function Now(): State
      reads this
    {
      State(items, seg, segbytes, hasgroup, curckey, hascur, pend, ntids, nckeys, nitems, stream, cuts, group)
    }

    ghost predicate Valid()
      reads this, cur
    {
      && Good(Now()) && (stream == [] || hasgroup) && OpenTight(items, seg, hascur)
      && (hascur ==> cur.Valid() && cur.ckey == curckey && group <= |stream| && cur.Elements() == Los(stream[group..]))
    }

    constructor ()
      ensures Valid() && stream == [] && fresh(cur)
    {
      hasgroup, curckey, hascur, pend, seg, segbytes := false, 0, false, [], [], 0;
      items, ntids, nckeys, nitems := [], 0, 0, 0;
      stream, cuts, group := [], [0], 0;
      cur := new Buffer(0);
      new;
      hide Good;
      NothingBuilt();
    }

    // The open segment emitted, if there is one.
    method CloseSegment()
      requires Good(Now())
      modifies this`items, this`seg, this`segbytes, this`nitems, this`cuts
      ensures Good(Now()) && seg == []
      ensures items == if old(seg) == [] then old(items) else old(items) + [Pairs(old(seg), old(segbytes))]
    {
      if seg == [] {
        return;
      }
      hide Good;
      SegmentClosed(Now());
      items := items + [Pairs(seg, segbytes)];
      nitems := nitems + 1;
      cuts := cuts + [group];
      seg, segbytes := [], 0;
    }

    // A pair at the end of the open segment; false when it does not fit.
    method Append(code: nat) returns (ok: bool)
      requires Ascends(seg + [code]) && Ascends(seg) && segbytes == SegmentBytes(seg)
      modifies this`seg, this`segbytes
      ensures ok <==> SegmentBytes(old(seg) + [code]) <= MAX_BYTES && |old(seg)| + 1 <= MAX_PAIRS
      ensures ok ==> seg == old(seg) + [code] && segbytes == SegmentBytes(seg)
    {
      hide CkeyOf, LoOf;
      if seg != [] {
        StepUp(seg + [code], |seg|);
      }
      OneMoreCode(seg, code);
      var v := if seg == [] then LoOf(code) else code - seg[|seg| - 1];
      if segbytes + VarintSize(v) > MAX_BYTES || |seg| + 1 > MAX_PAIRS {
        return false;
      }
      seg, segbytes := seg + [code], segbytes + VarintSize(v);
      ok := true;
    }

    method AppendAll(ghost codes: seq<nat>)
      requires Ascends(seg) && segbytes == SegmentBytes(seg) && Ascends(seg + codes)
      requires |seg + codes| <= MAX_PAIRS && SegmentBytes(seg + codes) <= MAX_BYTES
      requires |pend| == |codes| && forall i :: 0 <= i < |pend| ==> MakeCode(curckey, pend[i]) == codes[i]
      modifies this`seg, this`segbytes
      ensures seg == old(seg) + codes && segbytes == SegmentBytes(seg)
    {
      hide CkeyOf, LoOf;
      hide Ascends, SegmentBytes;
      ghost var was := seg;
      for i := 0 to |pend|
        invariant seg == was + codes[..i] && Ascends(seg) && segbytes == SegmentBytes(seg)
      {
        PrefixFits(was + codes, |was| + i);
        assert (was + codes)[..|was| + i] == seg;
        assert (was + codes)[..|was| + i + 1] == seg + [codes[i]];
        var ok := Append(MakeCode(curckey, pend[i]));
        // it never overflows: the group fits
        assert ok;
      }
      assert codes[..|pend|] == codes;
    }

    // A group of few members appended to the open segment, which is closed
    // first if they do not all fit: a key lives in one item only.
    method AppendGroup()
      requires Good(Now()) && hasgroup && !hascur && OpenTight(items, seg, hascur)
      modifies this`items, this`seg, this`segbytes, this`nitems, this`cuts, this`pend, this`hasgroup, this`nckeys,
               this`group
      ensures Good(Now()) && !hasgroup && !hascur && OpenTight(items, seg, hascur)
    {
      hide CkeyOf, LoOf;
      hide Good, Ascends, SegmentBytes, Few, SegmentOk, AllOf, Keys, Cut, Boundary, OpenTight, TooMany;
      ghost var before := Now();
      GoodFacts(Now());
      PendingCodes(Now());
      SegmentFacts(seg, segbytes);
      var fits := seg == [];
      if seg != [] {
        fits := FitsAfter(seg, segbytes, curckey, pend, stream[group..]);
      }
      if !fits {
        GroupTooMany(Now());
        CloseSegment();
      }
      GroupHasRoom(Now());
      GroupAppended(Now());
      GoodFacts(Now());
      SegmentFacts(seg, segbytes);
      AppendAll(stream[group..]);
      TightAsAppended(before, items, seg);
      nckeys := nckeys + 1;
      pend, hasgroup, group := [], false, |stream|;
    }

    // The open group closed: its container emitted, or its few members
    // appended to the open segment.
    method FinishGroup()
      requires Valid()
      modifies this, cur
      ensures Good(Now()) && !hasgroup && !hascur && stream == old(stream) && cur == old(cur)
      ensures OpenTight(items, seg, hascur)
    {
      hide CkeyOf, LoOf;
      hide Good, Tight, TooMany, Optimal, SegmentOk, Cut, Boundary, Keys, AllOf, Ascends, Los, Members;
      GoodFacts(Now());
      if !hasgroup {
        return;
      }
      if hascur {
        cur.OptimizeInPlace();
        ContainerEmitted(Now(), cur.Value());
        TightAsEmitted(items, seg, segbytes, hascur);
        items := items + [Whole(cur.Value())];
        cuts := cuts + [|stream|];
        nitems, nckeys := nitems + 1, nckeys + 1;
        hascur, hasgroup, group := false, false, |stream|;
      } else {
        AppendGroup();
      }
    }

    // The next code, above all before it.
    method Add(code: nat)
      requires Valid() && (stream != [] ==> stream[|stream| - 1] < code)
      modifies this, cur
      ensures Valid() && stream == old(stream) + [code] && (cur == old(cur) || fresh(cur))
    {
      hide Good, CkeyOf, LoOf, Los, Members, CanAdd;
      JoinsOrStarts(Now(), code);
      if !hasgroup || curckey != CkeyOf(code) {
        FinishGroup();
        Starts(Now(), code);
        StartGroup(code);
      } else if hascur {
        AddToContainer(code);
      } else {
        AddPending(code);
      }
    }

    method StartGroup(code: nat)
      requires CanAdd(Now(), code) && !hasgroup && !hascur && pend == []
      modifies this`curckey, this`hasgroup, this`pend, this`ntids, this`stream
      ensures Good(Now()) && hasgroup && stream == old(stream) + [code]
    {
      hide CanAdd, Good;
      GroupGrows(Now(), code, false, [LoOf(code)]);
      curckey, hasgroup := CkeyOf(code), true;
      pend := pend + [LoOf(code)];
      ntids := ntids + 1;
      stream := stream + [code];
    }

    method AddToContainer(code: nat)
      requires Valid() && CanAdd(Now(), code) && hasgroup && hascur
      modifies this`ntids, this`stream, cur
      ensures Valid() && stream == old(stream) + [code]
    {
      hide Good, CkeyOf, Los, Members, CanAdd;
      GoodFacts(Now());
      GroupGrows(Now(), code, true, []);
      CodeAdded(Now(), code);
      AddsInGroup(Now(), code);
      LosGrow(stream[group..], code);
      cur.AppendSorted(LoOf(code));
      ntids := ntids + 1;
      stream := stream + [code];
    }

    method AddPending(code: nat)
      requires Valid() && CanAdd(Now(), code) && hasgroup && !hascur
      modifies this
      ensures Valid() && stream == old(stream) + [code] && (cur == old(cur) || fresh(cur))
    {
      hide Good, CkeyOf, LoOf, Los, Members, CanAdd;
      AddsInGroup(Now(), code);
      if |pend| + 1 < THRESHOLD {
        GroupGrows(Now(), code, false, pend + [LoOf(code)]);
        pend := pend + [LoOf(code)];
        ntids := ntids + 1;
        stream := stream + [code];
      } else {
        Promote(code);
      }
    }

    // With its fourth member the group becomes a container; the open segment,
    // all of earlier keys, goes out before it.
    method Promote(code: nat)
      requires Good(Now()) && CanAdd(Now(), code) && hasgroup && !hascur && |pend| + 1 >= THRESHOLD
      requires OpenTight(items, seg, hascur)
      modifies this
      ensures Valid() && stream == old(stream) + [code] && fresh(cur)
    {
      hide Good, CkeyOf, LoOf, Los, Members, CanAdd, GroupIs, SegmentOk, Cut, Boundary, AllOf, Keys, Ascends;
      CodeAdded(Now(), code);
      AddsInGroup(Now(), code);
      PendingLos(Now(), code);
      ghost var before := Now();
      TightAsEmitted(items, seg, segbytes, hascur);
      CloseSegment();
      StillAdds(before, Now(), code);
      GroupGrows(Now(), code, true, []);
      cur := Gathered(curckey, pend + [LoOf(code)]);
      pend, hascur := [], true;
      ntids := ntids + 1;
      stream := stream + [code];
    }

    method Gathered(ckey: nat, los: seq<nat>) returns (c: Buffer)
      requires forall i :: 0 <= i < |los| ==> los[i] < RANGE
      ensures fresh(c) && c.Valid() && c.ckey == ckey && c.Elements() == ValuesOf(los)
    {
      hide Members, WellFormed;
      c := new Buffer(ckey);
      for i := 0 to |los|
        invariant c.Valid() && c.ckey == ckey && c.Elements() == ValuesOf(los[..i])
      {
        assert los[..i + 1] == los[..i] + [los[i]];
        c.AppendSorted(los[i]);
      }
      assert los[..|los|] == los;
    }

    // The last group and segment closed: the posting set complete.
    method Finish()
      requires Valid()
      modifies this, cur
      ensures stream == old(stream) && Cut(items, stream, cuts) && cuts[|items|] == |stream|
      ensures ntids == |stream| && nitems == |items| && nckeys == Keys(stream, |stream|) && Tight(items)
    {
      hide Good, Cut, Keys, TooMany;
      FinishGroup();
      TightAsEmitted(items, seg, segbytes, hascur);
      CloseSegment();
      GoodFacts(Now());
    }
  }

  // The group's codes as deltas after the segment's last.
  method FitsAfter(seg: seq<nat>, segbytes: nat, ckey: nat, pend: seq<nat>, ghost group: seq<nat>) returns (fits: bool)
    requires seg != [] && Ascends(seg) && Ascends(seg + group) && |group| == |pend| && segbytes == SegmentBytes(seg)
    requires forall i :: 0 <= i < |pend| ==> MakeCode(ckey, pend[i]) == group[i]
    ensures fits <==> |seg| + |pend| <= MAX_PAIRS && SegmentBytes(seg + group) <= MAX_BYTES
  {
    hide Ascends, VarintSize, SegmentBytes;
    if |seg| + |pend| > MAX_PAIRS {
      return false;
    }
    var prev, bytes := seg[|seg| - 1], segbytes;
    ghost var codes, n := seg + group, |seg|;
    assert codes[..n] == seg;
    for i := 0 to |pend|
      invariant n == |seg| + i && Ascends(codes[..n]) && bytes == SegmentBytes(codes[..n]) && prev == codes[n - 1]
    {
      var code := MakeCode(ckey, pend[i]);
      assert code == codes[n];
      BytesStep(codes, n);
      StepUp(codes, n);
      bytes := bytes + VarintSize(code - prev);
      prev := code;
      n := n + 1;
    }
    assert codes[..n] == codes;
    return bytes <= MAX_BYTES;
  }

  lemma PrefixFits(codes: seq<nat>, n: nat)
    requires Ascends(codes) && n < |codes|
    ensures Ascends(codes[..n]) && Ascends(codes[..n + 1]) && SegmentBytes(codes[..n + 1]) <= SegmentBytes(codes)
  {
    BytesGrow(codes, n);
    BytesGrow(codes, n + 1);
  }

  lemma NothingBuilt()
    ensures Good(State([], [], 0, false, 0, false, [], 0, 0, 0, [], [0], 0))
  {
    EmptySegment();
  }

  lemma JoinsOrStarts(s: State, code: nat)
    requires Good(s) && (s.stream == [] || s.hasgroup) && (s.stream != [] ==> s.stream[|s.stream| - 1] < code)
    ensures s.hasgroup && s.curckey == CkeyOf(code) ==> CanAdd(s, code)
    ensures (!s.hasgroup || s.curckey != CkeyOf(code)) && s.stream != [] ==>
              CkeyOf(s.stream[|s.stream| - 1]) < CkeyOf(code)
  {
    if !s.hasgroup || s.curckey != CkeyOf(code) {
      KeysRise(s, code);
    }
  }

  lemma Starts(s: State, code: nat)
    requires Good(s) && !s.hasgroup && !s.hascur && (s.stream != [] ==> s.stream[|s.stream| - 1] < code)
    requires s.stream != [] ==> CkeyOf(s.stream[|s.stream| - 1]) < CkeyOf(code)
    ensures CanAdd(s, code) && s.pend == []
  {
    NoGroup(s);
    hide Good, CkeyOf;
  }

  lemma KeysRise(s: State, code: nat)
    requires Good(s) && (s.stream != [] ==> s.stream[|s.stream| - 1] < code)
    requires (s.stream == [] || s.hasgroup) && (!s.hasgroup || s.curckey != CkeyOf(code))
    ensures s.stream != [] ==> CkeyOf(s.stream[|s.stream| - 1]) < CkeyOf(code)
  {
    if s.hasgroup {
      SliceItems(s.stream, s.group, |s.stream|);
      assert s.stream[s.group..][|s.stream| - 1 - s.group] == s.stream[|s.stream| - 1];
    }
  }

  lemma AddsInGroup(s: State, code: nat)
    requires CanAdd(s, code) && s.hasgroup
    ensures CkeyOf(code) == s.curckey && LoOf(code) < RANGE && LoOf(code) % RANGE == LoOf(code)
  {
  }

  lemma StillAdds(a: State, b: State, code: nat)
    requires CanAdd(a, code) && Good(b) && b.stream == a.stream && b.hasgroup == a.hasgroup && b.curckey == a.curckey
    ensures CanAdd(b, code)
  {
    hide Good;
  }

  // The members pending, with one more, are the group's.
  lemma PendingLos(s: State, code: nat)
    requires CanAdd(s, code) && s.hasgroup && !s.hascur
    ensures ValuesOf(s.pend + [LoOf(code)]) == Los(s.stream[s.group..] + [code])
    ensures forall i :: 0 <= i < |s.pend| + 1 ==> (s.pend + [LoOf(code)])[i] < RANGE
  {
    hide CkeyOf, Cut, Boundary, SegmentOk, Keys, Los, Ascends;
    var group := s.stream[s.group..];
    SliceItems(s.stream, s.group, |s.stream|);
    assert forall i :: 0 <= i < |s.pend| ==> s.pend[i] == LoOf(group[i]);
    SameLos(s.pend, group);
    LosGrow(group, code);
    ValuesGrow(s.pend, LoOf(code));
  }

  lemma SameLos(los: seq<nat>, codes: seq<nat>)
    requires |los| == |codes| && forall i :: 0 <= i < |los| ==> los[i] == LoOf(codes[i])
    ensures ValuesOf(los) == Los(codes)
  {
    forall x
      ensures x in ValuesOf(los) <==> x in Los(codes)
    {
      if x in ValuesOf(los) {
        var i :| 0 <= i < |los| && los[i] == x;
        assert LoOf(codes[i]) == x;
      }
      if x in Los(codes) {
        var i :| 0 <= i < |codes| && LoOf(codes[i]) == x;
        assert los[i] == x;
      }
    }
  }

  lemma ValuesGrow(s: seq<nat>, x: nat)
    ensures ValuesOf(s + [x]) == ValuesOf(s) + {x}
  {
  }

  lemma StepUp(codes: seq<nat>, n: nat)
    requires Ascends(codes) && 0 < n < |codes|
    ensures codes[n - 1] < codes[n]
  {
  }

  lemma EmptySegment()
    ensures SegmentOk([], 0)
  {
  }

  /* ---------- what the items are ---------- */

  // The items of any ascending codes.
  method MakeItems(codes: seq<nat>)
    returns (items: seq<Item>, ntids: nat, nckeys: nat, nitems: nat, ghost cuts: seq<nat>)
    requires Ascends(codes)
    ensures Cut(items, codes, cuts) && cuts[|items|] == |codes|
    ensures ntids == |codes| && nitems == |items| && nckeys == Keys(codes, |codes|)
    ensures forall k :: 0 <= k < |items| && items[k].Pairs? ==> Streams(items[k].codes, items[k].nbytes)
    ensures Tight(items)
  {
    hide Cut, Keys, Streams, Tight;
    var b := new Builder();
    for i := 0 to |codes|
      invariant fresh(b) && fresh(b.cur) && b.Valid() && b.stream == codes[..i]
    {
      hide Good;
      assert codes[..i + 1] == codes[..i] + [codes[i]];
      b.Add(codes[i]);
    }
    assert codes[..|codes|] == codes;
    b.Finish();
    items, ntids, nckeys, nitems, cuts := b.items, b.ntids, b.nckeys, b.nitems, b.cuts;
    forall k | 0 <= k < |items| && items[k].Pairs?
      ensures Streams(items[k].codes, items[k].nbytes)
    {
      ItemStreams(items, codes, cuts, k);
    }
  }

  // A segment of these codes has a stream of nbytes bytes, within its limit, that
  // reads back as the codes, the first being read from its key's first code.
  ghost predicate Streams(codes: seq<nat>, nbytes: nat) {
    && 0 < |codes| <= 255 && Rise(codes[0] / 32768 * 32768, codes)
    && nbytes == |Stream(codes[0] / 32768 * 32768, codes)| <= 255
    && ReadCodes(codes[0] / 32768 * 32768, Stream(codes[0] / 32768 * 32768, codes)) == codes
  }

  lemma {:induction false} SegmentIsStream(codes: seq<nat>)
    requires Ascends(codes) && codes != []
    ensures var base := codes[0] / 32768 * 32768;
            Rise(base, codes) && |Stream(base, codes)| == SegmentBytes(codes)
    decreases |codes|
  {
    var n, base := |codes| - 1, codes[0] / 32768 * 32768;
    assert codes == codes[..n] + [codes[n]];
    if n > 0 {
      SegmentIsStream(codes[..n]);
    } else {
      assert codes[..0] == [];
      assert codes[0] - base == LoOf(codes[0]);
    }
    StreamOfMore(base, codes[..n], codes[n]);
    OneMoreCode(codes[..n], codes[n]);
    hide Varint, VarintSize;
  }

  lemma ItemStreams(items: seq<Item>, stream: seq<nat>, cuts: seq<nat>, k: nat)
    requires Cut(items, stream, cuts) && k < |items| && items[k].Pairs?
    ensures cuts[k] <= cuts[k + 1] <= |stream| && items[k].codes == stream[cuts[k]..cuts[k + 1]]
    ensures Streams(items[k].codes, items[k].nbytes)
  {
    assert ItemAt(items, stream, cuts, k) && Boundary(stream, cuts[k + 1]);
    var codes := items[k].codes;
    SegmentIsStream(codes);
    StreamReadsBack(codes[0] / 32768 * 32768, codes);
    hide SegmentBytes, Stream, ReadCodes, Rise, Few;
  }

  // The key of a code is its item's and no other's.
  lemma EachKeyInOneItem(items: seq<Item>, stream: seq<nat>, cuts: seq<nat>, k: nat, j: nat, x: nat, y: nat)
    requires Cut(items, stream, cuts) && k < j < |items| && cuts[k] <= x < cuts[k + 1] && cuts[j] <= y < cuts[j + 1]
    ensures x < y < |stream| && CkeyOf(stream[x]) < CkeyOf(stream[y])
  {
    hide ItemAt, CkeyOf;
    assert k + 1 < j ==> cuts[k + 1] < cuts[j];
    assert Boundary(stream, cuts[j]) && Boundary(stream, cuts[j + 1]);
    EarlierKeys(stream, cuts[j]);
    KeysAscend(stream, cuts[j], y);
  }

  // A key of THRESHOLD codes or more is a container, of fewer a segment's.
  lemma ManyMakeContainer(items: seq<Item>, stream: seq<nat>, cuts: seq<nat>, k: nat, x: nat)
    requires Cut(items, stream, cuts) && k < |items| && cuts[k] <= x < cuts[k + 1] && cuts[|items|] == |stream|
    ensures items[k].Whole? <==>
            exists i :: 0 <= i && i + THRESHOLD <= |stream| && i <= x < i + THRESHOLD &&
              CkeyOf(stream[i]) == CkeyOf(stream[x]) == CkeyOf(stream[i + THRESHOLD - 1])
  {
    assert ItemAt(items, stream, cuts, k);
    var a, b := cuts[k], cuts[k + 1];
    var codes := stream[a..b];
    assert b <= |stream| by {
      assert Boundary(stream, cuts[k + 1]);
    }
    SliceItems(stream, a, b);
    if items[k].Whole? {
      var i := if x + THRESHOLD <= b then x else b - THRESHOLD;
      assert codes[i - a] == stream[i] && codes[x - a] == stream[x];
      assert codes[i + THRESHOLD - 1 - a] == stream[i + THRESHOLD - 1];
    } else {
      NoneOfMany(items, stream, cuts, k, x);
    }
  }

  lemma FewOfItem(item: Item, codes: seq<nat>)
    requires ItemHolds(item, codes) && item.Pairs?
    ensures Few(codes)
  {
  }

  lemma NoneOfMany(items: seq<Item>, stream: seq<nat>, cuts: seq<nat>, k: nat, x: nat)
    requires Cut(items, stream, cuts) && k < |items| && cuts[k] <= x < cuts[k + 1] && items[k].Pairs?
    ensures forall i :: 0 <= i && i + THRESHOLD <= |stream| && i <= x < i + THRESHOLD ==>
              !(CkeyOf(stream[i]) == CkeyOf(stream[x]) == CkeyOf(stream[i + THRESHOLD - 1]))
  {
    assert ItemAt(items, stream, cuts, k);
    var a, b := cuts[k], cuts[k + 1];
    assert Boundary(stream, a) && Boundary(stream, b) && Ascends(stream);
    FewOfItem(items[k], stream[a..b]);
    hide Cut, ItemAt, ItemHolds, Boundary, Few, CkeyOf, Ascends;
    forall i | 0 <= i && i + THRESHOLD <= |stream| && i <= x < i + THRESHOLD
      ensures !(CkeyOf(stream[i]) == CkeyOf(stream[x]) == CkeyOf(stream[i + THRESHOLD - 1]))
    {
      NotMany(stream, a, b, i, x);
    }
  }

  lemma NotMany(stream: seq<nat>, a: nat, b: nat, i: nat, x: nat)
    requires Ascends(stream) && a <= x < b <= |stream| && Boundary(stream, a) && Boundary(stream, b)
    requires Few(stream[a..b])
    requires i + THRESHOLD <= |stream| && i <= x < i + THRESHOLD
    ensures !(CkeyOf(stream[i]) == CkeyOf(stream[x]) == CkeyOf(stream[i + THRESHOLD - 1]))
  {
    hide CkeyOf, Ascends;
    var j := i + THRESHOLD - 1;
    if i < a {
      EarlierKeys(stream, a);
      KeysAscend(stream, a, x);
    } else if j >= b {
      EarlierKeys(stream, b);
      KeysAscend(stream, b, j);
    } else {
      assert stream[a..b][i - a] == stream[i] && stream[a..b][j - a] == stream[j];
    }
  }
}
