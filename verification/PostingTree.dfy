/**
  The tree above a posting set's leaves: internal levels filled bottom-up with
  fixed-size downlinks, the root at a block reserved for it.
*/
module PostingTree {
  import opened Options
  import opened Pages

  const NEED: nat := 12         // a downlink's cost on a page, line pointer in
  const FANOUT: nat := 677      // downlinks of a page that is not the last of its level

  datatype Pivot = Pivot(ckey: nat, child: nat)

  // An internal page: its downlinks, the first key of the page to the right,
  // and the head of the set it belongs to.
  datatype Node = Node(level: nat, downs: seq<Pivot>, high: Option<nat>, right: Option<nat>, owner: nat)

  // A level's open page, and the pages written before it.
  datatype Level = Level(items: seq<Pivot>, npages: nat, blkno: Option<nat>)

  // What a level has been given, and the blocks of its pages.
  datatype History = History(fed: seq<Pivot>, blks: seq<nat>)

  function Start(j: nat): nat { j * FANOUT }

  // Page j of a level, once page j + 1 is known to follow.
  ghost function PageAt(level: nat, h: History, j: nat, owner: nat): Node
    requires Start(j) <= |h.fed| && j < |h.blks|
  {
    var last := Start(j + 1) >= |h.fed| || j + 1 >= |h.blks|;
    Node(level, if last then h.fed[Start(j)..] else h.fed[Start(j)..Start(j + 1)],
         if last then None else Some(h.fed[Start(j + 1)].ckey), if last then None else Some(h.blks[j + 1]), owner)
  }

  ghost predicate Ascending(fed: seq<Pivot>) {
    (forall i, j :: 0 <= i < j < |fed| ==> fed[i].ckey < fed[j].ckey) && (fed != [] ==> fed[0].ckey == 0)
  }

  ghost predicate PageOk(level: nat, h: History, j: nat, owner: nat, file: map<nat, Node>) {
    Start(j) <= |h.fed| && j < |h.blks| && h.blks[j] in file && file[h.blks[j]] == PageAt(level, h, j, owner)
  }

  ghost predicate PagesOk(level: nat, h: History, n: nat, owner: nat, file: map<nat, Node>) {
    Ascending(h.fed) && n <= |h.blks| && forall j :: 0 <= j < n ==> PageOk(level, h, j, owner, file)
  }

  // The level above is given a downlink for each page.
  ghost predicate FedBy(up: History, h: History, n: nat) {
    && |up.fed| == n <= |h.blks|
    && forall j :: 0 <= j < n ==> Start(j) < |h.fed| && up.fed[j] == Pivot(h.fed[Start(j)].ckey, h.blks[j])
  }

  // Between additions; with e = 1 an item is about to be added.
  ghost predicate LevelOk(lv: Level, h: History, level: nat, owner: nat, file: map<nat, Node>, e: nat) {
    && PagesOk(level, h, lv.npages, owner, file) && e <= 1
    && Start(lv.npages) + |lv.items| + e == |h.fed| && |lv.items| <= FANOUT
    && lv.items == h.fed[Start(lv.npages)..|h.fed| - e]
    && |h.blks| == lv.npages + (if lv.blkno.Some? then 1 else 0)
    && (lv.blkno.Some? <==> lv.npages > 0) && (lv.blkno.Some? ==> h.blks[lv.npages] == lv.blkno.value)
  }

  /* ---------- the build ---------- */

  datatype Snapshot = Snapshot(levels: seq<Level>, hist: seq<History>, nblocks: nat, file: map<nat, Node>,
                               owner: map<nat, nat>)

  ghost predicate Blocks(s: Snapshot) {
    (forall b :: b in s.owner ==> b < s.nblocks) && forall b :: b in s.file ==> b in s.owner
  }

  ghost predicate LevelKept(s: Snapshot, k: nat, head: nat, e: nat) {
    && k < |s.levels| == |s.hist| && LevelOk(s.levels[k], s.hist[k], k + 1, head, s.file, e)
    && (e == 0 && s.levels[k].npages > 0 ==> s.levels[k].items != [])
    && (s.levels[k].npages == 0 <==> k + 1 == |s.levels|)
    && (k + 1 < |s.levels| ==> FedBy(s.hist[k + 1], s.hist[k], s.levels[k].npages))
    && (s.levels[k].blkno.Some? ==>
          var b := s.levels[k].blkno.value; b in s.owner && s.owner[b] == k + 1 && b !in s.file)
  }

  ghost predicate Upper(s: Snapshot, i: nat, head: nat) {
    Blocks(s) && |s.levels| == |s.hist| && forall k :: i <= k < |s.levels| ==> LevelKept(s, k, head, 0)
  }

  // Work on levels i and up leaves the others, and what is written, alone.
  ghost predicate Keeps(a: Snapshot, b: Snapshot, i: nat) {
    && i <= |a.levels| <= |b.levels| && |a.hist| == |a.levels| && |b.hist| == |b.levels|
    && (forall k :: 0 <= k < i ==> b.levels[k] == a.levels[k] && b.hist[k] == a.hist[k])
    && a.nblocks <= b.nblocks
    && (forall x :: x in a.file ==> x in b.file && b.file[x] == a.file[x])
    && (forall x :: x in a.owner ==> x in b.owner && b.owner[x] == a.owner[x])
    && (forall x :: x in b.file && x !in a.file ==> x in b.owner && b.owner[x] > i)
  }

  lemma KeepsOn(a: Snapshot, b: Snapshot, c: Snapshot, i: nat, j: nat)
    requires Keeps(a, b, i) && Keeps(b, c, j) && i <= j
    ensures Keeps(a, c, i)
  {
  }

  lemma KeepsFacts(a: Snapshot, b: Snapshot, i: nat)
    requires Keeps(a, b, i)
    ensures |a.levels| <= |b.levels| == |b.hist|
    ensures forall k :: 0 <= k < i ==> b.levels[k] == a.levels[k] && b.hist[k] == a.hist[k]
    ensures forall x :: x in a.file ==> x in b.file && b.file[x] == a.file[x]
    ensures forall x :: x in a.owner ==> x in b.owner && b.owner[x] == a.owner[x]
    ensures forall x :: x in b.file && x !in a.file ==> x in b.owner && b.owner[x] > i
  {
  }

  lemma LevelStays(lv: Level, h: History, level: nat, owner: nat, e: nat, a: map<nat, Node>, b: map<nat, Node>)
    requires LevelOk(lv, h, level, owner, a, e) && forall x :: x in a ==> x in b && b[x] == a[x]
    ensures LevelOk(lv, h, level, owner, b, e)
  {
    hide PageAt, Ascending;
    forall j | 0 <= j < lv.npages
      ensures PageOk(level, h, j, owner, b)
    {
      assert PageOk(level, h, j, owner, a);
    }
  }

  // An item given to the level.
  lemma FedMore(lv: Level, h: History, level: nat, owner: nat, file: map<nat, Node>, x: Pivot)
    requires LevelOk(lv, h, level, owner, file, 0) && (lv.npages > 0 ==> lv.items != [])
    requires if h.fed == [] then x.ckey == 0 else h.fed[|h.fed| - 1].ckey < x.ckey
    ensures LevelOk(lv, History(h.fed + [x], h.blks), level, owner, file, 1)
  {
    var h2 := History(h.fed + [x], h.blks);
    FedAscends(h.fed, x);
    hide Ascending;
    assert lv.items == h2.fed[Start(lv.npages)..|h2.fed| - 1];
    forall j | 0 <= j < lv.npages
      ensures PageOk(level, h2, j, owner, file)
    {
      assert PageOk(level, h, j, owner, file);
      SamePage(level, h, h2, j, owner, x, lv.npages);
    }
    hide PageAt, PageOk;
  }

  lemma FedAscends(fed: seq<Pivot>, x: Pivot)
    requires Ascending(fed) && if fed == [] then x.ckey == 0 else fed[|fed| - 1].ckey < x.ckey
    ensures Ascending(fed + [x])
  {
    var more := fed + [x];
    forall i, j | 0 <= i < j < |more|
      ensures more[i].ckey < more[j].ckey
    {
      assert j == |fed| && i < j - 1 ==> fed[i].ckey < fed[j - 1].ckey;
    }
  }

  lemma SamePage(level: nat, h: History, h2: History, j: nat, owner: nat, x: Pivot, n: nat)
    requires h2 == History(h.fed + [x], h.blks) && j < n && Start(n) < |h.fed| && j + 1 < |h.blks|
    ensures PageAt(level, h2, j, owner) == PageAt(level, h, j, owner)
  {
    assert Start(j + 1) <= Start(n);
    assert h2.fed[Start(j)..Start(j + 1)] == h.fed[Start(j)..Start(j + 1)];
  }

  lemma FedStays(up: History, h: History, n: nat, x: Pivot)
    requires FedBy(up, h, n)
    ensures FedBy(up, History(h.fed + [x], h.blks), n)
  {
  }

  // The full page written to b, next after it.
  ghost function Written(h: History, lv: Level, b: nat, next: nat): History {
    History(h.fed, (if lv.blkno.Some? then h.blks else h.blks + [b]) + [next])
  }

  lemma PageDone(lv: Level, h: History, level: nat, owner: nat, file: map<nat, Node>, b: nat, next: nat, page: Node)
    requires LevelOk(lv, h, level, owner, file, 1) && |lv.items| == FANOUT && b !in file
    requires lv.blkno.Some? ==> b == lv.blkno.value
    requires page == Node(level, lv.items, Some(h.fed[|h.fed| - 1].ckey), Some(next), owner)
    ensures LevelOk(Level([], lv.npages + 1, Some(next)), Written(h, lv, b, next), level, owner, file[b := page], 1)
  {
    var h2, n, file2 := Written(h, lv, b, next), lv.npages, file[b := page];
    assert h2.fed[Start(n)..Start(n + 1)] == lv.items;
    forall j | 0 <= j < n + 1
      ensures PageOk(level, h2, j, owner, file2)
    {
      if j < n {
        assert PageOk(level, h, j, owner, file);
        assert Start(j + 1) <= Start(n) < |h.fed|;
      }
    }
    hide Ascending;
  }

  // The open items of levels i and up.
  ghost function Open(levels: seq<Level>, i: nat): nat
    decreases |levels| - i
  {
    if i >= |levels| then 0 else |levels[i].items| + Open(levels, i + 1)
  }

  lemma {:induction false} OpenAbove(a: seq<Level>, b: seq<Level>, i: nat)
    requires |a| == |b| && forall j :: i <= j < |a| ==> a[j] == b[j]
    ensures Open(a, i) == Open(b, i)
    decreases |a| - i
  {
    if i < |a| {
      OpenAbove(a, b, i + 1);
    }
  }

  lemma OpenSet(levels: seq<Level>, i: nat, lv: Level)
    requires i < |levels|
    ensures Open(levels[i := lv], i) == |lv.items| + Open(levels, i + 1)
    ensures Open(levels, i) == |levels[i].items| + Open(levels, i + 1)
  {
    OpenAbove(levels, levels[i := lv], i + 1);
  }

  const EMPTY_LEVEL: Level := Level([], 0, None)
  const NO_HISTORY: History := History([], [])

  lemma {:induction false} OpenExtends(levels: seq<Level>, i: nat)
    requires i <= |levels|
    ensures Open(levels + [EMPTY_LEVEL], i) == Open(levels, i)
    decreases |levels| - i
  {
    if i < |levels| {
      OpenExtends(levels, i + 1);
    }
  }

  lemma KeptStays(s: Snapshot, s2: Snapshot, k: nat, head: nat, e: nat)
    requires LevelKept(s, k, head, e) && |s2.levels| == |s.levels| && |s2.hist| == |s.hist|
    requires s2.levels[k] == s.levels[k] && s2.hist[k] == s.hist[k]
    requires k + 1 < |s.hist| ==> s2.hist[k + 1] == s.hist[k + 1]
    requires forall x :: x in s.file ==> x in s2.file && s2.file[x] == s.file[x]
    requires forall x :: x in s.owner ==> x in s2.owner && s2.owner[x] == s.owner[x]
    requires forall x :: x in s2.file && x !in s.file ==> x in s2.owner && s2.owner[x] != k + 1
    ensures LevelKept(s2, k, head, e)
  {
    hide LevelOk, FedBy;
    LevelStays(s.levels[k], s.hist[k], k + 1, head, e, s.file, s2.file);
  }

  // Levels above i after a block was taken, or written, for level i or below.
  lemma UpperStays(s: Snapshot, s2: Snapshot, i: nat, head: nat)
    requires Upper(s, i, head) && s2.levels == s.levels && s2.hist == s.hist && Blocks(s2)
    requires forall x :: x in s.file ==> x in s2.file && s2.file[x] == s.file[x]
    requires forall x :: x in s.owner ==> x in s2.owner && s2.owner[x] == s.owner[x]
    requires forall x :: x in s2.file && x !in s.file ==> x in s2.owner && s2.owner[x] <= i
    ensures Upper(s2, i, head)
  {
    hide LevelKept;
    forall k | i <= k < |s.levels|
      ensures LevelKept(s2, k, head, 0)
    {
      KeptStays(s, s2, k, head, 0);
    }
  }

  // Level i put back after the levels above it were worked on.
  lemma SetLevel(a: Snapshot, s: Snapshot, i: nat, lv: Level, h: History, head: nat)
    requires Keeps(a, s, i) && Upper(s, i + 1, head) && i < |a.levels| && i < |s.levels|
    ensures var s2 := s.(levels := s.levels[i := lv], hist := s.hist[i := h]); Upper(s2, i + 1, head) && Keeps(a, s2, i)
  {
    hide LevelKept;
    var s2 := s.(levels := s.levels[i := lv], hist := s.hist[i := h]);
    forall k | i + 1 <= k < |s.levels|
      ensures LevelKept(s2, k, head, 0)
    {
      assert LevelKept(s, k, head, 0);
      KeptStays(s, s2, k, head, 0);
    }
  }

  lemma KeptFacts(s: Snapshot, k: nat, head: nat, e: nat)
    requires LevelKept(s, k, head, e)
    ensures k < |s.levels| == |s.hist| && LevelOk(s.levels[k], s.hist[k], k + 1, head, s.file, e)
    ensures (s.levels[k].npages == 0 <==> k + 1 == |s.levels|) && (s.levels[k].blkno.Some? <==> s.levels[k].npages > 0)
    ensures k + 1 < |s.levels| ==> FedBy(s.hist[k + 1], s.hist[k], s.levels[k].npages)
    ensures s.levels[k].blkno.Some? ==>
              var b := s.levels[k].blkno.value; b in s.owner && s.owner[b] == k + 1 && b !in s.file
  {
  }

  lemma OpenFacts(lv: Level, h: History, level: nat, owner: nat, file: map<nat, Node>, e: nat)
    requires LevelOk(lv, h, level, owner, file, e)
    ensures Ascending(h.fed) && |lv.items| <= FANOUT && Start(lv.npages) + |lv.items| + e == |h.fed|
    ensures forall k :: 0 <= k < |lv.items| ==> lv.items[k] == h.fed[Start(lv.npages) + k]
  {
  }

  // A level written, and what it gave the one above.
  lemma FedNext(lv: Level, h: History, level: nat, owner: nat, file: map<nat, Node>, e: nat, up: History, up2: History,
                b: nat, blks: seq<nat>)
    requires LevelOk(lv, h, level, owner, file, e) && lv.items != [] && (lv.blkno.Some? ==> b == lv.blkno.value)
    requires if lv.npages == 0 then up.fed == [] else FedBy(up, h, lv.npages)
    requires up2.fed == up.fed + [Pivot(lv.items[0].ckey, b)] && |blks| >= lv.npages + 1 && blks[lv.npages] == b
    requires forall j :: 0 <= j < lv.npages ==> blks[j] == h.blks[j]
    ensures FedBy(up2, History(h.fed, blks), lv.npages + 1)
  {
    forall j | 0 <= j < lv.npages + 1
      ensures Start(j) < |h.fed| && up2.fed[j] == Pivot(h.fed[Start(j)].ckey, blks[j])
    {
      if j < lv.npages {
        assert up.fed[j] == Pivot(h.fed[Start(j)].ckey, h.blks[j]);
      }
    }
  }

  // What is handed up comes after what was.
  lemma HandsUpInOrder(lv: Level, h: History, level: nat, owner: nat, file: map<nat, Node>, e: nat, up: History)
    requires LevelOk(lv, h, level, owner, file, e) && lv.items != []
    requires if lv.npages == 0 then up.fed == [] else FedBy(up, h, lv.npages)
    ensures if up.fed == [] then lv.items[0].ckey == 0 else up.fed[|up.fed| - 1].ckey < lv.items[0].ckey
  {
    if lv.npages > 0 {
      var j := lv.npages - 1;
      assert up.fed[j] == Pivot(h.fed[Start(j)].ckey, h.blks[j]);
      assert Start(j) < Start(lv.npages);
    }
  }

  class TreeBuilder {
    const head: nat                 // the root's block, which every page names
    var levels: seq<Level>
    var nblocks: nat
    var file: map<nat, Node>
    var height: nat
    ghost var hist: seq<History>
    ghost var owner: map<nat, nat>  // the level a block was taken for, 0 for others

    ghost function Now(): Snapshot
      reads this
    {
      Snapshot(levels, hist, nblocks, file, owner)
    }

    // The root's block reserved, and one level above the leaves, whose blocks
    // are taken.
    constructor (nblocks: nat, ghost taken: set<nat>)
      requires forall b :: b in taken ==> b < nblocks
      ensures Upper(Now(), 0, head) && |levels| == 1 && hist == [NO_HISTORY] && head == nblocks
      ensures this.nblocks == nblocks + 1
      ensures file == map[] && head in owner && owner[head] == 0
      ensures forall b :: b in taken ==> b in owner && owner[b] == 0
    {
      head := nblocks;
      this.nblocks := nblocks + 1;
      levels, file, height := [EMPTY_LEVEL], map[], 0;
      hist, owner := [NO_HISTORY], map b | b in taken + {nblocks} :: 0;
    }

    // A block for a leaf.
    method LeafBlock() returns (b: nat)
      requires Upper(Now(), 0, head)
      modifies this`nblocks, this`owner
      ensures Upper(Now(), 0, head) && b == old(nblocks) && nblocks == b + 1 && b !in old(owner)
      ensures owner == old(owner)[b := 0]
    {
      ghost var before := Now();
      b := Alloc(0);
      UpperStays(before, Now(), 0, head);
    }

    method Alloc(ghost level: nat) returns (b: nat)
      requires Blocks(Now())
      modifies this`nblocks, this`owner
      ensures Blocks(Now()) && b == old(nblocks) && nblocks == b + 1 && b !in old(owner)
      ensures owner == old(owner)[b := level]
    {
      b := nblocks;
      nblocks := nblocks + 1;
      owner := owner[b := level];
    }

    // A block for level i.
    method TakeBlock(i: nat, ghost e: nat) returns (b: nat)
      requires Upper(Now(), i + 1, head) && LevelKept(Now(), i, head, e)
      modifies this`nblocks, this`owner
      ensures b !in old(owner) && owner == old(owner)[b := i + 1] && b !in file
      ensures Upper(Now(), i + 1, head) && LevelKept(Now(), i, head, e) && Keeps(old(Now()), Now(), i)
    {
      hide LevelKept;
      ghost var before := Now();
      KeptInBounds(before, i, head, e);
      b := Alloc(i + 1);
      UpperStays(before, Now(), i + 1, head);
      KeptStays(before, Now(), i, head, e);
    }

    method WriteNode(i: nat, b: nat, page: Node)
      requires Upper(Now(), i + 1, head) && b in owner && (owner[b] == i + 1) && b !in file && i < |levels|
      modifies this`file
      ensures file == old(file)[b := page] && Upper(Now(), i + 1, head) && Keeps(old(Now()), Now(), i)
    {
      ghost var before := Now();
      file := file[b := page];
      UpperStays(before, Now(), i + 1, head);
    }

    // The full page of level i written, its first downlink's key handed up.
    method Flush(i: nat, ckey: nat)
      requires Upper(Now(), i + 1, head) && LevelKept(Now(), i, head, 1) && |levels[i].items| == FANOUT
      requires hist[i].fed[|hist[i].fed| - 1].ckey == ckey
      modifies this
      ensures Upper(Now(), i + 1, head) && LevelKept(Now(), i, head, 1) && Keeps(old(Now()), Now(), i)
      ensures levels[i].items == [] && levels[i].npages == old(levels[i].npages) + 1
      ensures hist[i].fed == old(hist[i].fed) && Open(levels, i) <= old(Open(levels, i))
      decreases Open(levels, i), 1
    {
      hide LevelOk, FedBy, Keeps, Upper, LevelKept, Open;
      KeptFacts(Now(), i, head, 1);
      var lv := levels[i];
      OpenSet(levels, i, lv);
      ghost var h, before := hist[i], Now();
      ghost var up := if i + 1 < |hist| then hist[i + 1] else NO_HISTORY;
      var b, next := PutPage(i, ckey);
      ghost var written, h2 := Now(), Written(h, lv, b, next);
      HandUp(i, b, 1);
      KeepsFacts(written, Now(), i + 1);
      FedNext(lv, h, i + 1, head, before.file, 1, up, hist[i + 1], b, h2.blks);
      var lv2 := Level([], lv.npages + 1, Some(next));
      LevelStays(lv2, h2, i + 1, head, 1, written.file, file);
      KeepsOn(before, written, Now(), i, i + 1);
      Reopen(before, Now(), i, lv2, h2, head);
      OpenSet(levels, i, lv2);
      levels, hist := levels[i := lv2], hist[i := h2];
    }

    // The page itself, at the block its left sibling names, or a new one.
    method PutPage(i: nat, ckey: nat) returns (b: nat, next: nat)
      requires Upper(Now(), i + 1, head) && LevelKept(Now(), i, head, 1) && |levels[i].items| == FANOUT
      requires hist[i].fed[|hist[i].fed| - 1].ckey == ckey
      modifies this
      ensures levels == old(levels) && hist == old(hist) && Upper(Now(), i + 1, head) && Keeps(old(Now()), Now(), i)
      ensures LevelOk(levels[i], hist[i], i + 1, head, file, 1)
      ensures LevelOk(Level([], levels[i].npages + 1, Some(next)), Written(hist[i], levels[i], b, next), i + 1, head,
                      file, 1)
      ensures next in owner && owner[next] == i + 1 && next !in file
      ensures levels[i].blkno.Some? ==> b == levels[i].blkno.value
    {
      hide LevelOk, Keeps, Upper, LevelKept;
      KeptFacts(Now(), i, head, 1);
      var lv := levels[i];
      ghost var before := Now();
      if lv.blkno.None? {
        b := TakeBlock(i, 1);
      } else {
        b := lv.blkno.value;
        KeepsSelf(before, i);
      }
      ghost var middle := Now();
      KeptFacts(Now(), i, head, 1);
      next := TakeBlock(i, 1);
      KeepsOn(before, middle, Now(), i, i);
      ghost var taken := Now();
      var page := Node(i + 1, lv.items, Some(ckey), Some(next), head);
      PageDone(lv, hist[i], i + 1, head, before.file, b, next, page);
      WriteNode(i, b, page);
      KeepsOn(before, taken, Now(), i, i);
      LevelStays(lv, hist[i], i + 1, head, 1, before.file, file);
    }

    method AddLevel(i: nat)
      requires Upper(Now(), i + 1, head) && i + 1 == |levels| == |hist|
      modifies this`levels, this`hist
      ensures levels == old(levels) + [EMPTY_LEVEL] && hist == old(hist) + [NO_HISTORY]
      ensures Upper(Now(), i + 1, head) && Keeps(old(Now()), Now(), i + 1)
    {
      levels := levels + [EMPTY_LEVEL];
      hist := hist + [NO_HISTORY];
    }

    // The downlink to the page of level i just written, handed up.
    method HandUp(i: nat, b: nat, ghost e: nat)
      requires Upper(Now(), i + 1, head) && i < |levels| == |hist| && levels[i].items != []
      requires LevelOk(levels[i], hist[i], i + 1, head, file, e)
      requires levels[i].npages == 0 <==> i + 1 == |levels|
      requires i + 1 < |levels| ==> FedBy(hist[i + 1], hist[i], levels[i].npages)
      modifies this
      ensures Upper(Now(), i + 1, head) && i + 1 < |levels| && Keeps(old(Now()), Now(), i + 1)
      ensures hist[i + 1].fed ==
                (if i + 1 < |old(hist)| then old(hist)[i + 1].fed else []) + [Pivot(levels[i].items[0].ckey, b)]
      ensures levels[i + 1].items != [] && Open(levels, i + 1) <= old(Open(levels, i + 1)) + 1
      decreases Open(levels, i), 0
    {
      hide LevelOk, FedBy, Upper, Keeps;
      ghost var before := Now();
      ghost var up := if i + 1 < |hist| then hist[i + 1] else NO_HISTORY;
      HandsUpInOrder(levels[i], hist[i], i + 1, head, file, e, up);
      var ckey := levels[i].items[0].ckey;
      if i + 1 == |levels| {
        OpenExtends(levels, i + 1);
        OpenExtends(levels, i);
        AddLevel(i);
      } else {
        KeepsSelf(before, i + 1);
      }
      ghost var middle := Now();
      UpperFacts(middle, i + 1, head);
      Add(i + 1, ckey, b);
      KeepsOn(before, middle, Now(), i + 1, i + 1);
      KeepsFacts(before, Now(), i + 1);
    }

    // One downlink more on level i.
    method Add(i: nat, ckey: nat, child: nat)
      requires Upper(Now(), i, head) && i < |levels| == |hist|
      requires hist[i].fed != [] ==> hist[i].fed[|hist[i].fed| - 1].ckey < ckey
      requires levels[i].npages > 0 ==> levels[i].items != []
      modifies this
      ensures Upper(Now(), i, head) && i < |levels| == |hist| && Keeps(old(Now()), Now(), i)
      ensures hist[i].fed == old(hist[i].fed) + [Pivot(if old(hist[i].fed) == [] then 0 else ckey, child)]
      ensures levels[i].items != [] && Open(levels, i) <= old(Open(levels, i)) + 1
      decreases Open(levels, i), 2
    {
      hide LevelOk, FedBy, Keeps, Upper, LevelKept;
      ghost var before := Now();
      UpperFacts(before, i, head);
      var x := Pivot(if levels[i].npages == 0 && levels[i].items == [] then 0 else ckey, child);
      FirstOfLevel(levels[i], hist[i], i + 1, head, file);
      ghost var h := History(hist[i].fed + [x], hist[i].blks);
      GivenOne(before, i, head, x);
      hist := hist[i := h];
      ghost var middle := Now();
      KeptFacts(middle, i, head, 1);
      OpenFacts(levels[i], h, i + 1, head, file, 1);
      if |levels[i].items| >= 2 && NEED * |levels[i].items| + 2 * NEED > CAPACITY {
        Flush(i, x.ckey);
        KeepsOn(before, middle, Now(), i, i);
      }
      PutOpen(i, x, before);
    }

    method PutOpen(i: nat, x: Pivot, ghost before: Snapshot)
      requires Upper(Now(), i + 1, head) && LevelKept(Now(), i, head, 1) && x == hist[i].fed[|hist[i].fed| - 1]
      requires |levels[i].items| < FANOUT && Keeps(before, Now(), i) && i < |before.levels|
      modifies this`levels
      ensures Upper(Now(), i, head) && i < |levels| == |hist| && Keeps(before, Now(), i)
      ensures levels[i].items != [] && Open(levels, i) == old(Open(levels, i)) + 1
    {
      hide LevelOk, FedBy, Keeps, Upper, LevelKept;
      KeptFacts(Now(), i, head, 1);
      var lv := levels[i];
      var lv2 := Level(lv.items + [x], lv.npages, lv.blkno);
      ItemPut(lv, hist[i], i + 1, head, file, x);
      OpenSet(levels, i, lv2);
      SetOpen(before, Now(), i, lv2, head);
      levels := levels[i := lv2];
    }

    // The last page of level i, which has no high key: the root, at the block
    // reserved for it, when it is the only one.
    method FlushLast(i: nat, isroot: bool)
      requires Upper(Now(), i, head) && i < |levels| && (isroot <==> levels[i].npages == 0) && levels[i].items != []
      requires head in owner && owner[head] == 0 && head !in file
      modifies this
      ensures Keeps0(old(Now()), Now(), i, head) && i < |levels| && hist[i].fed == old(hist[i].fed)
      ensures Closed(hist[i], levels[i].npages, i + 1, head, file) && levels[i].npages == old(levels[i].npages) + 1
      ensures isroot ==> hist[i].blks == [head] && height == i + 1 == |levels|
      ensures !isroot ==> Upper(Now(), i + 1, head) && i + 1 < |levels| && FedBy(hist[i + 1], hist[i], levels[i].npages)
      ensures !isroot ==> levels[i + 1].items != [] && head in owner && owner[head] == 0 && head !in file
    {
      if isroot {
        FlushRoot(i);
      } else {
        FlushEnd(i);
      }
    }

    method FlushRoot(i: nat)
      requires Upper(Now(), i, head) && i < |levels| && levels[i].npages == 0 && levels[i].items != []
      requires head in owner && owner[head] == 0 && head !in file
      modifies this
      ensures Keeps0(old(Now()), Now(), i, head) && i < |levels| && hist[i].fed == old(hist[i].fed)
      ensures Closed(hist[i], levels[i].npages, i + 1, head, file) && levels[i].npages == 1
      ensures hist[i].blks == [head] && height == i + 1 == |levels|
    {
      hide LevelOk, FedBy, Upper, LevelKept, Closed, Blocks;
      UpperFacts(Now(), i, head);
      KeptFacts(Now(), i, head, 0);
      var lv := levels[i];
      var page := Node(i + 1, lv.items, None, None, head);
      LastClosed(lv, hist[i], i + 1, head, file, head, page);
      file := file[head := page];
      height := i + 1;
      levels, hist := levels[i := Level([], 1, None)], hist[i := History(hist[i].fed, [head])];
    }

    method FlushEnd(i: nat)
      requires Upper(Now(), i, head) && i < |levels| && levels[i].npages > 0 && levels[i].items != []
      requires head in owner && owner[head] == 0 && head !in file
      modifies this
      ensures Keeps0(old(Now()), Now(), i, head) && i + 1 < |levels| == |hist| && hist[i].fed == old(hist[i].fed)
      ensures Closed(hist[i], levels[i].npages, i + 1, head, file) && levels[i].npages == old(levels[i].npages) + 1
      ensures Upper(Now(), i + 1, head) && FedBy(hist[i + 1], hist[i], levels[i].npages)
      ensures levels[i + 1].items != [] && head in owner && owner[head] == 0 && head !in file
    {
      hide LevelOk, FedBy, Keeps, Upper, LevelKept, Closed, Blocks, Open, PageAt;
      UpperFacts(Now(), i, head);
      KeptFacts(Now(), i, head, 0);
      var lv := levels[i];
      ghost var h, before := hist[i], Now();
      var b := lv.blkno.value;
      var page := Node(i + 1, lv.items, None, None, head);
      ghost var h2 := History(h.fed, h.blks);
      LastClosed(lv, h, i + 1, head, file, b, page);
      KeepsSelf(before, i);
      WriteNode(i, b, page);
      ghost var written := Now();
      LevelStays(lv, h, i + 1, head, 0, before.file, file);
      HandUp(i, b, 0);
      KeepsFacts(written, Now(), i + 1);
      ClosedStays(h2, lv.npages + 1, i + 1, head, written.file, file);
      BlocksOf(h2, lv.npages + 1, i + 1, head, written.file, lv, b);
      FedNext(lv, h, i + 1, head, before.file, 0, before.hist[i + 1], hist[i + 1], b, h2.blks);
      KeepsOn(before, written, Now(), i, i + 1);
      KeepsFacts(before, Now(), i);
      var lv2 := Level([], lv.npages + 1, None);
      SetLevel(before, Now(), i, lv2, h2, head);
      levels, hist := levels[i := lv2], hist[i := h2];
    }

    // The last page of every level, from the bottom up, to the root.
    method Finish()
      requires Upper(Now(), 0, head) && |levels| > 0 && levels[0].items != []
      requires head in owner && owner[head] == 0 && head !in file
      modifies this
      ensures 0 < height == |levels| == |hist| && hist[0].fed == old(hist[0].fed)
      ensures forall k :: 0 <= k < height - 1 ==> DoneAt(Now(), k, head)
      ensures Closed(hist[height - 1], 1, height, head, file) && levels[height - 1].npages == 1
      ensures hist[height - 1].blks == [head]
      ensures OthersLeft(old(Now()), Now(), head)
    {
      hide LevelOk, Closed, FedBy, Upper, LevelKept, DoneAt;
      var i := 0;
      UpperFacts(Now(), 0, head);
      while true
        invariant Upper(Now(), i, head) && i < |levels| == |hist| && hist[0].fed == old(hist[0].fed)
        invariant levels[i].items != []
        invariant forall k :: 0 <= k < i ==> DoneAt(Now(), k, head)
        invariant head in owner && owner[head] == 0 && head !in file && OthersLeft(old(Now()), Now(), head)
        decreases levels[i].npages
      {
        ghost var before := Now();
        var isroot := levels[i].npages == 0;
        FlushLast(i, isroot);
        forall k | 0 <= k < i
          ensures DoneAt(Now(), k, head)
        {
          StillDone(before, Now(), i, k, head);
        }
        if isroot {
          return;
        }
        var below := levels[i].npages;
        IsDone(Now(), i, head);
        FedCount(hist[i + 1], hist[i], below);
        i := i + 1;
        UpperFacts(Now(), i, head);
        OpenFacts(levels[i], hist[i], i + 1, head, file, 0);
        // each level has fewer pages than the one below: the build's own check
        assert levels[i].npages + 1 < below;
      }
    }
  }

  // A level below the root's is written, and handed up.
  ghost predicate DoneAt(s: Snapshot, k: nat, head: nat) {
    && k + 1 < |s.levels| == |s.hist| && Closed(s.hist[k], s.levels[k].npages, k + 1, head, s.file) &&
       s.levels[k].npages >= 2
    && FedBy(s.hist[k + 1], s.hist[k], s.levels[k].npages)
  }

  lemma BlocksOf(h: History, n: nat, level: nat, owner: nat, file: map<nat, Node>, lv: Level, b: nat)
    requires Closed(h, n, level, owner, file) && n == lv.npages + 1 && lv.blkno == Some(b)
    ensures |h.blks| == n
  {
  }

  lemma IsDone(s: Snapshot, k: nat, head: nat)
    requires k + 1 < |s.levels| == |s.hist| && Closed(s.hist[k], s.levels[k].npages, k + 1, head, s.file)
    requires s.levels[k].npages >= 2
    requires FedBy(s.hist[k + 1], s.hist[k], s.levels[k].npages)
    ensures DoneAt(s, k, head)
  {
  }

  lemma StillDone(a: Snapshot, b: Snapshot, i: nat, k: nat, head: nat)
    requires Keeps0(a, b, i, head) && k < i < |a.levels| && DoneAt(a, k, head) && b.hist[i].fed == a.hist[i].fed
    ensures DoneAt(b, k, head)
  {
    hide Closed;
    ClosedStays(a.hist[k], a.levels[k].npages, k + 1, head, a.file, b.file);
  }

  lemma FedCount(up: History, h: History, n: nat)
    requires FedBy(up, h, n)
    ensures |up.fed| == n
  {
  }

  // What is below level i stays, and everything written.
  ghost predicate Keeps0(a: Snapshot, b: Snapshot, i: nat, head: nat) {
    && i <= |a.levels| <= |b.levels| && |a.hist| == |a.levels| && |b.hist| == |b.levels|
    && (forall k :: 0 <= k < i ==> b.levels[k] == a.levels[k] && b.hist[k] == a.hist[k])
    && (forall x :: x in a.file ==> x in b.file && b.file[x] == a.file[x])
    && OthersLeft(a, b, head)
  }

  // Blocks taken for anything but a level are not written, but for the root's.
  ghost predicate OthersLeft(a: Snapshot, b: Snapshot, head: nat) {
    && (forall x :: x in a.owner ==> x in b.owner && b.owner[x] == a.owner[x])
    && forall x :: x in b.file && x !in a.file ==> x == head || (x in b.owner && b.owner[x] > 0)
  }

  // A level with all its pages written.
  ghost predicate Closed(h: History, n: nat, level: nat, owner: nat, file: map<nat, Node>) {
    n > 0 && PagesOk(level, h, n, owner, file) && |h.blks| == n && Start(n - 1) < |h.fed| <= Start(n)
  }

  lemma LastClosed(lv: Level, h: History, level: nat, owner: nat, file: map<nat, Node>, b: nat, page: Node)
    requires LevelOk(lv, h, level, owner, file, 0) && lv.items != [] && b !in file
    requires lv.blkno.Some? ==> b == lv.blkno.value
    requires page == Node(level, lv.items, None, None, owner)
    ensures Closed(History(h.fed, if lv.blkno.Some? then h.blks else [b]), lv.npages + 1, level, owner, file[b := page])
  {
    var h2, n, file2 := History(h.fed, if lv.blkno.Some? then h.blks else [b]), lv.npages, file[b := page];
    assert h.fed[Start(n)..] == lv.items;
    forall j | 0 <= j < n + 1
      ensures PageOk(level, h2, j, owner, file2)
    {
      if j < n {
        assert PageOk(level, h, j, owner, file);
      }
    }
    hide Ascending;
  }

  lemma ClosedStays(h: History, n: nat, level: nat, owner: nat, a: map<nat, Node>, b: map<nat, Node>)
    requires Closed(h, n, level, owner, a) && forall x :: x in a ==> x in b && b[x] == a[x]
    ensures Closed(h, n, level, owner, b)
  {
    hide PageAt, Ascending;
    forall j | 0 <= j < n
      ensures PageOk(level, h, j, owner, b)
    {
      assert PageOk(level, h, j, owner, a);
    }
  }

  lemma KeepsSelf(s: Snapshot, i: nat)
    requires i <= |s.levels| == |s.hist|
    ensures Keeps(s, s, i)
  {
  }

  lemma UpperFacts(s: Snapshot, i: nat, head: nat)
    requires Upper(s, i, head) && i < |s.levels|
    ensures |s.levels| == |s.hist| && LevelKept(s, i, head, 0) && Upper(s, i + 1, head)
    ensures LevelOk(s.levels[i], s.hist[i], i + 1, head, s.file, 0) && Blocks(s)
    ensures (s.levels[i].npages == 0 <==> i + 1 == |s.levels|)
    ensures i + 1 < |s.levels| ==> FedBy(s.hist[i + 1], s.hist[i], s.levels[i].npages)
    ensures s.levels[i].npages > 0 ==> s.levels[i].items != []
  {
    assert LevelKept(s, i, head, 0);
    hide LevelOk, FedBy;
  }

  lemma FirstOfLevel(lv: Level, h: History, level: nat, owner: nat, file: map<nat, Node>)
    requires LevelOk(lv, h, level, owner, file, 0)
    ensures lv.npages == 0 && lv.items == [] <==> h.fed == []
  {
  }

  // Level i open again, a page further.
  lemma Reopen(a: Snapshot, s: Snapshot, i: nat, lv: Level, h: History, head: nat)
    requires Keeps(a, s, i) && Upper(s, i + 1, head) && i < |a.levels| && i + 1 < |s.levels| == |s.hist|
    requires LevelOk(lv, h, i + 1, head, s.file, 1) && lv.npages > 0 && FedBy(s.hist[i + 1], h, lv.npages)
    requires lv.blkno.Some? && lv.blkno.value in s.owner && s.owner[lv.blkno.value] == i + 1
    requires lv.blkno.value !in s.file
    ensures var s2 := s.(levels := s.levels[i := lv], hist := s.hist[i := h]);
            Upper(s2, i + 1, head) && LevelKept(s2, i, head, 1) && Keeps(a, s2, i)
  {
    SetLevel(a, s, i, lv, h, head);
    hide LevelOk, FedBy;
  }

  lemma GivenOne(s: Snapshot, i: nat, head: nat, x: Pivot)
    requires Upper(s, i, head) && i < |s.levels| == |s.hist| && (s.levels[i].npages > 0 ==> s.levels[i].items != [])
    requires if s.hist[i].fed == [] then x.ckey == 0 else s.hist[i].fed[|s.hist[i].fed| - 1].ckey < x.ckey
    ensures var s2 := s.(hist := s.hist[i := History(s.hist[i].fed + [x], s.hist[i].blks)]);
            Upper(s2, i + 1, head) && LevelKept(s2, i, head, 1) && Keeps(s, s2, i)
  {
    var s2 := s.(hist := s.hist[i := History(s.hist[i].fed + [x], s.hist[i].blks)]);
    UpperFacts(s, i, head);
    FedMore(s.levels[i], s.hist[i], i + 1, head, s.file, x);
    if i + 1 < |s.levels| {
      FedStays(s.hist[i + 1], s.hist[i], s.levels[i].npages, x);
    }
    KeepsSelf(s, i);
    SetLevel(s, s, i, s.levels[i], s2.hist[i], head);
    assert s.levels[i := s.levels[i]] == s.levels;
    hide LevelOk, FedBy;
  }

  lemma ItemPut(lv: Level, h: History, level: nat, owner: nat, file: map<nat, Node>, x: Pivot)
    requires LevelOk(lv, h, level, owner, file, 1) && x == h.fed[|h.fed| - 1] && |lv.items| < FANOUT
    ensures LevelOk(Level(lv.items + [x], lv.npages, lv.blkno), h, level, owner, file, 0)
  {
    assert lv.items + [x] == h.fed[Start(lv.npages)..|h.fed|];
    hide PagesOk;
  }

  lemma SetOpen(a: Snapshot, s: Snapshot, i: nat, lv: Level, head: nat)
    requires Keeps(a, s, i) && i < |a.levels| && Upper(s, i + 1, head) && LevelKept(s, i, head, 1)
    requires LevelOk(lv, s.hist[i], i + 1, head, s.file, 0) && lv.npages == s.levels[i].npages
    requires lv.blkno == s.levels[i].blkno
    requires lv.items != []
    ensures var s2 := s.(levels := s.levels[i := lv]); Upper(s2, i, head) && Keeps(a, s2, i)
  {
    var s2 := s.(levels := s.levels[i := lv]);
    KeptInBounds(s, i, head, 1);
    assert s.hist[i := s.hist[i]] == s.hist;
    SetLevel(a, s, i, lv, s.hist[i], head);
    hide LevelOk, FedBy;
    assert LevelKept(s2, i, head, 0);
  }

  lemma KeptInBounds(s: Snapshot, k: nat, head: nat, e: nat)
    requires LevelKept(s, k, head, e)
    ensures k < |s.levels| == |s.hist|
  {
  }

  /* ---------- the tree ---------- */

  // t and ns are the internal levels' histories and numbers of pages, the
  // lowest first.
  ghost predicate Tree(t: seq<History>, ns: seq<nat>, head: nat, file: map<nat, Node>) {
    && |t| == |ns| > 0 && (forall k :: 0 <= k < |t| ==> Closed(t[k], ns[k], k + 1, head, file) && Handed(t, ns, k))
    && ns[|t| - 1] == 1 && t[|t| - 1].blks == [head]
  }

  ghost predicate Handed(t: seq<History>, ns: seq<nat>, k: nat)
    requires |t| == |ns|
  {
    k + 1 < |t| ==> ns[k] >= 2 && FedBy(t[k + 1], t[k], ns[k])
  }

  method CloseTree(b: TreeBuilder) returns (ghost t: seq<History>, ghost ns: seq<nat>)
    requires Upper(b.Now(), 0, b.head) && |b.levels| > 0 && |b.hist| > 0 && b.levels[0].items != []
    requires b.head in b.owner && b.owner[b.head] == 0 && b.head !in b.file
    modifies b
    ensures Tree(t, ns, b.head, b.file) && t[0].fed == old(b.hist[0].fed) && b.height == |t|
    ensures OthersLeft(old(b.Now()), b.Now(), b.head)
  {
    hide Upper, Closed;
    b.Finish();
    t := b.hist[..b.height];
    ns := PageCounts(b.levels)[..b.height];
    IsTree(b.Now(), t, ns, b.head, b.height);
  }

  function PageCounts(levels: seq<Level>): (ns: seq<nat>)
    ensures |ns| == |levels| && forall k :: 0 <= k < |ns| ==> ns[k] == levels[k].npages
  {
    seq(|levels|, k requires 0 <= k < |levels| => levels[k].npages)
  }

  lemma IsTree(s: Snapshot, t: seq<History>, ns: seq<nat>, head: nat, h: nat)
    requires 0 < h <= |s.levels| == |s.hist| && t == s.hist[..h] && |ns| == h
    requires forall k :: 0 <= k < h ==> ns[k] == s.levels[k].npages
    requires forall k :: 0 <= k < h - 1 ==> DoneAt(s, k, head)
    requires Closed(s.hist[h - 1], 1, h, head, s.file) && s.levels[h - 1].npages == 1 && s.hist[h - 1].blks == [head]
    ensures Tree(t, ns, head, s.file)
  {
    hide Closed, FedBy;
    forall k | 0 <= k < |t|
      ensures Closed(t[k], ns[k], k + 1, head, s.file) && Handed(t, ns, k)
    {
      if k < h - 1 {
        assert DoneAt(s, k, head);
      }
    }
  }

  // Every page names the root as its owner, and has no more downlinks than fit
  // with a high key, all below it; its high key is where its right sibling
  // starts.
  lemma NodesAreWell(t: seq<History>, ns: seq<nat>, head: nat, file: map<nat, Node>, k: nat, j: nat)
    requires Tree(t, ns, head, file) && k < |t| && j < ns[k]
    ensures j < |t[k].blks| && t[k].blks[j] in file
    ensures var p := file[t[k].blks[j]];
            && p.owner == head && p.level == k + 1 && 0 < |p.downs| <= FANOUT
            && NEED * |p.downs| + (if p.high.Some? then NEED else 0) <= CAPACITY
            && (p.high.None? <==> j == ns[k] - 1) && (p.high.Some? ==> |p.downs| == FANOUT)
    ensures j + 1 < ns[k] ==>
              && t[k].blks[j + 1] in file && file[t[k].blks[j + 1]].downs != []
              && file[t[k].blks[j]].high == Some(file[t[k].blks[j + 1]].downs[0].ckey)
              && file[t[k].blks[j]].right == Some(t[k].blks[j + 1])
    ensures var p := file[t[k].blks[j]];
            forall q :: 0 <= q < |p.downs| ==>
              p.downs[0].ckey <= p.downs[q].ckey && (p.high.Some? ==> p.downs[q].ckey < p.high.value)
  {
    NodeFills(t, ns, head, file, k, j);
    if j + 1 < ns[k] {
      NodeFills(t, ns, head, file, k, j + 1);
    }
    ReadsNode(t, ns, head, file, k, j);
    NodeDowns(t[k], k + 1, j, head);
    hide Tree, PageAt;
    var p := file[t[k].blks[j]];
    forall q | 0 <= q < |p.downs|
      ensures p.downs[0].ckey <= p.downs[q].ckey && (p.high.Some? ==> p.downs[q].ckey < p.high.value)
    {
      ItsOwnCovers(t[k], j, Start(j) + q);
    }
  }

  lemma NodeFills(t: seq<History>, ns: seq<nat>, head: nat, file: map<nat, Node>, k: nat, j: nat)
    requires Tree(t, ns, head, file) && k < |t| && j < ns[k]
    ensures |t| == |ns| && j < |t[k].blks| == ns[k] && t[k].blks[j] in file && Start(j) < |t[k].fed|
    ensures Start(j + 1) < |t[k].fed| <==> j + 1 < ns[k]
    ensures var p := file[t[k].blks[j]];
            && p.owner == head && p.level == k + 1 && p.downs != [] && p.downs[0] == t[k].fed[Start(j)]
            && |p.downs| == (if j + 1 < ns[k] then FANOUT else |t[k].fed| - Start(j)) <= FANOUT
            && p.high == (if j + 1 < ns[k] then Some(t[k].fed[Start(j + 1)].ckey) else None)
            && p.right == (if j + 1 < ns[k] then Some(t[k].blks[j + 1]) else None)
  {
    var h := t[k];
    ReadsNode(t, ns, head, file, k, j);
    assert Closed(h, ns[k], k + 1, head, file);
    assert Start(j) <= Start(ns[k] - 1) && (j + 1 < ns[k] ==> Start(j + 1) <= Start(ns[k] - 1));
    NodeDowns(h, k + 1, j, head);
    hide Tree, Closed;
  }

  /* ---------- descent ---------- */

  function NotAbove(key: nat): Pivot -> bool { (x: Pivot) => x.ckey <= key }

  // From a page down to a leaf.
  ghost function Descend(file: map<nat, Node>, b: nat, key: nat): Option<nat>
    decreases if b in file then file[b].level else 0
  {
    if b !in file || file[b].downs == [] then None
    else
      var c := file[b].downs[Slot(file[b].downs, NotAbove(key), |file[b].downs| - 1)].child;
      if file[b].level <= 1 then Some(c)
      else if c in file && file[c].level < file[b].level then Descend(file, c, key) else None
  }

  ghost predicate Covers(h: History, j: nat, key: nat) {
    Start(j) < |h.fed| && h.fed[Start(j)].ckey <= key && (Start(j + 1) < |h.fed| ==> key < h.fed[Start(j + 1)].ckey)
  }

  // Of the whole level, the downlink a page sends the key to.
  lemma SlotCovers(h: History, level: nat, j: nat, owner: nat, key: nat) returns (c: nat)
    requires Ascending(h.fed) && j < |h.blks| && Covers(h, j, key) && (Start(j + 1) < |h.fed| ==> j + 1 < |h.blks|)
    ensures c < |h.fed| && h.fed[c].ckey <= key && (c + 1 < |h.fed| ==> key < h.fed[c + 1].ckey)
    ensures var downs := PageAt(level, h, j, owner).downs;
            |downs| > 0 && downs[Slot(downs, NotAbove(key), |downs| - 1)] == h.fed[c]
  {
    hide PageAt, Ascending;
    var downs := PageAt(level, h, j, owner).downs;
    NodeDowns(h, level, j, owner);
    var s := Slot(downs, NotAbove(key), |downs| - 1);
    SlotIsLast(downs, NotAbove(key), |downs| - 1);
    c := Start(j) + s;
    if s + 1 < |downs| {
      assert downs[s + 1] == h.fed[Start(j) + (s + 1)];
    }
  }

  lemma NodeDowns(h: History, level: nat, j: nat, owner: nat)
    requires j < |h.blks| && Start(j) < |h.fed| && (Start(j + 1) < |h.fed| ==> j + 1 < |h.blks|)
    ensures var downs := PageAt(level, h, j, owner).downs;
            && |downs| == (if Start(j + 1) < |h.fed| then FANOUT else |h.fed| - Start(j)) && |downs| > 0
            && forall q :: 0 <= q < |downs| ==> downs[q] == h.fed[Start(j) + q]
  {
  }

  lemma {:induction false} DescendFrom(t: seq<History>, ns: seq<nat>, head: nat, file: map<nat, Node>, k: nat, j: nat,
                                       key: nat)
    returns (l: nat)
    requires Tree(t, ns, head, file) && k < |t| == |ns| && j < ns[k] && j < |t[k].blks| && Covers(t[k], j, key)
    ensures l < |t[0].fed| && t[k].blks[j] in file && file[t[k].blks[j]].level == k + 1
    ensures Descend(file, t[k].blks[j], key) == Some(t[0].fed[l].child)
    ensures t[0].fed[l].ckey <= key && (l + 1 < |t[0].fed| ==> key < t[0].fed[l + 1].ckey)
    decreases k
  {
    hide Tree, PageAt, Covers, FedBy, Closed, Slot, Ascending;
    ReadsNode(t, ns, head, file, k, j);
    var c := SlotCovers(t[k], k + 1, j, head, key);
    if k == 0 {
      return c;
    }
    Under(t[k], t[k - 1], ns[k - 1], c, key);
    l := DescendFrom(t, ns, head, file, k - 1, c, key);
  }

  lemma ReadsNode(t: seq<History>, ns: seq<nat>, head: nat, file: map<nat, Node>, k: nat, j: nat)
    requires Tree(t, ns, head, file) && k < |t| && j < ns[k]
    ensures |t| == |ns| && j < |t[k].blks| && Ascending(t[k].fed) && (Start(j + 1) < |t[k].fed| ==> j + 1 < |t[k].blks|)
    ensures t[k].blks[j] in file && file[t[k].blks[j]].level == k + 1
    ensures Start(j) <= |t[k].fed| && file[t[k].blks[j]] == PageAt(k + 1, t[k], j, head)
    ensures k > 0 ==> FedBy(t[k], t[k - 1], ns[k - 1]) && |t[k - 1].fed| <= Start(ns[k - 1])
  {
    assert Closed(t[k], ns[k], k + 1, head, file);
    assert PageOk(k + 1, t[k], j, head, file);
    if k > 0 {
      assert Handed(t, ns, k - 1);
      assert Closed(t[k - 1], ns[k - 1], k, head, file);
    }
    hide PageOk, Ascending, FedBy;
  }

  lemma Under(up: History, h: History, n: nat, c: nat, key: nat)
    requires FedBy(up, h, n) && c < |up.fed| && up.fed[c].ckey <= key && (c + 1 < |up.fed| ==> key < up.fed[c + 1].ckey)
    requires |h.fed| <= Start(n)
    ensures c < n && c < |h.blks| && up.fed[c].child == h.blks[c] && Covers(h, c, key)
  {
    assert up.fed[c] == Pivot(h.fed[Start(c)].ckey, h.blks[c]);
    if c + 1 < n {
      assert up.fed[c + 1] == Pivot(h.fed[Start(c + 1)].ckey, h.blks[c + 1]);
    }
  }

  /* ---------- subtrees ---------- */

  // Downlinks lead from page b to the leaf.
  ghost predicate Reaches(file: map<nat, Node>, b: nat, leaf: nat, depth: nat)
    decreases depth
  {
    && b in file
    && if file[b].level <= 1 then exists q :: 0 <= q < |file[b].downs| && file[b].downs[q].child == leaf
       else depth > 0 && exists q :: 0 <= q < |file[b].downs| && Reaches(file, file[b].downs[q].child, leaf, depth - 1)
  }

  // A descent is one such way.
  lemma {:induction false} DescentReaches(file: map<nat, Node>, b: nat, key: nat, leaf: nat)
    requires Descend(file, b, key) == Some(leaf)
    ensures b in file && Reaches(file, b, leaf, file[b].level)
    decreases if b in file then file[b].level else 0
  {
    var downs := file[b].downs;
    var c := downs[Slot(downs, NotAbove(key), |downs| - 1)].child;
    if file[b].level > 1 {
      DescentReaches(file, c, key, leaf);
      ReachesDeeper(file, c, leaf, file[c].level, file[b].level - 1);
    }
  }

  lemma {:induction false} ReachesDeeper(file: map<nat, Node>, b: nat, leaf: nat, depth: nat, more: nat)
    requires Reaches(file, b, leaf, depth) && depth <= more
    ensures Reaches(file, b, leaf, more)
    decreases depth
  {
    if file[b].level > 1 {
      var q :| 0 <= q < |file[b].downs| && Reaches(file, file[b].downs[q].child, leaf, depth - 1);
      ReachesDeeper(file, file[b].downs[q].child, leaf, depth - 1, more - 1);
    }
  }

  // What page c of a level covers, the page its downlink is on covers.
  lemma ParentCovers(up: History, j: nat, h: History, n: nat, c: nat, key: nat)
    requires FedBy(up, h, n) && Ascending(up.fed) && Covers(h, c, key) && |h.fed| <= Start(n)
    requires Start(j) <= c < |up.fed| && c < Start(j + 1)
    ensures Covers(up, j, key)
  {
    assert up.fed[c] == Pivot(h.fed[Start(c)].ckey, h.blks[c]);
    assert Start(j) < c ==> up.fed[Start(j)].ckey < up.fed[c].ckey;
    if Start(j + 1) < |up.fed| {
      assert up.fed[c + 1] == Pivot(h.fed[Start(c + 1)].ckey, h.blks[c + 1]);
      assert c + 1 < Start(j + 1) ==> up.fed[c + 1].ckey < up.fed[Start(j + 1)].ckey;
    }
  }

  lemma ItsOwnCovers(h: History, j: nat, c: nat)
    requires Ascending(h.fed) && Start(j) <= c < |h.fed| && c < Start(j + 1)
    ensures Covers(h, j, h.fed[c].ckey)
  {
    assert Start(j) < c ==> h.fed[Start(j)].ckey < h.fed[c].ckey;
  }

  // A leaf under page j of a level starts at or above the page's first key, and
  // below the first of the page to the right.
  lemma {:induction false} SubtreeFrom(t: seq<History>, ns: seq<nat>, head: nat, file: map<nat, Node>, k: nat, j: nat,
                                       leaf: nat, depth: nat) returns (l: nat)
    requires Tree(t, ns, head, file) && k < |t| == |ns| && j < ns[k] && j < |t[k].blks|
    requires Reaches(file, t[k].blks[j], leaf, depth)
    ensures l < |t[0].fed| && t[0].fed[l].child == leaf && Covers(t[k], j, t[0].fed[l].ckey)
    decreases k
  {
    hide Tree, PageAt, Covers, FedBy, Closed, Ascending;
    ReadsNode(t, ns, head, file, k, j);
    NodeFills(t, ns, head, file, k, j);
    NodeDowns(t[k], k + 1, j, head);
    var downs := file[t[k].blks[j]].downs;
    if k == 0 {
      var q :| 0 <= q < |downs| && downs[q].child == leaf;
      l := Start(j) + q;
      ItsOwnCovers(t[0], j, l);
      return;
    }
    var q :| 0 <= q < |downs| && Reaches(file, downs[q].child, leaf, depth - 1);
    var c := Start(j) + q;
    DownIs(t[k], t[k - 1], ns[k - 1], c);
    l := SubtreeFrom(t, ns, head, file, k - 1, c, leaf, depth - 1);
    ParentCovers(t[k], j, t[k - 1], ns[k - 1], c, t[0].fed[l].ckey);
  }

  lemma DownIs(up: History, h: History, n: nat, c: nat)
    requires FedBy(up, h, n) && c < |up.fed|
    ensures |up.fed| == n <= |h.blks| && up.fed[c].child == h.blks[c] && Start(c) < |h.fed|
    ensures up.fed[c].ckey == h.fed[Start(c)].ckey
  {
  }

  // Every key of a level is that of a leaf's downlink.
  lemma {:induction false} KeyOfLeaf(t: seq<History>, ns: seq<nat>, head: nat, file: map<nat, Node>, k: nat, i: nat)
    returns (l: nat)
    requires Tree(t, ns, head, file) && k < |t| && i < |t[k].fed|
    ensures l < |t[0].fed| && t[0].fed[l].ckey == t[k].fed[i].ckey
    decreases k
  {
    if k == 0 {
      return i;
    }
    assert Handed(t, ns, k - 1);
    DownIs(t[k], t[k - 1], ns[k - 1], i);
    hide Tree, FedBy;
    l := KeyOfLeaf(t, ns, head, file, k - 1, Start(i));
  }

  /* ---------- from the root ---------- */

  // From the root, any key leads to the last leaf that starts at or below it.
  lemma DescentFindsLeaf(t: seq<History>, ns: seq<nat>, head: nat, file: map<nat, Node>, key: nat) returns (l: nat)
    requires Tree(t, ns, head, file)
    ensures l < |t[0].fed| && Descend(file, head, key) == Some(t[0].fed[l].child)
    ensures t[0].fed[l].ckey <= key && (l + 1 < |t[0].fed| ==> key < t[0].fed[l + 1].ckey)
  {
    var top := |t| - 1;
    assert Closed(t[top], ns[top], top + 1, head, file);
    l := DescendFrom(t, ns, head, file, top, 0, key);
  }

  /* ---------- height ---------- */

  const MAX_HEIGHT: nat := 16

  // FANOUT to the power h.
  function Leaves(h: nat): nat { if h == 0 then 1 else FANOUT * Leaves(h - 1) }

  // A level k below the top: each of its pages but the last is full.
  lemma {:induction false} FedBelow(t: seq<History>, ns: seq<nat>, head: nat, file: map<nat, Node>, k: nat)
    requires Tree(t, ns, head, file) && k < |t| && |t| > 1
    ensures |t[|t| - 1 - k].fed| > Leaves(k)
  {
    var i := |t| - 1 - k;
    if k == 0 {
      assert Handed(t, ns, i - 1);
    } else {
      FedBelow(t, ns, head, file, k - 1);
      assert Handed(t, ns, i) && Closed(t[i], ns[i], i + 1, head, file);
      assert Start(ns[i] - 1) >= FANOUT * Leaves(k - 1);
    }
    hide Tree;
  }

  // A tree of h levels, two at least, has more than FANOUT^(h-1) leaves, so that
  // in a file of fewer than 2^32 blocks it has four at most.
  lemma HeightIsBounded(t: seq<History>, ns: seq<nat>, head: nat, file: map<nat, Node>)
    requires Tree(t, ns, head, file)
    ensures |t| > 1 ==> |t[0].fed| > Leaves(|t| - 1)
    ensures |t[0].fed| <= MAX_BLOCKS ==> |t| <= 4 < MAX_HEIGHT
  {
    hide Tree;
    if |t| > 1 {
      FedBelow(t, ns, head, file, |t| - 1);
      LeavesOfHeight(|t| - 1);
    }
  }

  lemma {:induction false} LeavesOfHeight(h: nat)
    ensures h >= 4 ==> Leaves(h) > MAX_BLOCKS
  {
    if h > 4 {
      LeavesOfHeight(h - 1);
    }
  }

  lemma {:induction false} FedSoFar(s: Snapshot, head: nat, k: nat)
    requires Upper(s, 0, head) && 0 < k < |s.levels|
    ensures |s.hist[|s.levels| - 1 - k].fed| > Leaves(k)
  {
    var i := |s.levels| - 1 - k;
    if k > 1 {
      FedSoFar(s, head, k - 1);
    }
    assert LevelKept(s, i, head, 0);
    assert s.levels[i].npages >= Leaves(k - 1) by {
      assert Leaves(0) == 1;
    }
    assert Start(s.levels[i].npages) >= FANOUT * Leaves(k - 1);
    hide Upper, LevelKept;
  }

  // Nor has it more while it is built: a seventeenth level, which the build
  // refuses, is never asked for.
  lemma LevelsAreFew(s: Snapshot, head: nat)
    requires Upper(s, 0, head) && |s.levels| > 1
    ensures |s.hist| == |s.levels| && |s.hist[0].fed| > Leaves(|s.levels| - 1)
    ensures |s.hist[0].fed| <= MAX_BLOCKS ==> |s.levels| <= 4 < MAX_HEIGHT
  {
    FedSoFar(s, head, |s.levels| - 1);
    LeavesOfHeight(|s.levels| - 1);
    hide Upper;
  }
}
