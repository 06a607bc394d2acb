/**
  The bottom-up build of the directory: a page open on every level, written
  when the next item does not fit, its downlink handed up.
*/
module DirectoryBuild {
  import opened Options
  import opened Pages
  import opened DirectoryPages

  // The open page of a level: its items, the block it will be written to, and
  // the pages written before it.
  datatype Level = Level(items: seq<Item>, used: nat, npages: nat, blkno: Option<nat>, leftblk: Option<nat>)

  // The bytes a leaf is filled to, of what the fill factor makes it.
  type Budget = n: nat | n <= CAPACITY

  const DIR_BUDGET: nat := CAPACITY * 70 / 100

  // The open items are what the level has been given since its last cut; with
  // e = 1, but for the one about to be added.
  ghost predicate LevelOk(lv: Level, h: History, file: map<nat, Page>, level: nat, e: nat) {
    && PagesOk(level, h, lv.npages, file) && e <= |h.fed| && h.cuts[lv.npages] + |lv.items| + e == |h.fed|
    && lv.items == h.fed[h.cuts[lv.npages]..|h.fed| - e]
    && lv.used == Total(lv.items, |lv.items|)
    && |h.blks| == lv.npages + (if lv.blkno.Some? then 1 else 0)
    && (lv.blkno.Some? ==> lv.blkno.value == h.blks[lv.npages])
    && lv.leftblk == (if lv.npages > 0 then Some(h.blks[lv.npages - 1]) else None)
    && (lv.npages > 0 ==> lv.blkno.Some?) && (lv.items != [] ==> lv.blkno.Some?)
    && OpenFits(level, lv.items)
  }

  // The last item was added where it and its high key still fitted.
  ghost predicate OpenFits(level: nat, items: seq<Item>) {
    var n := |items|;
    n > 1 ==>
      LevelUsed(level, items, Total(items, n - 1), n - 1) + Need(items[n - 1]) + PivotNeed(items[n - 1].key) <= CAPACITY
  }

  lemma OpenSet(levels: seq<Level>, i: nat, lv: Level)
    requires i < |levels|
    ensures Open(levels[i := lv], i) == |lv.items| + Open(levels, i + 1)
    ensures Open(levels, i) == |levels[i].items| + Open(levels, i + 1)
  {
    OpenAbove(levels, levels[i := lv], i + 1);
  }

  // The room a page has for its first items, and a high key.
  lemma FirstFits(level: nat, items: seq<Item>, hkey: Key)
    requires items != [] && (forall x :: x in items ==> ItemOk(level, x)) && KeyOk(hkey)
    ensures LevelUsed(level, items, Total(items, 1), 1) + PivotNeed(hkey) <= CAPACITY
    ensures level > 0 && |items| > 1 ==> LevelUsed(level, items, Total(items, 2), 2) + PivotNeed(hkey) <= CAPACITY
  {
    NeedIsBounded(level, items[0]);
    NeedIsBounded(1, Down(hkey, 0));
    assert Total(items, 1) == Need(items[0]);
    if level > 0 && |items| > 1 {
      NeedIsBounded(level, items[1]);
      assert Total(items, 2) == Need(items[0]) + Need(items[1]);
    }
  }

  // The open items of levels i and up.
  ghost function Open(levels: seq<Level>, i: nat): nat
    decreases |levels| - i
  {
    if i >= |levels| then 0 else |levels[i].items| + Open(levels, i + 1)
  }

  lemma {:induction false} OpenAbove(a: seq<Level>, b: seq<Level>, i: nat)
    requires |a| == |b| && forall j :: i <= j < |a| ==> a[j] == b[j]
    ensures Open(a, i) == Open(b, i)
    decreases |a| - i
  {
    if i < |a| {
      OpenAbove(a, b, i + 1);
    }
  }

  // What the build has done so far.
  datatype Snapshot = Snapshot(levels: seq<Level>, hist: seq<History>, nblocks: nat, file: map<nat, Page>,
                               owner: map<nat, nat>)

  // Every block taken has an owner; only taken ones are written.
  ghost predicate Blocks(s: Snapshot) {
    s.nblocks > 0 && (forall b :: b in s.owner <==> 1 <= b < s.nblocks) && (forall b :: b in s.file ==> b in s.owner)
  }

  ghost predicate OpenBlock(s: Snapshot, k: nat)
    requires k < |s.levels|
  {
    s.levels[k].blkno.Some? ==>
      var b := s.levels[k].blkno.value; b in s.owner && s.owner[b] == k && b !in s.file
  }

  // Level k + 1 is there once level k has a page, and is given what it writes.
  ghost predicate Linked(s: Snapshot, k: nat) {
    && k < |s.levels| == |s.hist| && (s.levels[k].npages == 0 <==> k + 1 == |s.levels|)
    && (k + 1 < |s.levels| ==> FedBy(s.hist[k + 1], s.hist[k], s.levels[k].npages))
  }

  ghost predicate LevelKept(s: Snapshot, k: nat, e: nat) {
    Linked(s, k) && LevelOk(s.levels[k], s.hist[k], s.file, k, e) && OpenBlock(s, k)
  }

  // Levels i and up, between additions.
  ghost predicate Upper(s: Snapshot, i: nat) {
    && Blocks(s) && |s.levels| == |s.hist|
    && forall k :: i <= k < |s.levels| ==> LevelKept(s, k, 0) && (s.levels[k].items == [] ==> s.hist[k].fed == [])
  }

  // ... and level i with an item about to be added.
  ghost predicate Mid(s: Snapshot, i: nat, e: nat) { Upper(s, i + 1) && LevelKept(s, i, e) }

  lemma WriteStays(s: Snapshot, i: nat, b: nat, page: Page)
    requires Upper(s, i + 1) && i < |s.levels| && b in s.owner && s.owner[b] == i && b !in s.file
    ensures var s2 := s.(file := s.file[b := page]); Upper(s2, i + 1) && Keeps(s, s2, i)
  {
    var s2 := s.(file := s.file[b := page]);
    hide LevelOk, FedBy;
    forall k | i + 1 <= k < |s.levels|
      ensures LevelKept(s2, k, 0)
    {
      assert LevelKept(s, k, 0);
      LevelStays(s.levels[k], s.hist[k], k, 0, s.file, s2.file);
    }
  }

  // Level i put back after the levels above it were worked on.
  lemma SetLevel(a: Snapshot, s: Snapshot, i: nat, lv: Level, h: History)
    requires Keeps(a, s, i) && Upper(s, i + 1) && i < |a.levels| && i < |s.levels|
    ensures var s2 := s.(levels := s.levels[i := lv], hist := s.hist[i := h]); Upper(s2, i + 1) && Keeps(a, s2, i)
  {
    var s2 := s.(levels := s.levels[i := lv], hist := s.hist[i := h]);
    hide LevelOk, FedBy;
    forall k | i + 1 <= k < |s.levels|
      ensures LevelKept(s2, k, 0)
    {
      assert LevelKept(s, k, 0);
    }
  }

  lemma MidFacts(s: Snapshot, i: nat, e: nat)
    requires Mid(s, i, e)
    ensures i < |s.levels| == |s.hist| && Upper(s, i + 1) && Linked(s, i) && OpenBlock(s, i) && Blocks(s)
    ensures LevelOk(s.levels[i], s.hist[i], s.file, i, e)
  {
  }

  // Level i open again, a page further.
  lemma Reopen(a: Snapshot, s: Snapshot, i: nat, lv: Level, h: History)
    requires Keeps(a, s, i) && Upper(s, i + 1) && i < |a.levels| && i + 1 < |s.levels|
    requires LevelOk(lv, h, s.file, i, 1) && lv.npages > 0 && FedBy(s.hist[i + 1], h, lv.npages)
    requires lv.blkno.Some? && lv.blkno.value in s.owner && s.owner[lv.blkno.value] == i && lv.blkno.value !in s.file
    ensures var s2 := s.(levels := s.levels[i := lv], hist := s.hist[i := h]); Mid(s2, i, 1) && Keeps(a, s2, i)
  {
    SetLevel(a, s, i, lv, h);
    hide LevelOk, FedBy;
  }

  lemma OwnersGrow(s: Snapshot, s2: Snapshot, k: nat, e: nat)
    requires LevelKept(s, k, e) && s2.levels == s.levels && s2.hist == s.hist && s2.file == s.file
    requires forall x :: x in s.owner ==> x in s2.owner && s2.owner[x] == s.owner[x]
    ensures LevelKept(s2, k, e)
  {
    hide LevelOk, FedBy;
  }

  lemma TakesBlock(s: Snapshot, i: nat, e: nat)
    requires Mid(s, i, e)
    ensures var s2 := s.(nblocks := s.nblocks + 1, owner := s.owner[s.nblocks := i]); Mid(s2, i, e) && Keeps(s, s2, i)
  {
    hide LevelKept;
    var s2 := s.(nblocks := s.nblocks + 1, owner := s.owner[s.nblocks := i]);
    assert |s.levels| == |s.hist| && i < |s.levels| by {
      HasLevel(s, i, e);
    }
    OwnersGrow(s, s2, i, e);
    forall k | i + 1 <= k < |s.levels|
      ensures LevelKept(s2, k, 0)
    {
      OwnersGrow(s, s2, k, 0);
    }
  }

  lemma HasLevel(s: Snapshot, i: nat, e: nat)
    requires LevelKept(s, i, e)
    ensures i < |s.levels| == |s.hist|
  {
  }

  // Work on levels i and up leaves the others, and what is written, alone.
  ghost predicate Keeps(a: Snapshot, b: Snapshot, i: nat) {
    && i <= |a.levels| <= |b.levels| && |a.hist| == |a.levels| && |b.hist| == |b.levels|
    && (forall k :: 0 <= k < i ==> b.levels[k] == a.levels[k] && b.hist[k] == a.hist[k])
    && a.nblocks <= b.nblocks
    && (forall x :: x in a.file ==> x in b.file && b.file[x] == a.file[x])
    && (forall x :: x in a.owner ==> x in b.owner && b.owner[x] == a.owner[x])
    && (forall x :: x in b.file && x !in a.file ==> x in b.owner && b.owner[x] >= i)
  }

  lemma KeepsOn(a: Snapshot, b: Snapshot, c: Snapshot, i: nat, j: nat)
    requires Keeps(a, b, i) && Keeps(b, c, j) && i <= j
    ensures Keeps(a, c, i)
  {
  }

  lemma KeepsLower(a: Snapshot, b: Snapshot, i: nat)
    requires i < |a.levels| == |a.hist| && |b.hist| == |a.hist| && (forall k :: 0 <= k < i ==> b.hist[k] == a.hist[k])
    requires b.levels == a.levels && b.nblocks == a.nblocks && b.file == a.file && b.owner == a.owner
    ensures Keeps(a, b, i)
  {
  }

  lemma KeepsFile(a: Snapshot, b: Snapshot, i: nat)
    requires Keeps(a, b, i)
    ensures |a.levels| <= |b.levels| == |b.hist|
    ensures forall k :: 0 <= k < i ==> b.levels[k] == a.levels[k] && b.hist[k] == a.hist[k]
    ensures forall x :: x in a.file ==> x in b.file && b.file[x] == a.file[x]
    ensures forall x :: x in a.owner ==> x in b.owner && b.owner[x] == a.owner[x]
    ensures forall x :: x in b.file && x !in a.file ==> x in b.owner && b.owner[x] >= i
  {
  }

  lemma ClosedStays(h: History, n: nat, level: nat, a: map<nat, Page>, b: map<nat, Page>)
    requires Closed(h, n, a, level) && forall x :: x in a ==> x in b && b[x] == a[x]
    ensures Closed(h, n, b, level)
  {
    forall j | 0 <= j < n
      ensures PageOk(level, h, n, b, j)
    {
      assert PageOk(level, h, n, a, j);
    }
  }

  // Pages below another of an internal level have two downlinks each.
  lemma {:induction false} CutsDouble(level: nat, h: History, n: nat, file: map<nat, Page>, m: nat)
    requires PagesOk(level, h, n, file) && level > 0 && m <= n && (m > 0 ==> h.cuts[m] < |h.fed|)
    ensures h.cuts[m] >= 2 * m
  {
    if m > 0 {
      assert PageOk(level, h, n, file, m - 1);
      assert h.cuts[m - 1] <= h.cuts[m];
      CutsDouble(level, h, n, file, m - 1);
    }
  }

  lemma OpenDouble(lv: Level, h: History, file: map<nat, Page>, level: nat)
    requires LevelOk(lv, h, file, level, 0) && level > 0 && lv.items != []
    ensures 2 * lv.npages < |h.fed|
  {
    CutsDouble(level, h, lv.npages, file, lv.npages);
  }

  lemma FedNotEmpty(up: History, h: History, n: nat)
    requires FedBy(up, h, n)
    ensures h.fed != []
  {
  }

  // A level whose pages are in the file keeps them as the file grows.
  lemma LevelStays(lv: Level, h: History, level: nat, e: nat, a: map<nat, Page>, b: map<nat, Page>)
    requires LevelOk(lv, h, a, level, e) && forall x :: x in a ==> x in b && b[x] == a[x]
    ensures LevelOk(lv, h, b, level, e)
  {
    forall j | 0 <= j < lv.npages
      ensures PageOk(level, h, lv.npages, b, j)
    {
      assert PageOk(level, h, lv.npages, a, j);
    }
  }

  // How many items a page keeps: those its high key leaves room for.
  method Trim(level: nat, items: seq<Item>, used: nat, hkey: Item) returns (nkeep: nat, keepused: nat, high: Item)
    requires items != [] && (forall x :: x in items ==> ItemOk(level, x)) && ItemOk(level, hkey)
    requires used == Total(items, |items|) && OpenFits(level, items) && (level > 0 ==> |items| >= 2)
    ensures 1 <= nkeep <= |items| && |items| - 1 <= nkeep && keepused == Total(items, nkeep)
    ensures level > 0 ==> nkeep >= 2
    ensures high == if nkeep == |items| then hkey else items[nkeep]
    ensures LevelUsed(level, items, keepused, nkeep) + PivotNeed(high.key) <= CAPACITY
    ensures nkeep < |items| ==> LevelUsed(level, items, used, |items|) + PivotNeed(hkey.key) > CAPACITY
  {
    nkeep, keepused, high := |items|, used, hkey;
    var hkneed := PivotNeed(hkey.key);
    FirstFits(level, items, hkey.key);
    while nkeep > 1 && LevelUsed(level, items, keepused, nkeep) + hkneed > CAPACITY
      invariant 1 <= nkeep <= |items| && |items| - 1 <= nkeep && keepused == Total(items, nkeep)
      invariant high == (if nkeep == |items| then hkey else items[nkeep]) && hkneed == PivotNeed(high.key)
      invariant nkeep < |items| ==> LevelUsed(level, items, keepused, nkeep) + hkneed <= CAPACITY
      invariant nkeep < |items| ==> LevelUsed(level, items, used, |items|) + PivotNeed(hkey.key) > CAPACITY
      invariant level > 0 ==> nkeep >= 2
    {
      nkeep := nkeep - 1;
      keepused := keepused - Need(items[nkeep]);
      high := items[nkeep];
      hkneed := PivotNeed(high.key);
    }
  }

  // A level's open page, written with its first nkeep items to block b.
  ghost function Cut(h: History, lv: Level, nkeep: nat, b: nat, next: Option<nat>): (r: History)
    requires |h.cuts| == lv.npages + 1
    ensures r.fed == h.fed
  {
    History(h.fed, h.cuts + [h.cuts[lv.npages] + nkeep],
            (if lv.blkno.Some? then h.blks else h.blks + [b]) + if next.Some? then [next.value] else [])
  }

  ghost predicate Closed(h: History, n: nat, file: map<nat, Page>, level: nat) {
    PagesOk(level, h, n, file) && h.cuts[n] == |h.fed|
  }

  // What an open page is written with.
  ghost predicate Cuttable(lv: Level, h: History, file: map<nat, Page>, level: nat, e: nat, nkeep: nat, b: nat,
                           next: Option<nat>) {
    && LevelOk(lv, h, file, level, e) && nkeep <= |lv.items| && (h.fed != [] ==> nkeep > 0)
    && (lv.blkno.Some? ==> b == lv.blkno.value) && (h.fed != [] || lv.npages == 0)
    && (next.Some? <==> h.cuts[lv.npages] + nkeep < |h.fed|)
    && b !in file && (level > 0 && next.Some? ==> nkeep >= 2)
  }

  ghost predicate CutPage(lv: Level, h: History, level: nat, nkeep: nat, next: Option<nat>, page: Page)
    requires |h.cuts| == lv.npages + 1 && nkeep <= |lv.items|
    requires next.Some? ==> h.cuts[lv.npages] + nkeep < |h.fed|
  {
    && Fits(page)
    && page == Page(level, lv.leftblk, next, if next.Some? then Some(h.fed[h.cuts[lv.npages] + nkeep].key) else None,
                    Stored(level, lv.items[..nkeep]))
  }

  lemma CutsStay(lv: Level, h: History, file: map<nat, Page>, level: nat, e: nat, nkeep: nat, b: nat, next: Option<nat>)
    requires Cuttable(lv, h, file, level, e, nkeep, b, next)
    ensures var h2 := Cut(h, lv, nkeep, b, next);
            && CutsOk(h2, lv.npages + 1) && h2.blks[lv.npages] == b
            && (forall j :: 0 <= j <= lv.npages ==> h2.cuts[j] == h.cuts[j])
            && (forall j :: 0 <= j < |h.blks| ==> h2.blks[j] == h.blks[j])
            && h2.cuts[lv.npages + 1] == h.cuts[lv.npages] + nkeep
            && (next.Some? ==> h2.blks[lv.npages + 1] == next.value)
  {
  }

  lemma EarlierPage(lv: Level, h: History, file: map<nat, Page>, level: nat, e: nat,
                    nkeep: nat, b: nat, next: Option<nat>, page: Page, j: nat)
    requires Cuttable(lv, h, file, level, e, nkeep, b, next) && j < lv.npages
    requires CutsOk(Cut(h, lv, nkeep, b, next), lv.npages + 1)
    ensures PageOk(level, Cut(h, lv, nkeep, b, next), lv.npages + 1, file[b := page], j)
  {
    CutsStay(lv, h, file, level, e, nkeep, b, next);
    assert PageOk(level, h, lv.npages, file, j);
    var h2 := Cut(h, lv, nkeep, b, next);
    assert h2.cuts[j + 1] == h.cuts[j + 1] && h2.cuts[j] == h.cuts[j];
    assert j > 0 ==> h2.blks[j - 1] == h.blks[j - 1];
    assert h.cuts[j + 1] < |h.fed| ==> h2.blks[j + 1] == h.blks[j + 1];
    hide Cut, Stored, Fits, Cuttable;
  }

  lemma SameItems(fed: seq<Item>, from: nat, items: seq<Item>, n: nat)
    requires n <= |items| && from + |items| <= |fed| && items == fed[from..from + |items|]
    ensures fed[from..from + n] == items[..n]
  {
  }

  lemma LastPage(lv: Level, h: History, file: map<nat, Page>, level: nat, e: nat, nkeep: nat, b: nat, next: Option<nat>,
                 page: Page)
    requires Cuttable(lv, h, file, level, e, nkeep, b, next) && CutPage(lv, h, level, nkeep, next, page)
    requires CutsOk(Cut(h, lv, nkeep, b, next), lv.npages + 1)
    ensures PageOk(level, Cut(h, lv, nkeep, b, next), lv.npages + 1, file[b := page], lv.npages)
  {
    hide Stored, Fits, ItemOk, Total, OpenFits, LevelUsed, Ascending;
    CutsStay(lv, h, file, level, e, nkeep, b, next);
    var h2, n := Cut(h, lv, nkeep, b, next), lv.npages;
    LastCut(lv, h, file, level, e, nkeep, b, next);
    assert n > 0 ==> h2.blks[n - 1] == h.blks[n - 1];
    hide Cut, CutsOk;
  }

  lemma LastCut(lv: Level, h: History, file: map<nat, Page>, level: nat, e: nat, nkeep: nat, b: nat, next: Option<nat>)
    requires Cuttable(lv, h, file, level, e, nkeep, b, next) && CutsOk(Cut(h, lv, nkeep, b, next), lv.npages + 1)
    ensures var h2, n := Cut(h, lv, nkeep, b, next), lv.npages;
            && h2.fed[h2.cuts[n]..h2.cuts[n + 1]] == lv.items[..nkeep]
            && (h2.cuts[n + 1] == |h2.fed| <==> next.None?)
  {
    hide Stored, Fits, ItemOk, Total, OpenFits, LevelUsed, Ascending, PageOk;
    CutsStay(lv, h, file, level, e, nkeep, b, next);
    SameItems(h.fed, h.cuts[lv.npages], lv.items, nkeep);
    hide Cut, CutsOk;
  }

  lemma PageWritten(lv: Level, h: History, file: map<nat, Page>, level: nat, e: nat,
                    nkeep: nat, b: nat, next: Option<nat>, page: Page)
    requires Cuttable(lv, h, file, level, e, nkeep, b, next) && CutPage(lv, h, level, nkeep, next, page)
    ensures PagesOk(level, Cut(h, lv, nkeep, b, next), lv.npages + 1, file[b := page])
  {
    CutsStay(lv, h, file, level, e, nkeep, b, next);
    FedIsGood(lv, h, file, level, e);
    var h2, n, more := Cut(h, lv, nkeep, b, next), lv.npages + 1, file[b := page];
    hide CutsOk, PageOk, Cuttable, CutPage, Ascending, ItemOk, Cut;
    forall j: nat | j < n
      ensures PageOk(level, h2, n, more, j)
    {
      if j < lv.npages {
        EarlierPage(lv, h, file, level, e, nkeep, b, next, page, j);
      } else {
        LastPage(lv, h, file, level, e, nkeep, b, next, page);
      }
    }
    ArePages(level, h2, n, more);
  }

  lemma ArePages(level: nat, h: History, n: nat, file: map<nat, Page>)
    requires CutsOk(h, n) && Ascending(h.fed) && forall x :: x in h.fed ==> ItemOk(level, x)
    requires forall j: nat :: j < n ==> PageOk(level, h, n, file, j)
    ensures PagesOk(level, h, n, file)
  {
    hide CutsOk, PageOk, Ascending, ItemOk;
  }

  lemma FedIsGood(lv: Level, h: History, file: map<nat, Page>, level: nat, e: nat)
    requires LevelOk(lv, h, file, level, e)
    ensures Ascending(h.fed) && forall x :: x in h.fed ==> ItemOk(level, x)
  {
  }

  lemma NextItems(lv: Level, h: History, file: map<nat, Page>, level: nat, nkeep: nat, b: nat, next: nat)
    requires Cuttable(lv, h, file, level, 1, nkeep, b, Some(next)) && |lv.items| - 1 <= nkeep
    ensures var h2, rest := Cut(h, lv, nkeep, b, Some(next)), lv.items[nkeep..];
            && |h2.cuts| == lv.npages + 2 && |h2.blks| == lv.npages + 2
            && h2.cuts[lv.npages + 1] + |rest| + 1 == |h2.fed|
            && rest == h2.fed[h2.cuts[lv.npages + 1]..|h2.fed| - 1]
            && h2.blks[lv.npages] == b && h2.blks[lv.npages + 1] == next
            && lv.used - Total(lv.items, nkeep) == Total(rest, |rest|) && OpenFits(level, rest)
  {
    var rest := lv.items[nkeep..];
    if |rest| == 1 {
      RestCost(lv.items, nkeep);
    } else {
      assert nkeep == |lv.items|;
    }
    hide PagesOk, Need;
  }

  lemma RestCost(items: seq<Item>, n: nat)
    requires n + 1 == |items|
    ensures Total(items, |items|) - Total(items, n) == Total(items[n..], 1)
  {
    assert items[n..] == [items[n]];
    assert Total([items[n]], 1) == Total([items[n]], 0) + Need(items[n]);
  }

  // The items that did not stay open the next page.
  lemma NextOpen(lv: Level, h: History, file: map<nat, Page>, level: nat, nkeep: nat, b: nat, next: nat, page: Page)
    requires Cuttable(lv, h, file, level, 1, nkeep, b, Some(next)) && CutPage(lv, h, level, nkeep, Some(next), page)
    requires |lv.items| - 1 <= nkeep
    ensures lv.used >= Total(lv.items, nkeep)
    ensures LevelOk(Level(lv.items[nkeep..], lv.used - Total(lv.items, nkeep), lv.npages + 1, Some(next), Some(b)),
                    Cut(h, lv, nkeep, b, Some(next)), file[b := page], level, 1)
  {
    PageWritten(lv, h, file, level, 1, nkeep, b, Some(next), page);
    NextItems(lv, h, file, level, nkeep, b, next);
    hide PagesOk, Total, OpenFits, Cut, Cuttable, CutPage;
  }

  lemma IsLastCut(lv: Level, h: History, file: map<nat, Page>, level: nat, b: nat, page: Page)
    requires LevelOk(lv, h, file, level, 0) && (lv.items == [] ==> h.fed == [] && lv.npages == 0)
    requires (lv.blkno.Some? ==> b == lv.blkno.value) && b !in file && Fits(page)
    requires page == Page(level, lv.leftblk, None, None, Stored(level, lv.items[..|lv.items|]))
    ensures Cuttable(lv, h, file, level, 0, |lv.items|, b, None) && CutPage(lv, h, level, |lv.items|, None, page)
  {
    hide Stored, Fits, PageOk, Total, OpenFits, ItemOk, Ascending;
  }

  // The page at the end of a level.
  lemma LastClosed(lv: Level, h: History, file: map<nat, Page>, level: nat, b: nat, page: Page)
    requires Cuttable(lv, h, file, level, 0, |lv.items|, b, None) && CutPage(lv, h, level, |lv.items|, None, page)
    ensures Closed(Cut(h, lv, |lv.items|, b, None), lv.npages + 1, file[b := page], level)
  {
    PageWritten(lv, h, file, level, 0, |lv.items|, b, None, page);
    CutsStay(lv, h, file, level, 0, |lv.items|, b, None);
  }

  // A page of the items kept and their high key does not overflow.
  lemma PageFits(level: nat, items: seq<Item>, nkeep: nat, page: Page)
    requires nkeep <= |items| && (forall x :: x in items ==> ItemOk(level, x))
    requires page.items == Stored(level, items[..nkeep])
    requires LevelUsed(level, items, Total(items, nkeep), nkeep) + HighNeed(page.high) <= CAPACITY
    ensures Fits(page)
  {
    StoredCost(level, items, nkeep);
  }

  // The last page of a level, which has no high key.
  lemma LastFits(level: nat, items: seq<Item>)
    requires OpenFits(level, items) && (forall x :: x in items ==> ItemOk(level, x))
    ensures LevelUsed(level, items, Total(items, |items|), |items|) <= CAPACITY
  {
    if |items| == 1 {
      FirstFits(level, items, MinusInf);
    }
  }

  lemma ClosesLevel(lv: Level, h: History, file: map<nat, Page>, level: nat, b: nat, page: Page)
    requires LevelOk(lv, h, file, level, 0) && (lv.items == [] ==> h.fed == [] && lv.npages == 0)
    requires (lv.blkno.Some? ==> b == lv.blkno.value) && b !in file
    requires page == Page(level, lv.leftblk, None, None, Stored(level, lv.items[..|lv.items|]))
    ensures Cuttable(lv, h, file, level, 0, |lv.items|, b, None) && |h.cuts| == lv.npages + 1
    ensures Closed(Cut(h, lv, |lv.items|, b, None), lv.npages + 1, file[b := page], level)
  {
    hide LevelOk, Cuttable, CutPage, Closed, Fits, LevelUsed, Total, Stored, ItemOk, OpenFits, Cut;
    OpenItems(lv, h, file, level, 0);
    LastFits(level, lv.items);
    PageFits(level, lv.items, |lv.items|, page);
    IsLastCut(lv, h, file, level, b, page);
    LastClosed(lv, h, file, level, b, page);
  }

  lemma OpenItems(lv: Level, h: History, file: map<nat, Page>, level: nat, e: nat)
    requires LevelOk(lv, h, file, level, e)
    ensures (forall x :: x in lv.items ==> ItemOk(level, x)) && (forall x :: x in h.fed ==> ItemOk(level, x))
    ensures lv.used == Total(lv.items, |lv.items|) && OpenFits(level, lv.items)
    ensures |h.cuts| == lv.npages + 1 && h.cuts[lv.npages] + |lv.items| + e == |h.fed|
    ensures forall k :: 0 <= k < |lv.items| ==> lv.items[k] == h.fed[h.cuts[lv.npages] + k]
    ensures (lv.npages > 0 ==> lv.blkno.Some?) && (lv.items != [] ==> lv.blkno.Some?)
  {
  }

  lemma IsCuttable(lv: Level, h: History, file: map<nat, Page>, level: nat, nkeep: nat, b: nat, next: nat, high: Item,
                   page: Page)
    requires LevelOk(lv, h, file, level, 1) && 0 < nkeep <= |lv.items| && (level > 0 ==> nkeep >= 2)
    requires lv.blkno == Some(b) && b !in file && Fits(page)
    requires high == if nkeep == |lv.items| then h.fed[|h.fed| - 1] else lv.items[nkeep]
    requires page == Page(level, lv.leftblk, Some(next), Some(high.key), Stored(level, lv.items[..nkeep]))
    ensures Cuttable(lv, h, file, level, 1, nkeep, b, Some(next)) && CutPage(lv, h, level, nkeep, Some(next), page)
  {
    assert high == h.fed[h.cuts[lv.npages] + nkeep];
    hide PagesOk, Stored, Fits;
  }

  // The separator of the page about to be written, over those before it.
  function PageKey(lv: Level): Key {
    if lv.npages == 0 || lv.items == [] then MinusInf else lv.items[0].key
  }

  lemma NextSeparator(lv: Level, h: History, file: map<nat, Page>, level: nat, e: nat, up: History)
    requires LevelOk(lv, h, file, level, e) && lv.items != []
    requires if lv.npages == 0 then up.fed == [] else FedBy(up, h, lv.npages)
    ensures KeyOk(PageKey(lv)) && (up.fed != [] ==> Below(up.fed[|up.fed| - 1].key, PageKey(lv)))
  {
    if lv.npages > 0 {
      assert lv.items[0] == h.fed[h.cuts[lv.npages]] && ItemOk(level, h.fed[h.cuts[lv.npages]]);
      assert h.cuts[lv.npages - 1] < h.cuts[lv.npages];
      assert Below(h.fed[h.cuts[lv.npages - 1]].key, h.fed[h.cuts[lv.npages]].key);
      assert up.fed[lv.npages - 1] == Down(Separator(h, lv.npages, lv.npages - 1), h.blks[lv.npages - 1]);
    }
  }

  lemma FedNext(lv: Level, h: History, file: map<nat, Page>, level: nat, e: nat, nkeep: nat, b: nat, next: Option<nat>,
                up: History, up2: History)
    requires Cuttable(lv, h, file, level, e, nkeep, b, next) && lv.items != []
    requires if lv.npages == 0 then up.fed == [] else FedBy(up, h, lv.npages)
    requires up2.fed == up.fed + [Down(PageKey(lv), b)]
    ensures FedBy(up2, Cut(h, lv, nkeep, b, next), lv.npages + 1)
  {
    CutsStay(lv, h, file, level, e, nkeep, b, next);
    var h2, n := Cut(h, lv, nkeep, b, next), lv.npages;
    assert lv.items[0] == h.fed[h.cuts[n]];
    forall j | 0 <= j < n + 1
      ensures up2.fed[j] == Down(Separator(h2, n + 1, j), h2.blks[j])
    {
      if j < n {
        assert up.fed[j] == Down(Separator(h, n, j), h.blks[j]);
      }
    }
  }

  // Is there no room for an item of this need on the level's open page?
  function Crowded(level: nat, lv: Level, leafBudget: nat, need: nat, hkneed: nat): bool {
    var used := LevelUsed(level, lv.items, lv.used, |lv.items|) + need + hkneed;
    && lv.items != [] && used > (if level == 0 then leafBudget else DIR_BUDGET)
    && (|lv.items| >= (if level == 0 then 1 else MIN_DOWNLINKS) || used > CAPACITY)
    && !Crosses(level, lv, leafBudget, need, hkneed)
  }

  // A leaf takes the item that crosses its budget when that lands nearer to it.
  function Crosses(level: nat, lv: Level, leafBudget: nat, need: nat, hkneed: nat): bool {
    level == 0 && lv.used + need + hkneed <= CAPACITY &&
    lv.used + need + hkneed - leafBudget < leafBudget - (lv.used + hkneed)
  }

  /* ---------- no page is written early ---------- */

  // A page of these items could not take x under a high key hk: that is over its
  // budget, and over the page, or a leaf then as near to the budget without x,
  // or an internal page with downlinks enough.
  ghost predicate MustEnd(level: nat, leafBudget: nat, items: seq<Item>, x: Item, hk: Key) {
    var cost := LevelUsed(level, items, Total(items, |items|), |items|) + Need(x) + PivotNeed(hk);
    && cost > (if level == 0 then leafBudget else DIR_BUDGET)
    && (cost > CAPACITY ||
        if level == 0 then cost - leafBudget >= leafBudget - (cost - Need(x)) else |items| >= 3)
  }

  // Page j - 1 of a level ends where it must: the item next to it did not fit
  // under its own key, or under that of the item after it.
  ghost predicate EndsLate(level: nat, leafBudget: nat, h: History, j: nat) {
    0 < j < |h.cuts| && h.cuts[j - 1] <= h.cuts[j] < |h.fed| ==>
      var items, x := h.fed[h.cuts[j - 1]..h.cuts[j]], h.fed[h.cuts[j]];
      MustEnd(level, leafBudget, items, x, x.key) ||
      (h.cuts[j] + 1 < |h.fed| && MustEnd(level, leafBudget, items, x, h.fed[h.cuts[j] + 1].key))
  }

  ghost predicate Filled(level: nat, leafBudget: nat, h: History) {
    forall j :: 0 < j < |h.cuts| ==> EndsLate(level, leafBudget, h, j)
  }

  // Nor late: each item but a page's first could be taken when it was.
  ghost predicate TakenWell(level: nat, leafBudget: nat, items: seq<Item>) {
    forall m :: 0 < m < |items| ==> !MustEnd(level, leafBudget, items[..m], items[m], items[m].key)
  }

  ghost predicate PageTakenWell(level: nat, leafBudget: nat, h: History, j: nat) {
    0 < j < |h.cuts| && h.cuts[j - 1] <= h.cuts[j] <= |h.fed| ==>
      TakenWell(level, leafBudget, h.fed[h.cuts[j - 1]..h.cuts[j]])
  }

  // A level and its open page.
  ghost predicate Paced(level: nat, leafBudget: nat, h: History, items: seq<Item>) {
    && Filled(level, leafBudget, h) && TakenWell(level, leafBudget, items)
    && forall j :: 0 < j < |h.cuts| ==> PageTakenWell(level, leafBudget, h, j)
  }

  // One item more on the open page, which is not crowded.
  lemma TakesOneMore(level: nat, lv: Level, leafBudget: nat, x: Item)
    requires TakenWell(level, leafBudget, lv.items) && lv.used == Total(lv.items, |lv.items|)
    requires !Crowded(level, lv, leafBudget, Need(x), PivotNeed(x.key))
    ensures TakenWell(level, leafBudget, lv.items + [x])
  {
    var more := lv.items + [x];
    forall m | 0 < m < |more|
      ensures !MustEnd(level, leafBudget, more[..m], more[m], more[m].key)
    {
      assert more[..m] == lv.items[..m];
      if m == |lv.items| {
        assert lv.items[..m] == lv.items;
      }
    }
    hide Need, PivotNeed, Total;
  }

  lemma PrefixTakenWell(level: nat, leafBudget: nat, items: seq<Item>, n: nat)
    requires TakenWell(level, leafBudget, items) && n <= |items|
    ensures TakenWell(level, leafBudget, items[..n])
  {
    hide MustEnd;
    forall m | 0 < m < n
      ensures !MustEnd(level, leafBudget, items[..n][..m], items[..n][m], items[..n][m].key)
    {
      assert items[..n][..m] == items[..m];
    }
  }

  lemma PutsPaced(level: nat, leafBudget: nat, h: History, h2: History, lv: Level, x: Item)
    requires Paced(level, leafBudget, h, lv.items) && h2.fed == h.fed && h2.cuts == h.cuts
    requires lv.used == Total(lv.items, |lv.items|) && !Crowded(level, lv, leafBudget, Need(x), PivotNeed(x.key))
    ensures Paced(level, leafBudget, h2, lv.items + [x])
  {
    TakesOneMore(level, lv, leafBudget, x);
    SamePace(level, leafBudget, h, h2, lv.items);
    hide TakenWell, EndsLate, PageTakenWell;
  }

  // Blocks do not matter.
  lemma SamePace(level: nat, leafBudget: nat, h: History, h2: History, items: seq<Item>)
    requires Paced(level, leafBudget, h, items) && h2.fed == h.fed && h2.cuts == h.cuts
    ensures Paced(level, leafBudget, h2, items)
  {
    hide MustEnd, TakenWell;
    forall j | 0 < j < |h2.cuts|
      ensures EndsLate(level, leafBudget, h2, j) && PageTakenWell(level, leafBudget, h2, j)
    {
      assert EndsLate(level, leafBudget, h, j) && PageTakenWell(level, leafBudget, h, j);
    }
  }

  // More items given to a level that has some open change no page's end.
  lemma PacedAsFed(level: nat, leafBudget: nat, h: History, items: seq<Item>, x: Item)
    requires Paced(level, leafBudget, h, items) && forall j :: 0 < j < |h.cuts| ==> h.cuts[j] < |h.fed|
    ensures Paced(level, leafBudget, History(h.fed + [x], h.cuts, h.blks), items)
  {
    hide MustEnd, TakenWell;
    var h2 := History(h.fed + [x], h.cuts, h.blks);
    forall j | 0 < j < |h2.cuts|
      ensures EndsLate(level, leafBudget, h2, j) && PageTakenWell(level, leafBudget, h2, j)
    {
      assert EndsLate(level, leafBudget, h, j) && PageTakenWell(level, leafBudget, h, j);
      if h.cuts[j - 1] <= h.cuts[j] {
        assert h2.fed[h.cuts[j - 1]..h.cuts[j]] == h.fed[h.cuts[j - 1]..h.cuts[j]];
      }
    }
  }

  // The page about to be cut off ends late when it was crowded, or was trimmed.
  lemma CutIsLate(lv: Level, h: History, file: map<nat, Page>, level: nat, leafBudget: nat, nkeep: nat, b: nat,
                  next: nat)
    requires LevelOk(lv, h, file, level, 1) && 0 < nkeep <= |lv.items| && |lv.items| - 1 <= nkeep
    requires leafBudget <= CAPACITY
    requires var x := h.fed[|h.fed| - 1];
             && Crowded(level, lv, leafBudget, Need(x), PivotNeed(x.key))
             && (nkeep < |lv.items| ==> LevelUsed(level, lv.items, lv.used, |lv.items|) + PivotNeed(x.key) > CAPACITY)
    requires Paced(level, leafBudget, h, lv.items)
    ensures |h.cuts| == lv.npages + 1 && Paced(level, leafBudget, Cut(h, lv, nkeep, b, Some(next)), lv.items[nkeep..])
  {
    hide LevelOk, MustEnd, Crowded, Total, Need, LevelUsed;
    PrefixTakenWell(level, leafBudget, lv.items, nkeep);
    OpenItems(lv, h, file, level, 1);
    SameItems(h.fed, h.cuts[lv.npages], lv.items, nkeep);
    var h2, n, x := Cut(h, lv, nkeep, b, Some(next)), lv.npages, h.fed[|h.fed| - 1];
    if nkeep == |lv.items| {
      assert lv.items[..nkeep] == lv.items;
      CrowdedMustEnd(level, lv, leafBudget, x);
    } else {
      TrimmedMustEnd(level, lv, leafBudget, nkeep, x);
    }
    assert h2.cuts[n + 1] == h2.cuts[n] + nkeep && h2.fed[h2.cuts[n]..h2.cuts[n + 1]] == lv.items[..nkeep];
    assert TakenWell(level, leafBudget, lv.items[nkeep..]);
    CutPaced(level, leafBudget, h, h2, n, lv.items, lv.items[nkeep..]);
  }

  // A page more of a level, which ends late and was taken well.
  lemma CutPaced(level: nat, leafBudget: nat, h: History, h2: History, n: nat, items: seq<Item>, rest: seq<Item>)
    requires Paced(level, leafBudget, h, items) && TakenWell(level, leafBudget, rest)
    requires |h.cuts| == n + 1 && |h2.cuts| == n + 2 && h2.fed == h.fed
    requires forall j :: 0 <= j <= n ==> h2.cuts[j] == h.cuts[j]
    requires EndsLate(level, leafBudget, h2, n + 1) && PageTakenWell(level, leafBudget, h2, n + 1)
    ensures Paced(level, leafBudget, h2, rest)
  {
    hide MustEnd, TakenWell;
    forall j | 0 < j < |h2.cuts|
      ensures EndsLate(level, leafBudget, h2, j) && PageTakenWell(level, leafBudget, h2, j)
    {
      if j <= n {
        assert EndsLate(level, leafBudget, h, j) && PageTakenWell(level, leafBudget, h, j);
      }
    }
  }

  lemma CrowdedMustEnd(level: nat, lv: Level, leafBudget: nat, x: Item)
    requires Crowded(level, lv, leafBudget, Need(x), PivotNeed(x.key)) && lv.used == Total(lv.items, |lv.items|)
    ensures MustEnd(level, leafBudget, lv.items, x, x.key)
  {
    hide Need, PivotNeed, Total;
  }

  lemma TrimmedMustEnd(level: nat, lv: Level, leafBudget: nat, nkeep: nat, x: Item)
    requires 0 < nkeep && nkeep + 1 == |lv.items| && lv.used == Total(lv.items, |lv.items|) && leafBudget <= CAPACITY
    requires LevelUsed(level, lv.items, lv.used, |lv.items|) + PivotNeed(x.key) > CAPACITY
    ensures MustEnd(level, leafBudget, lv.items[..nkeep], lv.items[nkeep], x.key)
  {
    SameTotal(lv.items, lv.items[..nkeep], nkeep);
    hide Need, PivotNeed;
  }

  // The last page ends where the level does.
  lemma LastFilled(lv: Level, h: History, file: map<nat, Page>, level: nat, leafBudget: nat, b: nat)
    requires LevelOk(lv, h, file, level, 0) && Paced(level, leafBudget, h, lv.items)
    ensures |h.cuts| == lv.npages + 1 && Paced(level, leafBudget, Cut(h, lv, |lv.items|, b, None), [])
  {
    OpenItems(lv, h, file, level, 0);
    var h2, n := Cut(h, lv, |lv.items|, b, None), lv.npages;
    hide LevelOk, MustEnd, Cut;
    assert h2.cuts[n + 1] == |h.fed| && h2.fed[h2.cuts[n]..h2.cuts[n + 1]] == lv.items;
    assert TakenWell(level, leafBudget, []);
    CutPaced(level, leafBudget, h, h2, n, lv.items, []);
  }

  lemma CutsBelow(lv: Level, h: History, file: map<nat, Page>, level: nat)
    requires LevelOk(lv, h, file, level, 0) && (lv.items == [] ==> h.fed == [] && lv.npages == 0)
    ensures forall j :: 0 < j < |h.cuts| ==> h.cuts[j] < |h.fed|
  {
    hide Total, OpenFits, PageOk, Ascending;
  }

  lemma TotalOfOne(items: seq<Item>)
    ensures |items| == 1 ==> Total(items, 1) == Need(items[0])
  {
    assert |items| == 1 ==> Total(items, 0) == 0;
  }

  // An internal page of one downlink has room for another, and a high key.
  lemma RoomForTwo(level: nat, lv: Level, leafBudget: nat, x: Item)
    requires level > 0 && ItemOk(level, x) && lv.used == Total(lv.items, |lv.items|)
    ensures |lv.items| == 1 ==> !Crowded(level, lv, leafBudget, Need(x), PivotNeed(x.key))
  {
    NeedIsBounded(level, x);
    TotalOfOne(lv.items);
  }

  lemma FedOneMore(lv: Level, h: History, h2: History, file: map<nat, Page>, level: nat, x: Item)
    requires LevelOk(lv, h, file, level, 0) && (lv.items == [] ==> h.fed == [] && lv.npages == 0)
    requires h2 == History(h.fed + [x], h.cuts, h.blks) && ItemOk(level, x)
    requires h.fed != [] ==> Below(h.fed[|h.fed| - 1].key, x.key)
    ensures LevelOk(lv, h2, file, level, 1)
    ensures forall up :: FedBy(up, h, lv.npages) ==> FedBy(up, h2, lv.npages)
  {
    FedGrows(lv, h, h2, file, level, x);
    hide Ascending, CutsOk, PageOk, Total, OpenFits, FedBy, ItemOk;
    forall j | 0 <= j < lv.npages
      ensures PageOk(level, h2, lv.npages, file, j)
    {
      SamePage(lv, h, h2, file, level, x, j);
    }
    forall up | FedBy(up, h, lv.npages)
      ensures FedBy(up, h2, lv.npages)
    {
      SameSeparators(up, h, h2, lv.npages, x);
    }
  }

  lemma FedGrows(lv: Level, h: History, h2: History, file: map<nat, Page>, level: nat, x: Item)
    requires LevelOk(lv, h, file, level, 0) && (lv.items == [] ==> h.fed == [] && lv.npages == 0)
    requires h2 == History(h.fed + [x], h.cuts, h.blks) && ItemOk(level, x)
    requires h.fed != [] ==> Below(h.fed[|h.fed| - 1].key, x.key)
    ensures CutsOk(h2, lv.npages) && Ascending(h2.fed) && (forall y :: y in h2.fed ==> ItemOk(level, y))
    ensures lv.items == h2.fed[h2.cuts[lv.npages]..|h2.fed| - 1]
  {
    hide ItemOk, OpenFits, Total;
    assert lv.npages > 0 ==> h.cuts[lv.npages] < |h.fed|;
    forall i, j | 0 <= i < j < |h2.fed|
      ensures Below(h2.fed[i].key, h2.fed[j].key)
    {
      if j == |h.fed| && i < |h.fed| - 1 {
        assert Below(h.fed[i].key, h.fed[|h.fed| - 1].key);
      }
    }
  }

  lemma SamePage(lv: Level, h: History, h2: History, file: map<nat, Page>, level: nat, x: Item, j: nat)
    requires LevelOk(lv, h, file, level, 0) && lv.items != [] && j < lv.npages
    requires h2 == History(h.fed + [x], h.cuts, h.blks) && CutsOk(h2, lv.npages)
    ensures PageOk(level, h2, lv.npages, file, j)
  {
    assert PageOk(level, h, lv.npages, file, j);
    assert h.cuts[j + 1] <= h.cuts[lv.npages] && h.cuts[j] <= h.cuts[j + 1];
    assert h2.fed[h.cuts[j]..h.cuts[j + 1]] == h.fed[h.cuts[j]..h.cuts[j + 1]];
    hide Stored, Fits;
  }

  lemma SameSeparators(up: History, h: History, h2: History, n: nat, x: Item)
    requires FedBy(up, h, n) && h2 == History(h.fed + [x], h.cuts, h.blks) && CutsOk(h2, n)
    ensures FedBy(up, h2, n)
  {
    forall j | 0 <= j < n
      ensures up.fed[j] == Down(Separator(h2, n, j), h2.blks[j])
    {
      assert h.cuts[j] < h.cuts[n];
      assert up.fed[j] == Down(Separator(h, n, j), h.blks[j]);
    }
  }

  // The item put on the open page it fits.
  lemma ItemPut(lv: Level, h: History, file: map<nat, Page>, level: nat, leafBudget: nat, x: Item, blkno: nat)
    requires LevelOk(lv, h, file, level, 1) && x == h.fed[|h.fed| - 1] && leafBudget <= CAPACITY
    requires !Crowded(level, lv, leafBudget, Need(x), PivotNeed(x.key))
    requires lv.blkno.Some? ==> lv.blkno.value == blkno
    ensures LevelOk(Level(lv.items + [x], lv.used + Need(x), lv.npages, Some(blkno), lv.leftblk),
                    if lv.blkno.Some? then h else History(h.fed, h.cuts, h.blks + [blkno]), file, level, 0)
  {
    var items, n := lv.items + [x], |lv.items|;
    SameTotal(items, lv.items, n);
    assert items[..n] == lv.items;
    assert items == h.fed[h.cuts[lv.npages]..|h.fed|];
    assert OpenFits(level, items);
    var h2 := if lv.blkno.Some? then h else History(h.fed, h.cuts, h.blks + [blkno]);
    assert lv.blkno.None? ==> lv.npages == 0;
    hide Need, LevelUsed, Crowded, OpenFits;
  }

  const EMPTY_LEVEL: Level := Level([], 0, 0, None, None)
  const NO_HISTORY: History := History([], [0], [])

  lemma {:induction false} OpenExtends(levels: seq<Level>, i: nat)
    requires i <= |levels|
    ensures Open(levels + [EMPTY_LEVEL], i) == Open(levels, i)
    decreases |levels| - i
  {
    if i < |levels| {
      OpenExtends(levels, i + 1);
    }
  }

  class Directory {
    const leafBudget: Budget
    var levels: seq<Level>
    var nblocks: nat
    var file: map<nat, Page>
    var root: nat
    var height: nat
    ghost var hist: seq<History>
    ghost var owner: map<nat, nat>   // the level a block was taken for

    ghost function Now(): Snapshot
      reads this
    {
      Snapshot(levels, hist, nblocks, file, owner)
    }

    constructor (leafBudget: Budget)
      ensures Upper(Now(), 0) && |levels| == 1 && hist[0].fed == [] && file == map[] && this.leafBudget == leafBudget
      ensures AllPaced(0)
    {
      this.leafBudget := leafBudget;
      levels := [Level([], 0, 0, None, None)];
      nblocks := 1;
      file := map[];
      root, height := 0, 0;
      hist := [History([], [0], [])];
      owner := map[];
    }

    // The pages of levels i and up end where they must.
    ghost predicate AllPaced(i: nat)
      reads this`hist, this`levels
    {
      |levels| == |hist| && forall k :: i <= k < |hist| ==> Paced(k, leafBudget, hist[k], levels[k].items)
    }

    // The next free block.
    method Alloc(ghost level: nat) returns (b: nat)
      requires Blocks(Now())
      modifies this`nblocks, this`owner
      ensures Blocks(Now()) && b == old(nblocks) && nblocks == b + 1 && owner == old(owner)[b := level]
    {
      b := nblocks;
      nblocks := nblocks + 1;
      owner := owner[b := level];
    }


    // lv's page with its first nkeep items, under the high key.
    function OpenPage(level: nat, lv: Level, nkeep: nat, high: Option<Item>, next: Option<nat>): Page
      requires nkeep <= |lv.items|
    {
      Page(level, lv.leftblk, next, if high.Some? then Some(high.value.key) else None, Stored(level, lv.items[..nkeep]))
    }

    // Each block is written once, in the place taken for it.
    method WriteBlock(i: nat, b: nat, page: Page)
      requires Upper(Now(), i + 1) && i < |levels| && b in owner && owner[b] == i && b !in file
      modifies this`file
      ensures file == old(file)[b := page] && Upper(Now(), i + 1) && Keeps(old(Now()), Now(), i)
    {
      WriteStays(Now(), i, b, page);
      file := file[b := page];
    }

    // The downlink to the page of level i just written, handed up.
    method HandUp(i: nat, b: nat, ghost e: nat)
      requires Upper(Now(), i + 1) && Linked(Now(), i) && levels[i].items != [] && AllPaced(i + 1)
      requires LevelOk(levels[i], hist[i], file, i, e)
      modifies this
      ensures Upper(Now(), i + 1) && i + 1 < |levels| && Keeps(old(Now()), Now(), i + 1) && AllPaced(i + 1)
      ensures hist[i + 1].fed ==
                (if i + 1 < |old(hist)| then old(hist)[i + 1].fed else []) + [Down(PageKey(levels[i]), b)]
      ensures Open(levels, i + 1) <= old(Open(levels, i + 1)) + 1
      decreases Open(levels, i), 0
    {
      hide LevelOk, FedBy;
      ghost var before := Now();
      var lv := levels[i];
      if i + 1 == |levels| {
        OpenExtends(levels, i + 1);
        OpenExtends(levels, i);
        AddLevel(i);
      }
      NextSeparator(lv, hist[i], file, i, e, hist[i + 1]);
      ghost var middle := Now();
      LevelAdd(i + 1, Down(PageKey(lv), b));
      KeepsOn(before, middle, Now(), i + 1, i + 1);
    }

    method AddLevel(i: nat)
      requires Upper(Now(), i + 1) && i + 1 == |levels|
      modifies this`levels, this`hist
      ensures levels == old(levels) + [EMPTY_LEVEL] && hist == old(hist) + [NO_HISTORY] && AllPaced(i + 1)
      ensures Upper(Now(), i + 1) && Keeps(old(Now()), Now(), i + 1)
    {
      levels := levels + [EMPTY_LEVEL];
      hist := hist + [NO_HISTORY];
    }

    // The open page of level i written, under the key of hkey, the item that
    // did not fit; trailing items go to the next page when it leaves no room.
    method Flush(i: nat, hkey: Item)
      requires Mid(Now(), i, 1) && hist[i].fed[|hist[i].fed| - 1] == hkey && levels[i].items != []
      requires i > 0 ==> |levels[i].items| >= 2
      requires Crowded(i, levels[i], leafBudget, Need(hkey), PivotNeed(hkey.key)) && AllPaced(i)
      modifies this
      ensures Mid(Now(), i, 1) && hist[i].fed == old(hist[i].fed) && Keeps(old(Now()), Now(), i) && AllPaced(i)
      ensures |levels[i].items| < |old(levels[i].items)| && Open(levels, i) <= old(Open(levels, i))
      decreases Open(levels, i), 1
    {
      hide LevelOk, Cuttable, Keeps, FedBy, Cut, Upper, Mid, Linked, OpenBlock, Blocks, Total, OpenFits, Need, ItemOk,
           Open, Crowded, Paced;
      MidFacts(Now(), i, 1);
      var lv := levels[i];
      OpenSet(levels, i, lv);
      ghost var h, before := hist[i], Now();
      ghost var up := if i + 1 < |hist| then hist[i + 1] else NO_HISTORY;
      ghost var nkeep, next;
      var b, lv2;
      OpenItems(lv, h, file, i, 1);
      nkeep, b, next, lv2 := PutPage(i, hkey);
      ghost var h2, written := Cut(h, lv, nkeep, b, Some(next)), Now();
      CutIsLate(lv, h, before.file, i, leafBudget, nkeep, b, next);
      HandUp(i, b, 1);
      KeepsFile(written, Now(), i + 1);
      FedNext(lv, h, before.file, i, 1, nkeep, b, Some(next), up, hist[i + 1]);
      LevelStays(lv2, h2, i, 1, written.file, file);
      KeepsOn(before, written, Now(), i, i + 1);
      Reopen(before, Now(), i, lv2, h2);
      OpenSet(levels, i, lv2);
      levels, hist := levels[i := lv2], hist[i := h2];
    }

    // The page itself, and what is left for the next one.
    method PutPage(i: nat, hkey: Item) returns (ghost nkeep: nat, b: nat, ghost next: nat, lv2: Level)
      requires Mid(Now(), i, 1) && hist[i].fed[|hist[i].fed| - 1] == hkey && levels[i].items != []
      requires i > 0 ==> |levels[i].items| >= 2
      modifies this
      ensures levels == old(levels) && hist == old(hist)
      ensures Upper(Now(), i + 1) && Linked(Now(), i) && Keeps(old(Now()), Now(), i)
      ensures Cuttable(levels[i], hist[i], old(file), i, 1, nkeep, b, Some(next)) && 0 < nkeep <= |levels[i].items|
      ensures LevelOk(levels[i], hist[i], file, i, 1) && |hist[i].cuts| == levels[i].npages + 1
      ensures LevelOk(lv2, Cut(hist[i], levels[i], nkeep, b, Some(next)), file, i, 1)
      ensures lv2.items == levels[i].items[nkeep..] && lv2.npages == levels[i].npages + 1 && lv2.blkno == Some(next)
      ensures |levels[i].items| - 1 <= nkeep
      ensures nkeep < |levels[i].items| ==>
                LevelUsed(i, levels[i].items, levels[i].used, |levels[i].items|) + PivotNeed(hkey.key) > CAPACITY
      ensures next in owner && owner[next] == i && next !in file
    {
      hide LevelOk, Cuttable, CutPage, Keeps, FedBy, Cut, Fits, LevelUsed, Total, Upper, Mid, LevelKept, Stored, Need,
           ItemOk, OpenFits, PivotNeed;
      MidFacts(Now(), i, 1);
      var lv := levels[i];
      ghost var h, before := hist[i], Now();
      OpenItems(lv, h, file, i, 1);
      var keep, keepused, high := Trim(i, lv.items, lv.used, hkey);
      b := lv.blkno.value;
      TakesBlock(before, i, 1);
      var right := Alloc(i);
      ghost var taken := Now();
      MidFacts(taken, i, 1);
      var page := OpenPage(i, lv, keep, Some(high), Some(right));
      PageFits(i, lv.items, keep, page);
      IsCuttable(lv, h, file, i, keep, b, right, high, page);
      NextOpen(lv, h, before.file, i, keep, b, right, page);
      WriteBlock(i, b, page);
      LevelStays(lv, h, i, 1, before.file, file);
      KeepsOn(before, taken, Now(), i, i);
      lv2 := Level(lv.items[keep..], lv.used - keepused, lv.npages + 1, Some(right), Some(b));
      nkeep, next := keep, right;
    }

    // One item more on level i.
    method LevelAdd(i: nat, x: Item)
      requires Upper(Now(), i) && i < |levels| && ItemOk(i, x)
      requires hist[i].fed != [] ==> Below(hist[i].fed[|hist[i].fed| - 1].key, x.key)
      requires AllPaced(i)
      modifies this
      ensures Upper(Now(), i) && i < |levels| && Keeps(old(Now()), Now(), i) && AllPaced(i)
      ensures hist[i].fed == old(hist[i].fed) + [x] && levels[i].items != []
      ensures Open(levels, i) <= old(Open(levels, i)) + 1
      decreases Open(levels, i), 2
    {
      hide LevelOk, Keeps, FedBy, Paced;
      var need, hkneed := Need(x), PivotNeed(x.key);
      ghost var before := Now();
      ghost var h := History(hist[i].fed + [x], hist[i].cuts, hist[i].blks);
      if i + 1 < |levels| {
        FedNotEmpty(hist[i + 1], hist[i], levels[i].npages);
      }
      FedOneMore(levels[i], hist[i], h, file, i, x);
      CutsBelow(levels[i], hist[i], file, i);
      PacedAsFed(i, leafBudget, hist[i], levels[i].items, x);
      hist := hist[i := h];
      KeepsLower(before, Now(), i);
      while Crowded(i, levels[i], leafBudget, need, hkneed)
        invariant Mid(Now(), i, 1) && Keeps(before, Now(), i) && AllPaced(i)
        invariant hist[i].fed == h.fed && Open(levels, i) <= Open(before.levels, i)
        decreases |levels[i].items|
      {
        ghost var middle := Now();
        OpenItems(levels[i], hist[i], file, i, 1);
        if i > 0 {
          RoomForTwo(i, levels[i], leafBudget, x);
        }
        Flush(i, x);
        KeepsOn(before, middle, Now(), i, i);
      }
      ghost var middle := Now();
      PutOpen(i, x);
      KeepsOn(before, middle, Now(), i, i);
    }

    method PutOpen(i: nat, x: Item)
      requires Mid(Now(), i, 1) && x == hist[i].fed[|hist[i].fed| - 1]
      requires !Crowded(i, levels[i], leafBudget, Need(x), PivotNeed(x.key)) && AllPaced(i)
      modifies this
      ensures Upper(Now(), i) && i < |levels| && Keeps(old(Now()), Now(), i) && AllPaced(i)
      ensures hist[i].fed == old(hist[i].fed) && levels[i].items == old(levels[i].items) + [x]
      ensures Open(levels, i) == old(Open(levels, i)) + 1
    {
      hide LevelOk, FedBy, Keeps, Crowded, Total, Need, Open, OpenFits, Paced, TakenWell;
      var lv := levels[i];
      ghost var h, before := hist[i], Now();
      var b;
      OpenItems(lv, h, file, i, 1);
      KeepsLower(before, before, i);
      if lv.blkno.None? {
        TakesBlock(before, i, 1);
        b := Alloc(i);
      } else {
        b := lv.blkno.value;
      }
      ItemPut(lv, h, file, i, leafBudget, x, b);
      PutsPaced(i, leafBudget, h, if lv.blkno.Some? then h else History(h.fed, h.cuts, h.blks + [b]), lv, x);
      var lv2 := Level(lv.items + [x], lv.used + Need(x), lv.npages, Some(b), lv.leftblk);
      ghost var h2 := if lv.blkno.Some? then h else History(h.fed, h.cuts, h.blks + [b]);
      OpenSet(levels, i, lv2);
      SetLevel(before, Now(), i, lv2, h2);
      levels, hist := levels[i := lv2], hist[i := h2];
    }

    // The last page of level i, which has no high key: the root when it is the
    // only one.
    method FlushLast(i: nat, isroot: bool)
      requires Upper(Now(), i) && i < |levels| && (isroot <==> levels[i].npages == 0)
      requires !isroot ==> levels[i].items != []
      requires AllPaced(i)
      modifies this
      ensures Keeps(old(Now()), Now(), i) && i < |levels| && hist[i].fed == old(hist[i].fed) && AllPaced(i)
      ensures Closed(hist[i], levels[i].npages, file, i) && levels[i].npages == old(levels[i].npages) + 1
      ensures isroot ==> root == hist[i].blks[0] && height == i
      ensures !isroot ==> Upper(Now(), i + 1) && i + 1 < |levels| && FedBy(hist[i + 1], hist[i], levels[i].npages)
      ensures !isroot ==> hist[i + 1].fed != []
    {
      hide LevelOk, Cuttable, Keeps, FedBy, Closed, Cut, Upper, LevelKept, Linked, OpenBlock, Blocks, Paced;
      UpperFacts(Now(), i);
      var lv := levels[i];
      ghost var h, before := hist[i], Now();
      ghost var up := if i + 1 < |hist| then hist[i + 1] else NO_HISTORY;
      OpenItems(lv, h, file, i, 0);
      var b := PutLast(i);
      ghost var h2, written := Cut(h, lv, |lv.items|, b, None), Now();
      LastCutIs(lv, h, before.file, i, b);
      LastFilled(lv, h, before.file, i, leafBudget, b);
      if !isroot {
        LinkedFacts(Now(), i);
        HandUp(i, b, 0);
        KeepsFile(written, Now(), i + 1);
        FedNext(lv, h, before.file, i, 0, |lv.items|, b, None, up, hist[i + 1]);
        ClosedStays(h2, lv.npages + 1, i, written.file, file);
        KeepsOn(before, written, Now(), i, i + 1);
      } else {
        root, height := b, i;
      }
      var lv2 := Level([], 0, lv.npages + 1, None, Some(b));
      SetLevel(before, Now(), i, lv2, h2);
      levels, hist := levels[i := lv2], hist[i := h2];
    }

    method PutLast(i: nat) returns (b: nat)
      requires Upper(Now(), i) && i < |levels| && (levels[i].items == [] ==> levels[i].npages == 0)
      modifies this
      ensures levels == old(levels) && hist == old(hist)
      ensures Upper(Now(), i + 1) && Linked(Now(), i) && Keeps(old(Now()), Now(), i)
      ensures Cuttable(levels[i], hist[i], old(file), i, 0, |levels[i].items|, b, None)
      ensures LevelOk(levels[i], hist[i], file, i, 0) && |hist[i].cuts| == levels[i].npages + 1
      ensures Closed(Cut(hist[i], levels[i], |levels[i].items|, b, None), levels[i].npages + 1, file, i)
    {
      hide LevelOk, Cuttable, CutPage, Keeps, FedBy, Closed, Fits, LevelUsed, Total, Stored, Need, ItemOk, OpenFits,
           PagesOk, Cut, Upper, LevelKept, Mid;
      UpperFacts(Now(), i);
      var lv := levels[i];
      ghost var h, before := hist[i], Now();
      OpenItems(lv, h, file, i, 0);
      KeepsLower(before, before, i);
      if lv.blkno.None? {
        TakesBlock(before, i, 0);
        b := Alloc(i);
      } else {
        b := lv.blkno.value;
      }
      ghost var taken := Now();
      MidFacts(taken, i, 0);
      var page := OpenPage(i, lv, |lv.items|, None, None);
      ClosesLevel(lv, h, before.file, i, b, page);
      WriteBlock(i, b, page);
      KeepsOn(before, taken, Now(), i, i);
      LevelStays(lv, h, i, 0, before.file, file);
    }

    // The levels below i are all written, each handing up to the next.
    ghost predicate Finished(i: nat)
      reads this
    {
      && i <= |levels| == |hist|
      && forall k :: 0 <= k < i ==> DoneAt(Now(), k)
    }


    // The last page of every level, from the bottom up, to the one that is a
    // level's only page.
    method Finish()
      requires Upper(Now(), 0) && |levels| > 0 && AllPaced(0)
      modifies this
      ensures AllPaced(0)
      ensures Finished(height) && height < |levels| && hist[0].fed == old(hist[0].fed)
      ensures Closed(hist[height], 1, file, height) && levels[height].npages == 1 && root == hist[height].blks[0]
    {
      hide LevelOk, Closed, FedBy, Keeps, Upper, DoneAt, Paced;
      var i := 0;
      UpperFacts(Now(), 0);
      while true
        invariant Upper(Now(), i) && i < |levels| == |hist| && Finished(i) && hist[0].fed == old(hist[0].fed)
        invariant (i > 0 ==> levels[i].items != []) && AllPaced(0)
        decreases levels[i].npages
      {
        ghost var before := Now();
        var isroot := levels[i].npages == 0;
        NotEmptyOpen(before, i);
        FlushLast(i, isroot);
        KeepsFile(before, Now(), i);
        forall k | 0 <= k < i
          ensures DoneAt(Now(), k)
        {
          StillDone(before, Now(), i, k);
        }
        if isroot {
          return;
        }
        var below := levels[i].npages;
        IsDone(Now(), i);
        i := i + 1;
        UpperFacts(Now(), i);
        FedCount(hist[i], hist[i - 1], below);
        OpenDouble(levels[i], hist[i], file, i);
        // each level has fewer pages than the one below: the build's own check
        assert levels[i].npages + 1 < below;
      }
    }
  }

  // Work on level i leaves the levels below it finished.
  lemma StillDone(a: Snapshot, b: Snapshot, i: nat, k: nat)
    requires Keeps(a, b, i) && k < i < |a.levels| && DoneAt(a, k) && b.hist[i].fed == a.hist[i].fed
    ensures DoneAt(b, k)
  {
    hide Closed;
    ClosedStays(a.hist[k], a.levels[k].npages, k, a.file, b.file);
  }

  ghost predicate DoneAt(s: Snapshot, k: nat) {
    && k + 1 < |s.levels| == |s.hist| && Closed(s.hist[k], s.levels[k].npages, s.file, k) && s.levels[k].npages >= 2
    && FedBy(s.hist[k + 1], s.hist[k], s.levels[k].npages)
  }

  lemma UpperFacts(s: Snapshot, i: nat)
    requires Upper(s, i) && i < |s.levels|
    ensures |s.levels| == |s.hist| && Mid(s, i, 0) && Linked(s, i) && OpenBlock(s, i) && Blocks(s)
    ensures LevelOk(s.levels[i], s.hist[i], s.file, i, 0) && (s.levels[i].items == [] ==> s.hist[i].fed == [])
  {
    assert LevelKept(s, i, 0);
    hide LevelOk, FedBy;
  }

  lemma LinkedFacts(s: Snapshot, i: nat)
    requires Linked(s, i)
    ensures i < |s.levels| == |s.hist| && (s.levels[i].npages == 0 <==> i + 1 == |s.levels|)
    ensures i + 1 < |s.levels| ==> FedBy(s.hist[i + 1], s.hist[i], s.levels[i].npages)
  {
  }

  lemma LastCutIs(lv: Level, h: History, file: map<nat, Page>, level: nat, b: nat)
    requires Cuttable(lv, h, file, level, 0, |lv.items|, b, None)
    ensures Cut(h, lv, |lv.items|, b, None).blks != []
    ensures lv.npages == 0 ==> Cut(h, lv, |lv.items|, b, None).blks[0] == b
  {
    CutsStay(lv, h, file, level, 0, |lv.items|, b, None);
  }

  lemma NotEmptyOpen(s: Snapshot, i: nat)
    requires Upper(s, i) && i < |s.levels|
    ensures s.levels[i].npages > 0 ==> s.levels[i].items != []
  {
    assert LevelKept(s, i, 0);
    hide LevelOk;
  }

  lemma IsDone(s: Snapshot, k: nat)
    requires k + 1 < |s.levels| == |s.hist| && Closed(s.hist[k], s.levels[k].npages, s.file, k)
    requires s.levels[k].npages >= 2
    requires FedBy(s.hist[k + 1], s.hist[k], s.levels[k].npages)
    ensures DoneAt(s, k)
  {
  }

  lemma FedCount(up: History, h: History, n: nat)
    requires FedBy(up, h, n)
    ensures |up.fed| == n
  {
  }
}
