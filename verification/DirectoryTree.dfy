/**
  The directory a build leaves is a B-tree: its leaves spell the entries, a
  descent finds the leaf of any key, no page overflows, and its height is
  bounded by its leaves.
*/
module DirectoryTree {
  import opened Naturals
  import Sets
  import opened Options
  import opened Pages
  import opened DirectoryPages
  import opened DirectoryBuild

  // t and ns are the levels' histories and numbers of pages, leaves first.
  ghost predicate Tree(t: seq<History>, ns: seq<nat>, file: map<nat, Page>, root: nat) {
    && |t| == |ns| > 0
    && (forall k :: 0 <= k < |t| ==> Closed(t[k], ns[k], file, k))
    && (forall k :: 0 <= k < |t| ==> Handed(t, ns, k))
    && ns[|t| - 1] == 1 && root == t[|t| - 1].blks[0]
  }

  // A level below the root's has two pages or more, each with its downlink.
  ghost predicate Handed(t: seq<History>, ns: seq<nat>, k: nat)
    requires |t| == |ns|
  {
    k + 1 < |t| ==> ns[k] >= 2 && FedBy(t[k + 1], t[k], ns[k])
  }

  // Any entries in directory order, of the sizes a page has room for.
  method Build(leafBudget: Budget, entries: seq<Item>) returns (d: Directory, ghost t: seq<History>, ghost ns: seq<nat>)
    requires Ascending(entries) && forall x :: x in entries ==> ItemOk(0, x)
    ensures Tree(t, ns, d.file, d.root) && t[0].fed == entries && d.height == |t| - 1
    ensures forall k :: 0 <= k < |t| ==> Paced(k, leafBudget, t[k], [])
  {
    d := new Directory(leafBudget);
    UpperFacts(d.Now(), 0);
    for i := 0 to |entries|
      invariant fresh(d) && Upper(d.Now(), 0) && 0 < |d.levels| == |d.hist| && d.hist[0].fed == entries[..i]
      invariant d.AllPaced(0) && d.leafBudget == leafBudget
    {
      hide Upper, Keeps, Ascending, Paced;
      NextAscends(entries, i);
      d.LevelAdd(0, entries[i]);
      UpperFacts(d.Now(), 0);
    }
    assert entries[..|entries|] == entries;
    t, ns := CloseAll(d);
  }

  method CloseAll(d: Directory) returns (ghost t: seq<History>, ghost ns: seq<nat>)
    requires Upper(d.Now(), 0) && 0 < |d.levels| == |d.hist| && d.AllPaced(0)
    modifies d
    ensures Tree(t, ns, d.file, d.root) && t[0].fed == old(d.hist[0].fed) && d.height == |t| - 1
    ensures forall k :: 0 <= k < |t| ==> Paced(k, d.leafBudget, t[k], [])
  {
    UpperFacts(d.Now(), 0);
    hide Upper, Closed, Paced;
    d.Finish();
    t := d.hist[..d.height + 1];
    ns := PageCounts(d.levels)[..d.height + 1];
    IsTree(d.Now(), t, ns, d.root, d.height);
    forall k | 0 <= k < |t|
      ensures Paced(k, d.leafBudget, t[k], [])
    {
      PacedWithNone(k, d.leafBudget, t[k], d.levels[k].items);
    }
  }

  lemma PacedWithNone(level: nat, leafBudget: nat, h: History, items: seq<Item>)
    requires Paced(level, leafBudget, h, items)
    ensures Paced(level, leafBudget, h, [])
  {
  }

  function PageCounts(levels: seq<Level>): (ns: seq<nat>)
    ensures |ns| == |levels| && forall k :: 0 <= k < |ns| ==> ns[k] == levels[k].npages
  {
    seq(|levels|, k requires 0 <= k < |levels| => levels[k].npages)
  }

  lemma NextAscends(entries: seq<Item>, i: nat)
    requires Ascending(entries) && i < |entries|
    ensures entries[..i + 1] == entries[..i] + [entries[i]]
    ensures i > 0 ==> Below(entries[..i][i - 1].key, entries[i].key)
  {
  }

  lemma IsTree(s: Snapshot, t: seq<History>, ns: seq<nat>, root: nat, h: nat)
    requires h < |s.levels| == |s.hist| && t == s.hist[..h + 1] && |ns| == h + 1
    requires forall k :: 0 <= k <= h ==> ns[k] == s.levels[k].npages
    requires forall k :: 0 <= k < h ==> DoneAt(s, k)
    requires Closed(s.hist[h], 1, s.file, h) && s.levels[h].npages == 1 && root == s.hist[h].blks[0]
    ensures Tree(t, ns, s.file, root)
  {
    hide Closed, FedBy;
    forall k | 0 <= k < |t|
      ensures Closed(t[k], ns[k], s.file, k) && Handed(t, ns, k)
    {
      if k < h {
        assert DoneAt(s, k);
      }
    }
  }

  /* ---------- capacity ---------- */

  lemma NoPageOverflows(t: seq<History>, ns: seq<nat>, file: map<nat, Page>, root: nat, k: nat, j: nat)
    requires Tree(t, ns, file, root) && k < |t| && j < ns[k]
    ensures t[k].blks[j] in file && Fits(file[t[k].blks[j]]) && file[t[k].blks[j]].level == k
    ensures k > 0 && file[t[k].blks[j]].high.Some? ==> |file[t[k].blks[j]].items| >= 2
  {
    assert Closed(t[k], ns[k], file, k);
    assert PageOk(k, t[k], ns[k], file, j);
  }

  // No page is written early: the first item of the page to its right, at its
  // own size, would have taken it over its budget with a high key, and over the
  // page, or a leaf as far past the budget as it is short of it, or an internal
  // page past three downlinks.
  lemma NoPageIsEarly(t: seq<History>, ns: seq<nat>, file: map<nat, Page>, root: nat, leafBudget: nat, k: nat, j: nat)
    returns (x: Item, hk: Key)
    requires Tree(t, ns, file, root) && k < |t| && j + 1 < ns[k] && Paced(k, leafBudget, t[k], [])
    ensures t[k].blks[j] in file && t[k].cuts[j + 1] < |t[k].fed| && x == t[k].fed[t[k].cuts[j + 1]]
    ensures hk == x.key || (t[k].cuts[j + 1] + 1 < |t[k].fed| && hk == t[k].fed[t[k].cuts[j + 1] + 1].key)
    ensures var p := file[t[k].blks[j]];
            var cost := Total(p.items, |p.items|) + Need(x) + PivotNeed(hk);
            && cost > (if k == 0 then leafBudget else 5695)
            && (cost > 8136 ||
                if k == 0 then cost - leafBudget >= leafBudget - (cost - Need(x)) else |p.items| >= 3)
  {
    ReadsPage(t, ns, file, root, k, j);
    LevelIsFed(t, ns, file, root, k);
    AllItemsOk(t, ns, file, root, k);
    var h, n := t[k], ns[k];
    var items := h.fed[h.cuts[j]..h.cuts[j + 1]];
    hide Tree, Need, PivotNeed, Total, LevelUsed, ItemOk, Stored;
    assert h.cuts[j] < h.cuts[j + 1] < h.cuts[n];
    assert EndsLate(k, leafBudget, h, j + 1);
    StoredCost(k, items, |items|);
    assert items[..|items|] == items;
    x := h.fed[h.cuts[j + 1]];
    hk := if MustEnd(k, leafBudget, items, x, x.key) then x.key else h.fed[h.cuts[j + 1] + 1].key;
    StoredCount(k, items);
  }

  lemma StoredCount(level: nat, items: seq<Item>)
    ensures |Stored(level, items)| == |items|
  {
  }

  lemma AllItemsOk(t: seq<History>, ns: seq<nat>, file: map<nat, Page>, root: nat, k: nat)
    requires Tree(t, ns, file, root) && k < |t|
    ensures forall x :: x in t[k].fed ==> ItemOk(k, x)
  {
    assert Closed(t[k], ns[k], file, k);
  }

  // Nor is one filled too far: where item m of a page was taken, the items before
  // it, with it and a pivot of its key, were within the budget, or within the
  // page and a leaf then nearer to its budget, or an internal page short of
  // three downlinks.
  lemma NoPageIsLate(t: seq<History>, ns: seq<nat>, file: map<nat, Page>, root: nat, leafBudget: nat, k: nat, j: nat,
                     m: nat)
    requires Tree(t, ns, file, root) && k < |t| && j < ns[k] && Paced(k, leafBudget, t[k], [])
    requires t[k].blks[j] in file && 0 < m < |file[t[k].blks[j]].items|
    ensures t[k].cuts[j] + m < |t[k].fed|
    ensures var p, x := file[t[k].blks[j]], t[k].fed[t[k].cuts[j] + m];
            var cost := Total(p.items, m) + Need(x) + PivotNeed(x.key);
            || cost <= (if k == 0 then leafBudget else 5695)
            || (cost <= 8136 && if k == 0 then cost - leafBudget < leafBudget - (cost - Need(x)) else m < 3)
  {
    ReadsPage(t, ns, file, root, k, j);
    AllItemsOk(t, ns, file, root, k);
    hide Tree, Need, PivotNeed, ItemOk, Stored, Paced, PageAt;
    StoredPage(k, t[k], ns[k], j, m);
    TakenAt(k, leafBudget, t[k], j, m);
  }

  lemma TakenAt(level: nat, leafBudget: nat, h: History, j: nat, m: nat)
    requires Paced(level, leafBudget, h, []) && j + 1 < |h.cuts| && h.cuts[j] <= h.cuts[j + 1] <= |h.fed|
    requires 0 < m < h.cuts[j + 1] - h.cuts[j] && forall x :: x in h.fed ==> ItemOk(level, x)
    ensures var items, x := h.fed[h.cuts[j]..h.cuts[j + 1]], h.fed[h.cuts[j] + m];
            var cost := Total(Stored(level, items[..m]), m) + Need(x) + PivotNeed(x.key);
            || cost <= (if level == 0 then leafBudget else 5695)
            || (cost <= 8136 && if level == 0 then cost - leafBudget < leafBudget - (cost - Need(x)) else m < 3)
  {
    hide Need, PivotNeed, LevelUsed, ItemOk, Stored;
    assert PageTakenWell(level, leafBudget, h, j + 1);
    var items := h.fed[h.cuts[j]..h.cuts[j + 1]];
    assert !MustEnd(level, leafBudget, items[..m], items[m], items[m].key);
    StoredCost(level, items[..m], m);
    assert items[..m][..m] == items[..m];
  }

  // The first m items of a page, as stored.
  lemma StoredPage(level: nat, h: History, n: nat, j: nat, m: nat)
    requires CutsOk(h, n) && j < n && 0 < m && h.cuts[j] <= h.cuts[j + 1] <= |h.fed|
    requires m < |PageAt(level, h, n, j).items|
    ensures var items := h.fed[h.cuts[j]..h.cuts[j + 1]];
            m < |items| == h.cuts[j + 1] - h.cuts[j] &&
            Total(PageAt(level, h, n, j).items, m) == Total(Stored(level, items[..m]), m)
  {
    var items := h.fed[h.cuts[j]..h.cuts[j + 1]];
    SameTotal(PageAt(level, h, n, j).items, Stored(level, items[..m]), m);
  }

  // Its items laid out one after the other, as their own sizes have it, every
  // page holds them, its high key and their line pointers.
  lemma PagesAreLaidOut(t: seq<History>, ns: seq<nat>, file: map<nat, Page>, root: nat, k: nat, j: nat)
    returns (starts: seq<nat>)
    requires Tree(t, ns, file, root) && k < |t| && j < ns[k]
    ensures t[k].blks[j] in file && LaidOut(file[t[k].blks[j]], starts)
    ensures starts[|starts| - 1] + 4 * (|starts| - 1) <= 8136
  {
    NoPageOverflows(t, ns, file, root, k, j);
    hide Tree;
    starts := FitsLaidOut(file[t[k].blks[j]]);
  }

  /* ---------- the leaves, from left to right ---------- */

  // The items of the pages from b on, by their right links.
  ghost function Along(file: map<nat, Page>, b: Option<nat>, fuel: nat): seq<Item>
    decreases fuel
  {
    if fuel == 0 || b.None? || b.value !in file then []
    else file[b.value].items + Along(file, file[b.value].right, fuel - 1)
  }

  // A leaf holds its span of the entries, and links to the next.
  lemma LeafSpan(h: History, n: nat, file: map<nat, Page>, j: nat)
    requires CutsOk(h, n) && h.cuts[n] == |h.fed| && j < n && PageOk(0, h, n, file, j)
    ensures h.cuts[j] <= h.cuts[j + 1] && h.blks[j] in file
    ensures file[h.blks[j]].items + h.fed[h.cuts[j + 1]..] == h.fed[h.cuts[j]..]
    ensures j + 1 < n && h.fed != [] ==> file[h.blks[j]].right == Some(h.blks[j + 1])
    ensures j + 1 == n || h.fed == [] ==> h.cuts[j + 1] == |h.fed| && file[h.blks[j]].right.None?
  {
    hide Fits;
    assert h.cuts[j] <= h.cuts[j + 1];
    assert h.fed[h.cuts[j]..] == h.fed[h.cuts[j]..h.cuts[j + 1]] + h.fed[h.cuts[j + 1]..];
    assert j + 1 < n && h.fed != [] ==> h.cuts[j + 1] < h.cuts[n];
  }

  lemma {:induction false} AlongFrom(h: History, n: nat, file: map<nat, Page>, j: nat)
    requires Closed(h, n, file, 0) && j < n
    ensures CutsOk(h, n) && Along(file, Some(h.blks[j]), n - j) == h.fed[h.cuts[j]..]
    decreases n - j
  {
    hide Ascending, ItemOk, PageOk, CutsOk;
    LeafSpan(h, n, file, j);
    if j + 1 < n && h.fed != [] {
      AlongFrom(h, n, file, j + 1);
    }
  }

  // The leaves in order hold the entries, each once, in order.
  lemma LeavesSpellEntries(t: seq<History>, ns: seq<nat>, file: map<nat, Page>, root: nat)
    requires Tree(t, ns, file, root)
    ensures ns[0] > 0 && Along(file, Some(t[0].blks[0]), ns[0]) == t[0].fed
  {
    assert Closed(t[0], ns[0], file, 0);
    assert Handed(t, ns, 0);
    AlongFrom(t[0], ns[0], file, 0);
  }

  /* ---------- descent ---------- */

  function NotAbove(key: Key): Item -> bool { (x: Item) => AtMost(x.key, key) }

  // From a page down to a leaf.
  ghost function Descend(file: map<nat, Page>, b: nat, key: Key, fuel: nat): Option<nat>
    decreases fuel
  {
    if fuel == 0 || b !in file then None
    else
      var p := file[b];
      if p.level == 0 || p.items == [] then Some(b)
      else Descend(file, Child(p.items[Slot(p.items, NotAbove(key), |p.items| - 1)]), key, fuel - 1)
  }

  // key belongs under page j: not below its separator, and below the next.
  ghost predicate Covers(h: History, n: nat, j: nat, key: Key)
    requires CutsOk(h, n) && j < n && h.fed != []
  {
    AtMost(Separator(h, n, j), key) && (h.cuts[j + 1] < |h.fed| ==> Below(key, h.fed[h.cuts[j + 1]].key))
  }

  lemma PageItems(h: History, m: nat, level: nat, j: nat)
    requires CutsOk(h, m) && j < m && h.fed != []
    ensures var items, from := PageAt(level, h, m, j).items, h.cuts[j];
            && |h.cuts| == m + 1 && m <= |h.blks| && |items| == h.cuts[j + 1] - from > 0 && h.cuts[j + 1] <= |h.fed|
            && (forall q :: 0 <= q < |items| ==> Child(items[q]) == Child(h.fed[from + q]))
            && forall q :: 1 <= q < |items| ==> items[q] == h.fed[from + q]
  {
    assert h.cuts[j] < h.cuts[j + 1];
  }

  // Item number of a page, of all its level's, and what it sends the key to.
  lemma SlotCovers(up: History, m: nat, level: nat, j: nat, key: Key) returns (c: nat)
    requires CutsOk(up, m) && j < m && up.fed != [] && Covers(up, m, j, key) && up.fed[0].key.MinusInf?
    ensures c < |up.fed| && AtMost(up.fed[c].key, key) && (c + 1 < |up.fed| ==> Below(key, up.fed[c + 1].key))
    ensures var items := PageAt(level, up, m, j).items;
            |items| > 0 && Child(items[Slot(items, NotAbove(key), |items| - 1)]) == Child(up.fed[c])
  {
    var items, from := PageAt(level, up, m, j).items, up.cuts[j];
    PageItems(up, m, level, j);
    hide PageAt, CutsOk;
    var s := Slot(items, NotAbove(key), |items| - 1);
    SlotIsLast(items, NotAbove(key), |items| - 1);
    c := from + s;
    if s + 1 < |items| {
      assert items[s + 1] == up.fed[from + (s + 1)];
    }
  }

  // The child a page sends the key to covers it.
  lemma ChildCovers(up: History, h: History, n: nat, c: nat, key: Key)
    requires FedBy(up, h, n) && c < n && AtMost(up.fed[c].key, key) && (c + 1 < n ==> Below(key, up.fed[c + 1].key))
    requires h.cuts[n] == |h.fed|
    ensures Covers(h, n, c, key) && Child(up.fed[c]) == h.blks[c]
  {
    assert up.fed[c] == Down(Separator(h, n, c), h.blks[c]);
    if c + 1 < n {
      assert up.fed[c + 1] == Down(Separator(h, n, c + 1), h.blks[c + 1]);
    }
  }

  lemma FirstIsMinusInf(up: History, h: History, n: nat)
    requires FedBy(up, h, n) && n > 0
    ensures up.fed[0].key.MinusInf?
  {
    assert up.fed[0] == Down(Separator(h, n, 0), h.blks[0]);
  }

  lemma ReadsPage(t: seq<History>, ns: seq<nat>, file: map<nat, Page>, root: nat, k: nat, j: nat)
    requires Tree(t, ns, file, root) && k < |t| && j < ns[k]
    ensures CutsOk(t[k], ns[k]) && t[k].cuts[ns[k]] == |t[k].fed|
    ensures t[k].blks[j] in file && file[t[k].blks[j]] == PageAt(k, t[k], ns[k], j)
    ensures k > 0 ==>
              FedBy(t[k], t[k - 1], ns[k - 1]) && CutsOk(t[k - 1], ns[k - 1]) &&
              t[k - 1].cuts[ns[k - 1]] == |t[k - 1].fed|
  {
    hide PageAt, Fits;
    assert Closed(t[k], ns[k], file, k);
    assert PageOk(k, t[k], ns[k], file, j);
    if k > 0 {
      assert Handed(t, ns, k - 1);
      assert Closed(t[k - 1], ns[k - 1], file, k - 1);
    }
  }

  lemma {:induction false} DescendFrom(t: seq<History>, ns: seq<nat>, file: map<nat, Page>, root: nat, k: nat, j: nat,
                                       key: Key)
    returns (l: nat)
    requires Tree(t, ns, file, root) && k < |t| == |ns| && CutsOk(t[k], ns[k]) && CutsOk(t[0], ns[0])
    requires j < ns[k] && t[k].fed != [] && t[0].fed != [] && Covers(t[k], ns[k], j, key)
    ensures l < ns[0] && Descend(file, t[k].blks[j], key, k + 1) == Some(t[0].blks[l]) && Covers(t[0], ns[0], l, key)
    decreases k
  {
    hide Tree, CutsOk, FedBy, Covers, Slot;
    ReadsPage(t, ns, file, root, k, j);
    if k == 0 {
      return j;
    }
    FedCount(t[k], t[k - 1], ns[k - 1]);
    FedNotEmpty(t[k], t[k - 1], ns[k - 1]);
    FirstIsMinusInf(t[k], t[k - 1], ns[k - 1]);
    var c := SlotCovers(t[k], ns[k], k, j, key);
    ChildCovers(t[k], t[k - 1], ns[k - 1], c, key);
    l := DescendFrom(t, ns, file, root, k - 1, c, key);
  }

  // From the root, any key an entry has leads to the leaf that holds it.
  lemma DescentFindsEntry(t: seq<History>, ns: seq<nat>, file: map<nat, Page>, root: nat, i: nat)
    requires Tree(t, ns, file, root) && i < |t[0].fed|
    ensures var b := Descend(file, root, t[0].fed[i].key, |t|);
            b.Some? && b.value in file && file[b.value].level == 0 && t[0].fed[i] in file[b.value].items
  {
    var top, h := |t| - 1, t[0];
    var key := h.fed[i].key;
    TopFed(t, ns, file, root);
    assert Closed(t[top], ns[top], file, top);
    assert Closed(h, ns[0], file, 0);
    assert Covers(t[top], 1, 0, key);
    var l := DescendFrom(t, ns, file, root, top, 0, key);
    assert PageOk(0, h, ns[0], file, l);
    var from, to := h.cuts[l], h.cuts[l + 1];
    assert from < to;
    KeyOrder(h.fed, i, from);
    if to < |h.fed| {
      KeyOrder(h.fed, i, to);
    }
    assert h.fed[from..to][i - from] == h.fed[i];
  }

  lemma KeyOrder(fed: seq<Item>, i: nat, j: nat)
    requires Ascending(fed) && i < |fed| && j < |fed|
    ensures Below(fed[i].key, fed[j].key) <==> i < j
  {
    assert j < i ==> Below(fed[j].key, fed[i].key);
  }

  lemma TopFed(t: seq<History>, ns: seq<nat>, file: map<nat, Page>, root: nat)
    requires Tree(t, ns, file, root) && t[0].fed != []
    ensures t[|t| - 1].fed != []
  {
    if |t| > 1 {
      assert Handed(t, ns, |t| - 2);
    }
  }

  /* ---------- subtrees ---------- */

  // Stored downlinks lead from page b to the leaf.
  ghost predicate Reaches(file: map<nat, Page>, b: nat, leaf: nat, depth: nat)
    decreases depth
  {
    && b in file
    && if file[b].level == 0 then leaf == b
       else depth > 0 && exists q :: 0 <= q < |file[b].items| && Reaches(file, Child(file[b].items[q]), leaf, depth - 1)
  }

  // A descent is one such way.
  lemma {:induction false} DescentReaches(file: map<nat, Page>, b: nat, key: Key, fuel: nat, leaf: nat)
    requires Descend(file, b, key, fuel) == Some(leaf) && leaf in file && file[leaf].level == 0
    ensures Reaches(file, b, leaf, fuel)
    decreases fuel
  {
    var p := file[b];
    if p.level > 0 && p.items != [] {
      DescentReaches(file, Child(p.items[Slot(p.items, NotAbove(key), |p.items| - 1)]), key, fuel - 1, leaf);
    }
  }

  lemma LeafCovers(h: History, n: nat, j: nat, x: Item)
    requires CutsOk(h, n) && Ascending(h.fed) && j < n && x in PageAt(0, h, n, j).items && h.fed != []
    ensures Covers(h, n, j, x.key)
  {
    PageItems(h, n, 0, j);
    var from, to := h.cuts[j], h.cuts[j + 1];
    var q :| from <= q < to && x == h.fed[q];
    KeyOrder(h.fed, q, from);
    if to < |h.fed| {
      KeyOrder(h.fed, q, to);
    }
  }

  // What a page's child covers the page covers.
  lemma ParentCovers(up: History, m: nat, j: nat, h: History, n: nat, c: nat, key: Key)
    requires FedBy(up, h, n) && h.cuts[n] == |h.fed| && c < n && Covers(h, n, c, key)
    requires CutsOk(up, m) && Ascending(up.fed) && j < m && up.cuts[j] <= c < up.cuts[j + 1]
    ensures up.fed != [] && Covers(up, m, j, key)
  {
    var from, to := up.cuts[j], up.cuts[j + 1];
    assert up.fed[c] == Down(Separator(h, n, c), h.blks[c]);
    KeyOrder(up.fed, c, from);
    if to < |up.fed| {
      assert up.fed[c + 1] == Down(Separator(h, n, c + 1), h.blks[c + 1]);
      KeyOrder(up.fed, to, c + 1);
      assert h.cuts[c + 1] < h.cuts[n];
    }
  }

  lemma LevelAscends(t: seq<History>, ns: seq<nat>, file: map<nat, Page>, root: nat, k: nat)
    requires Tree(t, ns, file, root) && k < |t|
    ensures Ascending(t[k].fed)
  {
    assert Closed(t[k], ns[k], file, k);
  }

  lemma DownIs(up: History, h: History, n: nat, c: nat)
    requires FedBy(up, h, n) && c < n
    ensures c < |up.fed| == n && Child(up.fed[c]) == h.blks[c]
  {
    assert up.fed[c] == Down(Separator(h, n, c), h.blks[c]);
  }

  lemma {:induction false} SubtreeFrom(t: seq<History>, ns: seq<nat>, file: map<nat, Page>, root: nat, k: nat, j: nat,
                                           leaf: nat, depth: nat, x: Item)
    requires Tree(t, ns, file, root) && k < |t| == |ns| && j < ns[k] && CutsOk(t[k], ns[k]) && t[k].fed != []
    requires Reaches(file, t[k].blks[j], leaf, depth) && leaf in file && x in file[leaf].items
    ensures Covers(t[k], ns[k], j, x.key)
    decreases k
  {
    hide Tree, CutsOk, FedBy, Covers, Ascending;
    ReadsPage(t, ns, file, root, k, j);
    LevelAscends(t, ns, file, root, k);
    if k == 0 {
      LeafCovers(t[0], ns[0], j, x);
      return;
    }
    PageItems(t[k], ns[k], k, j);
    var items, from := file[t[k].blks[j]].items, t[k].cuts[j];
    var q :| 0 <= q < |items| && Reaches(file, Child(items[q]), leaf, depth - 1);
    FedCount(t[k], t[k - 1], ns[k - 1]);
    FedNotEmpty(t[k], t[k - 1], ns[k - 1]);
    DownIs(t[k], t[k - 1], ns[k - 1], from + q);
    SubtreeFrom(t, ns, file, root, k - 1, from + q, leaf, depth - 1, x);
    ParentCovers(t[k], ns[k], j, t[k - 1], ns[k - 1], from + q, x.key);
  }

  // Every entry of every leaf under a page is at or above the page's separator,
  // which is its key in the level above, and below its high key.
  lemma SubtreeIsBounded(t: seq<History>, ns: seq<nat>, file: map<nat, Page>, root: nat, k: nat, j: nat,
                         leaf: nat, depth: nat, x: Item)
    requires Tree(t, ns, file, root) && k < |t| && j < ns[k]
    requires Reaches(file, t[k].blks[j], leaf, depth) && leaf in file && x in file[leaf].items
    ensures k + 1 < |t| ==> j < |t[k + 1].fed| && AtMost(t[k + 1].fed[j].key, x.key)
    ensures file[t[k].blks[j]].high.Some? ==> Below(x.key, file[t[k].blks[j]].high.value)
  {
    ReadsPage(t, ns, file, root, k, j);
    hide CutsOk;
    if t[k].fed != [] {
      SubtreeFrom(t, ns, file, root, k, j, leaf, depth, x);
    }
    if k + 1 < |t| {
      assert Handed(t, ns, k);
      assert t[k + 1].fed[j] == Down(Separator(t[k], ns[k], j), t[k].blks[j]);
    }
  }

  /* ---------- neighbours ---------- */

  // A page's high key is its right sibling's separator, above all the page holds
  // and all its leaves do, and it and its sibling name each other.
  lemma HighKeyIsNextSeparator(t: seq<History>, ns: seq<nat>, file: map<nat, Page>, root: nat, k: nat, j: nat)
    requires Tree(t, ns, file, root) && k + 1 < |t| && j + 1 < ns[k]
    ensures t[k].blks[j] in file && t[k].blks[j + 1] in file && j + 1 < |t[k + 1].fed|
    ensures var p, q := file[t[k].blks[j]], file[t[k].blks[j + 1]];
            p.high == Some(t[k + 1].fed[j + 1].key) && p.right == Some(t[k].blks[j + 1]) && q.left == Some(t[k].blks[j])
    ensures forall x :: x in file[t[k].blks[j]].items ==> Below(x.key, t[k + 1].fed[j + 1].key)
    ensures forall leaf, depth: nat, x ::
              Reaches(file, t[k].blks[j], leaf, depth) && leaf in file && x in file[leaf].items ==>
              Below(x.key, t[k + 1].fed[j + 1].key)
  {
    var h, n := t[k], ns[k];
    ReadsPage(t, ns, file, root, k, j);
    ReadsPage(t, ns, file, root, k, j + 1);
    assert Handed(t, ns, k) && Closed(h, n, file, k);
    hide Tree, Closed, Handed;
    assert t[k + 1].fed[j + 1] == Down(Separator(h, n, j + 1), h.blks[j + 1]);
    assert h.cuts[j + 1] < h.cuts[n];
    BelowHighKey(h, n, file, k, j);
    forall leaf, depth: nat, x | Reaches(file, h.blks[j], leaf, depth) && leaf in file && x in file[leaf].items
      ensures Below(x.key, t[k + 1].fed[j + 1].key)
    {
      SubtreeIsBounded(t, ns, file, root, k, j, leaf, depth, x);
    }
  }

  lemma BelowHighKey(h: History, n: nat, file: map<nat, Page>, level: nat, j: nat)
    requires Closed(h, n, file, level) && j < n && h.fed != [] && h.cuts[j + 1] < |h.fed|
    ensures forall x :: x in PageAt(level, h, n, j).items ==> Below(x.key, h.fed[h.cuts[j + 1]].key)
  {
    PageItems(h, n, level, j);
    var items, from, to := PageAt(level, h, n, j).items, h.cuts[j], h.cuts[j + 1];
    assert Below(h.fed[from].key, h.fed[to].key);
    assert items[0] == h.fed[from] || items[0].key.MinusInf?;
    hide PageAt, CutsOk, PageOk;
    forall q | 0 <= q < |items|
      ensures Below(items[q].key, h.fed[to].key)
    {
      if q > 0 {
        assert items[q] == h.fed[from + q];
        assert Below(h.fed[from + q].key, h.fed[to].key);
      }
    }
  }

  // Only the first page of a level has no left sibling, and only the last no right
  // one and no high key.
  lemma EndsOfLevel(t: seq<History>, ns: seq<nat>, file: map<nat, Page>, root: nat, k: nat, j: nat)
    requires Tree(t, ns, file, root) && k < |t| && j < ns[k]
    ensures t[k].blks[j] in file
    ensures var p := file[t[k].blks[j]];
            && p.level == k && (p.left == None <==> j == 0) && (p.right == None <==> j + 1 == ns[k])
            && (p.high == None <==> j + 1 == ns[k])
  {
    ReadsPage(t, ns, file, root, k, j);
    if ns[k] > 1 {
      LevelIsFed(t, ns, file, root, k);
    }
    hide Tree, Stored;
    assert j + 1 < ns[k] ==> t[k].cuts[j + 1] < t[k].cuts[ns[k]];
  }

  /* ---------- height ---------- */

  // A level above the leaves has about half the pages of the one below.
  lemma LevelHalves(t: seq<History>, ns: seq<nat>, file: map<nat, Page>, root: nat, k: nat)
    requires Tree(t, ns, file, root) && 0 < k < |t|
    ensures 2 * ns[k] <= ns[k - 1] + 1
  {
    assert Handed(t, ns, k - 1);
    assert Closed(t[k], ns[k], file, k);
    if ns[k] > 0 {
      assert t[k].cuts[ns[k] - 1] < t[k].cuts[ns[k]];
      CutsDouble(k, t[k], ns[k], file, ns[k] - 1);
    }
  }

  lemma {:induction false} PagesBelow(t: seq<History>, ns: seq<nat>, file: map<nat, Page>, root: nat, k: nat)
    requires Tree(t, ns, file, root) && 1 <= k < |t|
    ensures ns[|t| - 1 - k] >= Pow2(k - 1) + 1
    decreases k
  {
    if k == 1 {
      assert Handed(t, ns, |t| - 2);
    } else {
      PagesBelow(t, ns, file, root, k - 1);
      LevelHalves(t, ns, file, root, |t| - k);
    }
  }

  // The blocks of a level's first n pages.
  ghost function LevelBlocks(h: History, n: nat): set<nat>
    requires n <= |h.blks|
  {
    set j | 0 <= j < n :: h.blks[j]
  }

  // A page's high key, or having none, tells it from the others of its level.
  lemma PagesDiffer(t: seq<History>, ns: seq<nat>, file: map<nat, Page>, root: nat, k: nat, i: nat, j: nat)
    requires Tree(t, ns, file, root) && k < |t| && i < j < ns[k]
    ensures j < |t[k].blks| && t[k].blks[i] != t[k].blks[j]
  {
    hide Stored;
    ReadsPage(t, ns, file, root, k, i);
    ReadsPage(t, ns, file, root, k, j);
    LevelAscends(t, ns, file, root, k);
    LevelIsFed(t, ns, file, root, k);
    hide Tree;
    var h, n := t[k], ns[k];
    assert h.cuts[i + 1] < h.cuts[n] && h.cuts[i + 1] < h.cuts[j + 1];
    if h.cuts[j + 1] < |h.fed| {
      KeyOrder(h.fed, h.cuts[i + 1], h.cuts[j + 1]);
    }
  }

  // A level of two pages or more has items.
  lemma LevelIsFed(t: seq<History>, ns: seq<nat>, file: map<nat, Page>, root: nat, k: nat)
    requires Tree(t, ns, file, root) && k < |t| && ns[k] > 1
    ensures t[k].fed != []
  {
    assert Handed(t, ns, k);
  }

  lemma {:induction false} LevelBlocksCount(t: seq<History>, ns: seq<nat>, file: map<nat, Page>, root: nat, k: nat,
                                            n: nat)
    requires Tree(t, ns, file, root) && k < |t| && n <= ns[k] <= |t[k].blks|
    ensures |LevelBlocks(t[k], n)| == n
    ensures forall b :: b in LevelBlocks(t[k], n) ==> b in file && file[b].level == k
  {
    if n > 0 {
      LevelBlocksCount(t, ns, file, root, k, n - 1);
      ReadsPage(t, ns, file, root, k, n - 1);
      forall j | 0 <= j < n - 1
        ensures t[k].blks[j] != t[k].blks[n - 1]
      {
        PagesDiffer(t, ns, file, root, k, j, n - 1);
      }
      hide Tree;
      assert LevelBlocks(t[k], n) == LevelBlocks(t[k], n - 1) + {t[k].blks[n - 1]};
    }
  }

  // The pages of the top k + 1 levels.
  lemma {:induction false} TopPages(t: seq<History>, ns: seq<nat>, file: map<nat, Page>, root: nat, k: nat)
    returns (bs: set<nat>)
    requires Tree(t, ns, file, root) && k < |t|
    ensures |bs| >= Pow2(k) + k && forall b :: b in bs ==> b in file && file[b].level >= |t| - 1 - k
  {
    var level := |t| - 1 - k;
    if k > 0 {
      PagesBelow(t, ns, file, root, k);
    }
    ReadsPage(t, ns, file, root, level, 0);
    LevelBlocksCount(t, ns, file, root, level, ns[level]);
    var here := LevelBlocks(t[level], ns[level]);
    if k == 0 {
      return here;
    }
    var above := TopPages(t, ns, file, root, k - 1);
    assert here !! above;
    assert |here + above| == |here| + |above|;
    bs := here + above;
  }

  const MAX_HEIGHT: nat := 31

  // A directory of height h >= 1 has 2^(k-1) + 1 pages at least at level h - k,
  // 2^(h-1) + 1 leaves, and 2^h + h pages in all: in a file of fewer than 2^32
  // blocks h is 31 at most.
  lemma HeightIsBounded(t: seq<History>, ns: seq<nat>, file: map<nat, Page>, root: nat)
    requires Tree(t, ns, file, root) && |t| > 1
    ensures ns[0] >= Pow2(|t| - 2) + 1
    ensures forall k :: 0 <= k < |t| - 1 ==> ns[k] >= Pow2(|t| - 2 - k) + 1
    ensures |file| >= Pow2(|t| - 1) + |t| - 1
    ensures |file| < MAX_BLOCKS ==> |t| - 1 <= MAX_HEIGHT
  {
    hide Pow2;
    forall k | 0 <= k < |t| - 1
      ensures ns[k] >= Pow2(|t| - 2 - k) + 1
    {
      PagesBelow(t, ns, file, root, |t| - 1 - k);
    }
    var bs := TopPages(t, ns, file, root, |t| - 1);
    hide Tree;
    Sets.SubsetSize(bs, file.Keys);
    assert |file.Keys| == |file|;
    BlocksOfHeight(|t| - 1);
  }

  // Blocks are numbered by 32 bits.
  lemma BlocksOfHeight(h: nat)
    ensures h > MAX_HEIGHT <==> Pow2(h) >= MAX_BLOCKS
  {
    assert Pow2(8) == 256 && Pow2(16) == 0x1_0000 && Pow2(24) == 0x100_0000;
    assert Pow2(32) == MAX_BLOCKS;
    hide Pow2;
    if h > 32 {
      Pow2Rises(32, h);
    } else if h < 32 {
      Pow2Rises(h, 32);
    }
  }
}
