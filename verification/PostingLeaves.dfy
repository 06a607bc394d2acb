/**
  A posting set on pages: its items packed into leaves, which are one chain
  when they are few, and the leaves of a tree from the seventeenth on.
*/
module PostingLeaves {
  import opened Options
  import opened Pages
  import opened PostingTree

  const FLAT_LEAVES: nat := 16

  // A container or segment: its first and last keys, and its aligned size.
  datatype Item = Item(first: nat, last: nat, size: nat)

  datatype Leaf = Leaf(items: seq<Item>, right: Option<nat>, owner: nat)

  function Used(items: seq<Item>): nat {
    if items == [] then 0 else Used(items[..|items| - 1]) + items[|items| - 1].size + LINE_POINTER
  }

  // Is the leaf final, given the next item?
  function Full(items: seq<Item>, x: Item, budget: nat): bool {
    CAPACITY - Used(items) < x.size + LINE_POINTER || (items != [] && Used(items) + x.size + LINE_POINTER > budget)
  }

  ghost predicate InOrder(s: seq<Item>) {
    (forall i :: 0 <= i < |s| ==> s[i].first <= s[i].last && s[i].size + LINE_POINTER <= CAPACITY)
    && forall i, j :: 0 <= i < j < |s| ==> s[i].last < s[j].first
  }

  // The leaves' items, one after the other.
  ghost function Flat(leaves: seq<seq<Item>>): seq<Item> {
    if leaves == [] then [] else Flat(leaves[..|leaves| - 1]) + leaves[|leaves| - 1]
  }

  ghost predicate LeavesOk(leaves: seq<seq<Item>>) {
    forall j :: 0 <= j < |leaves| ==> leaves[j] != [] && Used(leaves[j]) <= CAPACITY
  }

  ghost function LeafAt(leaves: seq<seq<Item>>, blks: seq<nat>, j: nat, owner: nat): Leaf
    requires j < |leaves|
  {
    Leaf(leaves[j], if j + 1 < |blks| then Some(blks[j + 1]) else None, owner)
  }

  // The downlinks of the first n leaves, the first good for any key.
  ghost function LinksTo(leaves: seq<seq<Item>>, blks: seq<nat>, n: nat): (r: seq<Pivot>)
    requires n <= |leaves| && n <= |blks| && LeavesOk(leaves)
    ensures |r| == n && forall j :: 0 <= j < n ==> r[j] == Pivot(if j == 0 then 0 else leaves[j][0].first, blks[j])
  {
    if n == 0 then []
    else LinksTo(leaves, blks, n - 1) + [Pivot(if n == 1 then 0 else leaves[n - 1][0].first, blks[n - 1])]
  }

  lemma FlatMore(leaves: seq<seq<Item>>, leaf: seq<Item>)
    ensures Flat(leaves + [leaf]) == Flat(leaves) + leaf
  {
    assert (leaves + [leaf])[..|leaves|] == leaves;
  }

  lemma UsedMore(items: seq<Item>, x: Item)
    ensures Used(items + [x]) == Used(items) + x.size + LINE_POINTER
  {
    assert (items + [x])[..|items|] == items;
  }

  /* ---------- the build ---------- */

  datatype Held = Held(blk: nat, leaf: Leaf)

  // What has been packed: final leaves, their blocks and the open one's, and
  // the open page.
  datatype Packed = Packed(leaves: seq<seq<Item>>, blks: seq<nat>, page: seq<Item>, stream: seq<Item>)

  ghost predicate PackedOk(p: Packed) {
    && InOrder(p.stream) && p.stream == Flat(p.leaves) + p.page && LeavesOk(p.leaves)
    && (if p.blks == [] then p.leaves == [] && p.page == [] else |p.blks| == |p.leaves| + 1 && p.page != [])
    && Used(p.page) <= CAPACITY && (forall i, j :: 0 <= i < j < |p.blks| ==> p.blks[i] < p.blks[j])
  }

  // The leaves held back, stamped with the first: up to fifteen.
  ghost predicate HeldOk(p: Packed, held: seq<Held>, head: nat) {
    && |held| == |p.leaves| < FLAT_LEAVES && (p.blks != [] ==> head == p.blks[0])
    && forall j :: 0 <= j < |held| ==> HeldAt(p, held, j, head)
  }

  ghost predicate HeldAt(p: Packed, held: seq<Held>, j: nat, head: nat)
    requires j < |held| == |p.leaves|
  {
    |p.blks| > j && held[j] == Held(p.blks[j], LeafAt(p.leaves, p.blks, j, head))
  }

  // The first n leaves written, stamped with the root.
  ghost predicate FileOk(p: Packed, n: nat, file: map<nat, Leaf>, head: nat) {
    n <= |p.leaves| && forall j :: 0 <= j < n ==> LeafOk(p, j, file, head)
  }

  ghost predicate LeafOk(p: Packed, j: nat, file: map<nat, Leaf>, head: nat)
    requires j < |p.leaves|
  {
    |p.blks| > j && p.blks[j] in file && file[p.blks[j]] == LeafAt(p.leaves, p.blks, j, head)
  }

  // The leaf is full: x starts the next one.
  ghost function NextLeaf(p: Packed, next: nat, x: Item): Packed {
    Packed(p.leaves + [p.page], p.blks + [next], [x], p.stream + [x])
  }

  lemma StreamMore(s: seq<Item>, x: Item)
    requires InOrder(s) && x.first <= x.last && x.size + LINE_POINTER <= CAPACITY
    requires s != [] ==> s[|s| - 1].last < x.first
    ensures InOrder(s + [x])
  {
    var t := s + [x];
    forall i, j | 0 <= i < j < |t|
      ensures t[i].last < t[j].first
    {
      if j == |s| && i < |s| - 1 {
        assert s[i].last < s[|s| - 1].first;
      }
    }
  }

  ghost predicate Follows(p: Packed, x: Item) {
    x.first <= x.last && x.size + LINE_POINTER <= CAPACITY &&
    (p.stream != [] ==> p.stream[|p.stream| - 1].last < x.first)
  }

  lemma LeafStarts(p: Packed, next: nat, x: Item)
    requires PackedOk(p) && Follows(p, x) && p.blks != [] && next > p.blks[|p.blks| - 1]
    ensures PackedOk(NextLeaf(p, next, x))
  {
    StreamMore(p.stream, x);
    FlatMore(p.leaves, p.page);
    assert p.stream + [x] == Flat(p.leaves + [p.page]) + [x];
    UsedMore([], x);
    assert [] + [x] == [x];
    hide Flat, Used, InOrder;
  }

  lemma ItemFits(p: Packed, x: Item, budget: nat)
    requires PackedOk(p) && Follows(p, x) && p.blks != [] && !Full(p.page, x, budget)
    ensures PackedOk(p.(page := p.page + [x], stream := p.stream + [x]))
  {
    StreamMore(p.stream, x);
    UsedMore(p.page, x);
    assert p.stream + [x] == Flat(p.leaves) + (p.page + [x]);
    hide Flat, InOrder;
  }

  lemma FirstItem(p: Packed, b: nat, x: Item)
    requires PackedOk(p) && Follows(p, x) && p.blks == []
    ensures PackedOk(Packed([], [b], [x], [x])) && p.stream == [] && p.page == [] && p.leaves == []
  {
    NothingPacked(p);
    OnePacked(x);
    hide Flat, Used;
  }

  lemma NothingPacked(p: Packed)
    requires PackedOk(p) && p.blks == []
    ensures p.stream == [] && p.page == [] && p.leaves == []
  {
    assert p.leaves == [] && p.page == [];
    assert Flat([]) == [];
  }

  lemma OnePacked(x: Item)
    requires x.first <= x.last && x.size + LINE_POINTER <= CAPACITY
    ensures InOrder([x]) && [x] == Flat([]) + [x] && Used([x]) <= CAPACITY && LeavesOk([])
  {
    StreamMore([], x);
    UsedMore([], x);
    assert [] + [x] == [x];
    assert Flat([]) == [] && Used([]) == 0;
  }

  // A leaf final, the images of those before it as they were.
  lemma LeafImage(p: Packed, next: nat, x: Item, head: nat, j: nat)
    requires PackedOk(p) && p.blks != [] && j <= |p.leaves|
    ensures var q := NextLeaf(p, next, x);
            LeafAt(q.leaves, q.blks, j, head) ==
            if j < |p.leaves| then LeafAt(p.leaves, p.blks, j, head) else Leaf(p.page, Some(next), head)
  {
    hide Flat, Used, InOrder, LeavesOk;
  }

  class SetPages {
    const budget: nat
    var nblocks: nat
    var page: seq<Item>
    var curblk: nat
    var haspage: bool
    var head: nat
    var held: seq<Held>
    var file: map<nat, Leaf>
    var hastree: bool
    var tree: TreeBuilder
    ghost var leaves: seq<seq<Item>>
    ghost var blks: seq<nat>
    ghost var stream: seq<Item>

    ghost function Now(): Packed
      reads this`leaves, this`blks, this`page, this`stream
    {
      Packed(leaves, blks, page, stream)
    }

    // The first n leaves' downlinks are given to the tree, and the leaves'
    // blocks are none of the tree's pages'.
    ghost predicate TreeOk(n: nat)
      reads this`head, this`tree, this`leaves, this`blks, tree
    {
      && Upper(tree.Now(), 0, tree.head) && 0 < |tree.levels| == |tree.hist| && tree.head == head
      && LeavesOk(leaves) && n <= |leaves| && n <= |blks| && tree.hist[0].fed == LinksTo(leaves, blks, n)
      && (n > 0 ==> tree.levels[0].items != [])
      && head in tree.owner && tree.owner[head] == 0 && head !in tree.file
      && forall j :: 0 <= j < |blks| ==> LeafBlock(tree.Now(), blks[j], head, tree.nblocks)
    }

    ghost predicate Valid()
      reads this, tree
    {
      && PackedOk(Now()) && (haspage <==> blks != []) && (haspage ==> curblk == blks[|blks| - 1])
      && (if hastree
          then held == [] && |leaves| >= FLAT_LEAVES && FileOk(Now(), |leaves|, file, head) && TreeOk(|leaves|)
          else file == map[] && HeldOk(Now(), held, head) && forall j :: 0 <= j < |blks| ==> blks[j] < nblocks)
    }

    constructor (nblocks: nat, budget: nat)
      ensures Valid() && stream == [] && fresh(tree) && this.budget == budget && leaves == [] && page == []
    {
      this.budget, this.nblocks := budget, nblocks;
      page, curblk, haspage, head, held, file, hastree := [], 0, false, 0, [], map[], false;
      leaves, blks, stream := [], [], [];
      tree := new TreeBuilder(0, {});
      new;
      assert Flat([]) + [] == [];
    }

    // The n-th leaf's downlink to the tree.
    method Link(ghost n: nat, ckey: nat, blk: nat)
      requires TreeOk(n) && n < |leaves| && n < |blks| && blk == blks[n] && ckey == leaves[n][0].first
      requires n > 0 ==> leaves[n - 1][0].first < ckey
      modifies tree
      ensures TreeOk(n + 1)
      ensures forall b :: LeafBlock(old(tree.Now()), b, head, old(tree.nblocks)) ==>
                LeafBlock(tree.Now(), b, head, tree.nblocks)
    {
      hide Upper, Keeps, LevelOk;
      ghost var before := tree.Now();
      UpperFacts(before, 0, tree.head);
      NoneGiven(tree.levels[0], tree.hist[0], 1, tree.head, tree.file);
      tree.Add(0, ckey, blk);
      KeepsFacts(before, tree.Now(), 0);
      NoFewer(before, tree.Now());
    }

    // A block for the next leaf.
    method TakeLeaf() returns (b: nat)
      requires hastree ==> TreeOk(|leaves|)
      modifies this`nblocks, tree
      ensures hastree ==> TreeOk(|leaves|) && b == old(tree.nblocks) && LeafBlock(tree.Now(), b, head, tree.nblocks)
      ensures !hastree ==> b == old(nblocks) && nblocks == b + 1 && tree.Now() == old(tree.Now())
    {
      if hastree {
        hide Upper;
        ghost var before := tree.Now();
        NotOwned(before, tree.head);
        b := tree.LeafBlock();
      } else {
        b := nblocks;
        nblocks := nblocks + 1;
      }
    }

    // One finished item onto the set's pages.
    method Spill(x: Item)
      requires Valid() && Follows(Now(), x)
      modifies this, tree
      ensures Valid() && stream == old(stream) + [x] && (tree == old(tree) || fresh(tree))
      ensures if old(page) != [] && Full(old(page), x, budget) then leaves == old(leaves) + [old(page)] && page == [x]
              else leaves == old(leaves) && page == old(page) + [x]
    {
      hide Follows, PackedOk, Full, Used, InOrder;
      PageIsOpen(Now());
      if !haspage {
        OpenSet(x);
      } else if Full(page, x, budget) {
        if !hastree && |held| + 2 <= FLAT_LEAVES {
          Hold(x);
        } else if !hastree {
          StartTree(x);
        } else {
          AddToTree(x);
        }
      } else {
        ItemFits(Now(), x, budget);
        SameImages(Now(), Now().(page := page + [x], stream := stream + [x]), |leaves|, held, file, head);
        page := page + [x];
        stream := stream + [x];
      }
    }

    // The set's first page, which heads it.
    method OpenSet(x: Item)
      requires Valid() && !haspage && Follows(Now(), x)
      modifies this, tree
      ensures Valid() && stream == old(stream) + [x] && tree == old(tree) && leaves == [] && page == [x]
    {
      hide PackedOk, Follows, Upper;
      FirstItem(Now(), nblocks, x);
      curblk := TakeLeaf();
      head, haspage := curblk, true;
      page := [x];
      blks, stream := [curblk], [x];
    }

    // The page is final, and held back: the set may stay a chain.
    method Hold(x: Item)
      requires Valid() && haspage && !hastree && |held| + 2 <= FLAT_LEAVES && Follows(Now(), x)
      modifies this, tree
      ensures Valid() && stream == old(stream) + [x] && tree == old(tree)
      ensures leaves == old(leaves) + [old(page)] && page == [x]
    {
      hide PackedOk, Follows, Upper, HeldOk, LeafAt, LeavesOk;
      ghost var p := Now();
      LastBlock(p);
      HeldCount(p, held, head);
      var next := TakeLeaf();
      LeafStarts(p, next, x);
      HoldsOn(p, next, x, held, head);
      held := held + [Held(curblk, Leaf(page, Some(next), head))];
      leaves, blks, stream := leaves + [page], blks + [next], stream + [x];
      curblk, page := next, [x];
    }

    // One leaf more than a chain may have: the root's block is reserved, and
    // the leaves held are stamped with it and written, with their downlinks.
    method StartTree(x: Item)
      requires Valid() && haspage && !hastree && |held| + 2 > FLAT_LEAVES && Follows(Now(), x)
      modifies this
      ensures Valid() && stream == old(stream) + [x] && fresh(tree)
      ensures leaves == old(leaves) + [old(page)] && page == [x]
    {
      hide PackedOk, Follows, Upper, HeldOk, FileOk, LeavesOk, TreeOk;
      ghost var p, was := Now(), head;
      LastBlock(p);
      HeldCount(p, held, was);
      var next := nblocks;
      nblocks := nblocks + 1;
      NewTree(next);
      WriteHeld(was, next);
      PutPage(x, next);
    }

    // A tree over no leaf yet.
    method NewTree(next: nat)
      requires nblocks == next + 1 && (forall j :: 0 <= j < |blks| ==> blks[j] < next) && |leaves| <= |blks|
      requires LeavesOk(leaves)
      modifies this`tree, this`head
      ensures fresh(tree) && TreeOk(0) && LeafBlock(tree.Now(), next, head, tree.nblocks) && next < head
    {
      hide Upper;
      ghost var taken := (set j | 0 <= j < |blks| :: blks[j]) + {next};
      tree := new TreeBuilder(nblocks, taken);
      head := tree.head;
    }

    method WriteHeld(ghost was: nat, ghost next: nat)
      requires PackedOk(Now()) && HeldOk(Now(), held, was) && TreeOk(0)
      requires LeafBlock(tree.Now(), next, head, tree.nblocks)
      modifies this`file, this`held, this`hastree, tree
      ensures TreeOk(|leaves|) && FileOk(Now(), |leaves|, file, head) && LeafBlock(tree.Now(), next, head, tree.nblocks)
      ensures held == [] && hastree
    {
      hide PackedOk, Upper, HeldOk, FileOk, LeavesOk, TreeOk;
      HeldCount(Now(), held, was);
      NoneWritten(Now(), file, head);
      for i := 0 to |held|
        invariant held == old(held) && TreeOk(i) && FileOk(Now(), i, file, head)
        invariant LeafBlock(tree.Now(), next, head, tree.nblocks)
      {
        HeldIs(Now(), held, was, i);
        var leaf := held[i].leaf;
        Link(i, leaf.items[0].first, held[i].blk);
        FileGrows(Now(), i, file, head, Leaf(leaf.items, leaf.right, head));
        file := file[held[i].blk := Leaf(leaf.items, leaf.right, head)];
      }
      held, hastree := [], true;
    }

    method AddToTree(x: Item)
      requires Valid() && haspage && hastree && Follows(Now(), x)
      modifies this, tree
      ensures Valid() && stream == old(stream) + [x] && tree == old(tree)
      ensures leaves == old(leaves) + [old(page)] && page == [x]
    {
      hide PackedOk, Upper, FileOk;
      LastBlock(Now());
      var next := TakeLeaf();
      PutPage(x, next);
    }

    // The page is final: its downlink to the tree, and the page written.
    method PutPage(x: Item, next: nat)
      requires PackedOk(Now()) && Follows(Now(), x) && haspage && blks != [] && curblk == blks[|blks| - 1]
      requires next > curblk
      requires hastree && held == [] && |leaves| + 1 >= FLAT_LEAVES
      requires TreeOk(|leaves|) && FileOk(Now(), |leaves|, file, head)
      requires LeafBlock(tree.Now(), next, head, tree.nblocks)
      modifies this, tree
      ensures Valid() && stream == old(stream) + [x] && tree == old(tree)
      ensures leaves == old(leaves) + [old(page)] && page == [x]
    {
      hide PackedOk, Upper, FileOk, Follows;
      ghost var p := Now();
      LeafStarts(p, next, x);
      LastBlock(p);
      NextLinks(p, next, x);
      leaves, blks, stream := leaves + [page], blks + [next], stream + [x];
      Link(|leaves| - 1, page[0].first, curblk);
      PageWrites(p, next, x, file, head);
      file := file[curblk := Leaf(page, Some(next), head)];
      curblk, page := next, [x];
    }

    // The set complete: its last page, and the tree above the leaves.
    method Finish() returns (ghost t: seq<History>, ghost ns: seq<nat>)
      requires Valid() && haspage
      modifies this, tree
      ensures stream == old(stream) && tree == old(tree) && leaves == old(leaves) + [old(page)]
      ensures SetOk(leaves, blks, stream, head, file)
      ensures hastree == old(hastree)
      ensures if hastree then |leaves| > FLAT_LEAVES && Tree(t, ns, head, tree.file) &&
              t[0].fed == LinksTo(leaves, blks, |leaves|) &&
                              forall j :: 0 <= j < |blks| ==> blks[j] !in tree.file
              else |leaves| <= FLAT_LEAVES && head == blks[0]
    {
      if hastree {
        t, ns := FinishTree();
      } else {
        FinishFlat();
        t, ns := [], [];
      }
    }

    method FinishFlat()
      requires Valid() && haspage && !hastree
      modifies this`file, this`held, this`leaves
      ensures SetOk(leaves, blks, stream, head, file) && |leaves| <= FLAT_LEAVES && head == blks[0]
      ensures leaves == old(leaves) + [page]
    {
      hide PackedOk, HeldOk, FileOk;
      ghost var p := Now();
      LastBlock(p);
      HeldCount(p, held, head);
      HeadIsFirst(p, held, head);
      NoneWritten(p, file, head);
      for i := 0 to |held|
        invariant held == old(held) && leaves == old(leaves) && FileOk(p, i, file, head)
      {
        HeldIs(p, held, head, i);
        HeldLeaf(p, held, head, i);
        FileGrows(p, i, file, head, held[i].leaf);
        file := file[held[i].blk := held[i].leaf];
      }
      held := [];
      LastWrites(p, file, head);
      file := file[curblk := Leaf(page, None, head)];
      leaves := leaves + [page];
    }

    method FinishTree() returns (ghost t: seq<History>, ghost ns: seq<nat>)
      requires Valid() && haspage && hastree
      modifies this`file, this`leaves, tree
      ensures SetOk(leaves, blks, stream, head, file) && |leaves| > FLAT_LEAVES && leaves == old(leaves) + [page]
      ensures Tree(t, ns, head, tree.file) && t[0].fed == LinksTo(leaves, blks, |leaves|)
      ensures forall j :: 0 <= j < |blks| ==> blks[j] !in tree.file
    {
      hide PackedOk, HeldOk, FileOk, Tree, Upper, OthersLeft;
      ghost var p := Now();
      LastBlock(p);
      LastLinks(p);
      LastWrites(p, file, head);
      leaves := leaves + [page];
      Link(|leaves| - 1, page[0].first, curblk);
      file := file[curblk := Leaf(page, None, head)];
      ghost var before := tree.Now();
      t, ns := CloseTree(tree);
      OthersUnwritten(before, tree.Now(), head, tree.nblocks);
    }
  }

  // A set's leaves: the items in order, each leaf within its page, linked to
  // the next, and stamped with the set's head.
  ghost predicate SetOk(leaves: seq<seq<Item>>, blks: seq<nat>, stream: seq<Item>, head: nat, file: map<nat, Leaf>) {
    && InOrder(stream) && stream == Flat(leaves) && LeavesOk(leaves) && |blks| == |leaves| > 0
    && (forall i, j :: 0 <= i < j < |blks| ==> blks[i] < blks[j])
    && forall j :: 0 <= j < |leaves| ==> blks[j] in file && file[blks[j]] == LeafAt(leaves, blks, j, head)
  }

  lemma HeadIsFirst(p: Packed, held: seq<Held>, head: nat)
    requires HeldOk(p, held, head) && p.blks != []
    ensures head == p.blks[0]
  {
  }

  lemma HeldLeaf(p: Packed, held: seq<Held>, head: nat, i: nat)
    requires HeldOk(p, held, head) && i < |held|
    ensures i < |p.leaves| && held[i].leaf == LeafAt(p.leaves, p.blks, i, head)
  {
    assert HeldAt(p, held, i, head);
  }

  // The open page written last.
  lemma LastWrites(p: Packed, file: map<nat, Leaf>, head: nat)
    requires PackedOk(p) && p.blks != [] && FileOk(p, |p.leaves|, file, head)
    ensures SetOk(p.leaves + [p.page], p.blks, p.stream, head, file[p.blks[|p.blks| - 1] := Leaf(p.page, None, head)])
  {
    FlatMore(p.leaves, p.page);
    var leaves, file2 := p.leaves + [p.page], file[p.blks[|p.blks| - 1] := Leaf(p.page, None, head)];
    forall j | 0 <= j < |leaves|
      ensures p.blks[j] in file2 && file2[p.blks[j]] == LeafAt(leaves, p.blks, j, head)
    {
      if j < |p.leaves| {
        assert LeafOk(p, j, file, head);
      }
    }
    hide Flat, InOrder, Used, LeafOk;
  }

  lemma LastLinks(p: Packed)
    requires PackedOk(p) && p.blks != []
    ensures LeavesOk(p.leaves + [p.page]) && |p.leaves| < |p.blks| && p.page != []
    ensures LinksTo(p.leaves + [p.page], p.blks, |p.leaves|) == LinksTo(p.leaves, p.blks, |p.leaves|)
    ensures |p.leaves| > 0 ==> p.leaves[|p.leaves| - 1] != [] && p.leaves[|p.leaves| - 1][0].first < p.page[0].first
  {
    LinksToSame(p.leaves, p.leaves + [p.page], p.blks, p.blks, |p.leaves|);
    FlatMore(p.leaves, p.page);
    if |p.leaves| > 0 {
      ItemsRise(p.leaves + [p.page], p.stream, |p.leaves| - 1, |p.leaves|);
    }
    hide Flat, InOrder, Used;
  }

  lemma OthersUnwritten(a: Snapshot, b: Snapshot, head: nat, nblocks: nat)
    requires OthersLeft(a, b, head)
    ensures forall x, n :: LeafBlock(a, x, head, n) ==> x !in b.file
  {
  }

  lemma HeldCount(p: Packed, held: seq<Held>, head: nat)
    requires HeldOk(p, held, head)
    ensures |held| == |p.leaves| < FLAT_LEAVES
  {
  }

  lemma NoneWritten(p: Packed, file: map<nat, Leaf>, head: nat)
    ensures FileOk(p, 0, file, head)
  {
  }

  lemma HeldIs(p: Packed, held: seq<Held>, head: nat, i: nat)
    requires PackedOk(p) && HeldOk(p, held, head) && i < |held|
    ensures i < |p.leaves| < |p.blks| && held[i].blk == p.blks[i] && held[i].leaf.items == p.leaves[i]
    ensures p.leaves[i] != []
    ensures held[i].leaf.right == Some(p.blks[i + 1])
    ensures i > 0 ==> p.leaves[i - 1][0].first < p.leaves[i][0].first
  {
    assert HeldAt(p, held, i, head);
    if i > 0 {
      LeavesRise(p, i - 1, i);
    }
    hide Flat, InOrder, Used;
  }

  lemma FileGrows(p: Packed, i: nat, file: map<nat, Leaf>, head: nat, leaf: Leaf)
    requires PackedOk(p) && FileOk(p, i, file, head) && i < |p.leaves| && leaf == LeafAt(p.leaves, p.blks, i, head)
    ensures i < |p.blks| && FileOk(p, i + 1, file[p.blks[i] := leaf], head)
  {
    var more := file[p.blks[i] := leaf];
    forall j | 0 <= j <= i
      ensures LeafOk(p, j, more, head)
    {
      assert j < i ==> LeafOk(p, j, file, head);
    }
  }

  /* ---------- items by leaf ---------- */

  ghost function Offset(leaves: seq<seq<Item>>, j: nat): nat
    requires j <= |leaves|
  {
    if j == 0 then 0 else Offset(leaves, j - 1) + |leaves[j - 1]|
  }

  lemma {:induction false} OffsetOfMore(leaves: seq<seq<Item>>, more: seq<seq<Item>>, j: nat)
    requires j <= |leaves| && j <= |more| && forall i :: 0 <= i < j ==> more[i] == leaves[i]
    ensures Offset(more, j) == Offset(leaves, j)
  {
    if j > 0 {
      OffsetOfMore(leaves, more, j - 1);
    }
  }

  lemma {:induction false} FlatAt(leaves: seq<seq<Item>>, j: nat, q: nat)
    requires j < |leaves| && q < |leaves[j]|
    ensures Offset(leaves, j) + q < |Flat(leaves)| == Offset(leaves, |leaves|)
    ensures Flat(leaves)[Offset(leaves, j) + q] == leaves[j][q]
    decreases |leaves|
  {
    var n := |leaves| - 1;
    FlatSize(leaves);
    FlatSize(leaves[..n]);
    OffsetOfMore(leaves, leaves[..n], n);
    OffsetOfMore(leaves, leaves[..n], if j < n then j else n);
    if j < n {
      FlatAt(leaves[..n], j, q);
    }
  }

  lemma {:induction false} FlatSize(leaves: seq<seq<Item>>)
    ensures |Flat(leaves)| == Offset(leaves, |leaves|)
    decreases |leaves|
  {
    if leaves != [] {
      var n := |leaves| - 1;
      FlatSize(leaves[..n]);
      OffsetOfMore(leaves, leaves[..n], n);
    }
  }

  lemma LeavesRise(p: Packed, i: nat, j: nat)
    requires PackedOk(p) && i < j < |p.leaves|
    ensures p.leaves[i] != [] && p.leaves[j] != [] && p.leaves[i][0].first < p.leaves[j][0].first
  {
    FlatAt(p.leaves, i, 0);
    FlatAt(p.leaves, j, 0);
    OffsetsRise(p.leaves, i, j);
    var a, b := Offset(p.leaves, i), Offset(p.leaves, j);
    assert p.stream[a] == p.leaves[i][0] && p.stream[b] == p.leaves[j][0];
    hide Offset, Flat;
    assert p.stream[a].last < p.stream[b].first && p.stream[a].first <= p.stream[a].last;
  }

  lemma ItemsRise(leaves: seq<seq<Item>>, stream: seq<Item>, i: nat, j: nat)
    requires InOrder(stream) && stream == Flat(leaves) && i < j < |leaves|
    requires forall k :: 0 <= k < |leaves| ==> leaves[k] != []
    ensures leaves[i][0].first < leaves[j][0].first
    ensures forall q :: 0 <= q < |leaves[i]| ==> leaves[i][q].last < leaves[j][0].first
  {
    OffsetsRise(leaves, i, j);
    forall q | 0 <= q < |leaves[i]|
      ensures leaves[i][q].last < leaves[j][0].first && leaves[i][q].first <= leaves[i][q].last
    {
      FlatAt(leaves, i, q);
      FlatAt(leaves, j, 0);
      hide Offset, Flat;
      var a, b := Offset(leaves, i) + q, Offset(leaves, j);
      assert stream[a] == leaves[i][q] && stream[b] == leaves[j][0] && a < b;
    }
  }

  lemma {:induction false} OffsetsRise(leaves: seq<seq<Item>>, i: nat, j: nat)
    requires i < j <= |leaves| && forall k :: 0 <= k < |leaves| ==> leaves[k] != []
    ensures Offset(leaves, i) + |leaves[i]| <= Offset(leaves, j)
    decreases j
  {
    if i < j - 1 {
      OffsetsRise(leaves, i, j - 1);
    }
  }

  lemma LinksToSame(a: seq<seq<Item>>, b: seq<seq<Item>>, x: seq<nat>, y: seq<nat>, n: nat)
    requires LeavesOk(a) && LeavesOk(b) && n <= |a| && n <= |b| && n <= |x| && n <= |y|
    requires forall i :: 0 <= i < n ==> a[i] == b[i] && x[i] == y[i]
    ensures LinksTo(a, x, n) == LinksTo(b, y, n)
  {
    assert |LinksTo(a, x, n)| == |LinksTo(b, y, n)|;
  }

  // The tree's leaves so far are those of the set with one more.
  lemma NextLinks(p: Packed, next: nat, x: Item)
    requires PackedOk(p) && p.blks != [] && PackedOk(NextLeaf(p, next, x))
    ensures var q := NextLeaf(p, next, x);
            && LeavesOk(q.leaves) && |p.leaves| + 1 == |q.leaves| && |p.leaves| < |p.blks| && p.page != []
            && LinksTo(q.leaves, q.blks, |p.leaves|) == LinksTo(p.leaves, p.blks, |p.leaves|)
            && (|p.leaves| > 0 ==> q.leaves[|p.leaves| - 1][0].first < p.page[0].first)
  {
    var q := NextLeaf(p, next, x);
    if |p.leaves| > 0 {
      LeavesRise(q, |p.leaves| - 1, |p.leaves|);
    }
    LinksToSame(p.leaves, q.leaves, p.blks, q.blks, |p.leaves|);
    hide Flat, InOrder, Used;
  }

  lemma PageWrites(p: Packed, next: nat, x: Item, file: map<nat, Leaf>, head: nat)
    requires PackedOk(p) && p.blks != [] && PackedOk(NextLeaf(p, next, x)) && FileOk(p, |p.leaves|, file, head)
    ensures FileOk(NextLeaf(p, next, x), |p.leaves| + 1, file[p.blks[|p.blks| - 1] := Leaf(p.page, Some(next), head)],
                   head)
  {
    var q, b := NextLeaf(p, next, x), p.blks[|p.blks| - 1];
    forall j | 0 <= j < |p.leaves|
      ensures LeafOk(q, j, file, head)
    {
      assert LeafOk(p, j, file, head);
      LeafImage(p, next, x, head, j);
    }
    LeafImage(p, next, x, head, |p.leaves|);
    FileGrows(q, |p.leaves|, file, head, Leaf(p.page, Some(next), head));
    hide PackedOk, LeafAt;
  }

  lemma LastBlock(p: Packed)
    requires PackedOk(p)
    ensures LeavesOk(p.leaves)
    ensures p.blks != [] ==> |p.blks| == |p.leaves| + 1
    ensures p.blks != [] ==> forall j :: 0 <= j < |p.blks| ==> p.blks[j] <= p.blks[|p.blks| - 1]
  {
  }

  // The images of the final leaves do not depend on the open page.
  lemma SameImages(p: Packed, q: Packed, n: nat, held: seq<Held>, file: map<nat, Leaf>, head: nat)
    requires q.leaves == p.leaves && q.blks == p.blks
    ensures HeldOk(p, held, head) ==> HeldOk(q, held, head)
    ensures FileOk(p, n, file, head) ==> FileOk(q, n, file, head)
  {
    if HeldOk(p, held, head) {
      forall j | 0 <= j < |held|
        ensures HeldAt(q, held, j, head)
      {
        assert HeldAt(p, held, j, head);
      }
    }
    if FileOk(p, n, file, head) {
      forall j | 0 <= j < n
        ensures LeafOk(q, j, file, head)
      {
        assert LeafOk(p, j, file, head);
      }
    }
  }

  lemma HoldsOn(p: Packed, next: nat, x: Item, held: seq<Held>, head: nat)
    requires PackedOk(p) && p.blks != [] && HeldOk(p, held, head) && |held| + 1 < FLAT_LEAVES
    ensures HeldOk(NextLeaf(p, next, x), held + [Held(p.blks[|p.blks| - 1], Leaf(p.page, Some(next), head))], head)
  {
    var q, more := NextLeaf(p, next, x), held + [Held(p.blks[|p.blks| - 1], Leaf(p.page, Some(next), head))];
    LastBlock(p);
    forall j | 0 <= j < |more|
      ensures HeldAt(q, more, j, head)
    {
      LeafImage(p, next, x, head, j);
      assert j < |held| ==> HeldAt(p, held, j, head);
    }
    hide PackedOk, LeafAt;
  }

  lemma NoFewer(a: Snapshot, b: Snapshot)
    requires Keeps(a, b, 0)
    ensures a.nblocks <= b.nblocks
  {
  }

  lemma NotOwned(s: Snapshot, head: nat)
    requires Upper(s, 0, head)
    ensures forall b :: b in s.owner ==> b < s.nblocks
    ensures forall b :: b in s.file ==> b in s.owner
  {
  }

  ghost predicate LeafBlock(s: Snapshot, b: nat, head: nat, nblocks: nat) {
    b in s.owner && s.owner[b] == 0 && b != head && b !in s.file && b < nblocks
  }

  lemma NoneGiven(lv: Level, h: History, level: nat, owner: nat, file: map<nat, Node>)
    requires LevelOk(lv, h, level, owner, file, 0)
    ensures h.fed == [] ==> lv.npages == 0
  {
  }

  lemma PageIsOpen(p: Packed)
    requires PackedOk(p)
    ensures if p.blks == [] then p.page == [] && p.leaves == [] else p.page != []
  {
  }

  /* ---------- no leaf is written early ---------- */

  ghost function Sizes(items: seq<Item>): nat {
    if items == [] then 0 else items[0].size + Sizes(items[1..])
  }

  lemma {:induction false} SizesOfMore(items: seq<Item>, x: Item)
    ensures Sizes(items + [x]) == Sizes(items) + x.size
  {
    if items == [] {
      assert items + [x] == [x];
    } else {
      assert (items + [x])[1..] == items[1..] + [x];
      SizesOfMore(items[1..], x);
    }
  }

  lemma {:induction false} UsedIsSizes(items: seq<Item>)
    ensures Used(items) == Sizes(items) + 4 * |items|
  {
    if items != [] {
      var n := |items| - 1;
      UsedIsSizes(items[..n]);
      SizesOfMore(items[..n], items[n]);
      assert items == items[..n] + [items[n]];
    }
  }

  // The leaf with the item, and a line pointer for each, is over a page or over
  // the budget.
  ghost predicate NoRoomFor(leaf: seq<Item>, x: Item, budget: nat) {
    var bytes := Sizes(leaf) + x.size + 4 * (|leaf| + 1);
    bytes > 8136 || bytes > budget
  }

  lemma FullIsNoRoom(leaf: seq<Item>, x: Item, budget: nat)
    requires leaf != []
    ensures Full(leaf, x, budget) <==> NoRoomFor(leaf, x, budget)
  {
    UsedIsSizes(leaf);
  }

  // Each leaf but the last has no room for the first item of the next.
  ghost predicate NotEarly(leaves: seq<seq<Item>>, budget: nat) {
    forall j :: 0 <= j < |leaves| - 1 && leaves[j] != [] && leaves[j + 1] != [] ==>
      NoRoomFor(leaves[j], leaves[j + 1][0], budget)
  }

  // Nor is one filled past the budget, but by its first item.
  ghost predicate NotOver(leaves: seq<seq<Item>>, budget: nat) {
    forall leaf :: leaf in leaves && |leaf| > 1 ==> Sizes(leaf) + 4 * |leaf| <= budget
  }

  lemma StillNotOver(leaves: seq<seq<Item>>, page: seq<Item>, x: Item, budget: nat)
    requires NotOver(leaves + [page], budget)
    ensures page == [] || !Full(page, x, budget) ==> NotOver(leaves + [page + [x]], budget)
    ensures NotOver(leaves + [page] + [[x]], budget)
  {
    SizesOfMore(page, x);
    UsedIsSizes(page);
    hide Sizes, Used;
    assert forall leaf :: leaf in leaves ==> leaf in leaves + [page];
  }

  lemma StillNotEarly(leaves: seq<seq<Item>>, page: seq<Item>, x: Item, budget: nat)
    requires NotEarly(leaves + [page], budget)
    requires page == [] ==> leaves == []
    ensures NotEarly(leaves + [page + [x]], budget)
    ensures page != [] && Full(page, x, budget) ==> NotEarly(leaves + [page] + [[x]], budget)
  {
    hide NoRoomFor, Full, Sizes;
    if page != [] {
      FullIsNoRoom(page, x, budget);
    }
    var was, more := leaves + [page], leaves + [page + [x]];
    forall j | 0 <= j < |more| - 1 && more[j] != [] && more[j + 1] != []
      ensures NoRoomFor(more[j], more[j + 1][0], budget)
    {
      assert was[j] == more[j] && was[j + 1][0] == more[j + 1][0];
    }
  }

  // The pages of any items in key order.
  method BuildSet(items: seq<Item>, nblocks: nat, budget: nat)
    returns (s: SetPages, ghost t: seq<History>, ghost ns: seq<nat>)
    requires items != [] && InOrder(items)
    ensures SetOk(s.leaves, s.blks, items, s.head, s.file)
    ensures if s.hastree then |s.leaves| > FLAT_LEAVES && Tree(t, ns, s.head, s.tree.file) &&
                              t[0].fed == LinksTo(s.leaves, s.blks, |s.leaves|) &&
                              forall j :: 0 <= j < |s.blks| ==> s.blks[j] !in s.tree.file
            else |s.leaves| <= FLAT_LEAVES && s.head == s.blks[0]
    ensures NotEarly(s.leaves, budget) && NotOver(s.leaves, budget)
  {
    hide PackedOk, HeldOk, FileOk, Upper, Tree, SetOk, InOrder, NotEarly, NotOver;
    s := SpillAll(items, nblocks, budget);
    HasPage(s.Now());
    t, ns := s.Finish();
  }

  method SpillAll(items: seq<Item>, nblocks: nat, budget: nat) returns (s: SetPages)
    requires InOrder(items)
    ensures fresh(s) && fresh(s.tree) && s.Valid() && s.stream == items
    ensures NotEarly(s.leaves + [s.page], budget) && NotOver(s.leaves + [s.page], budget)
  {
    hide PackedOk, HeldOk, FileOk, Upper, InOrder, LeavesOk, Full, NoRoomFor, Sizes;
    s := new SetPages(nblocks, budget);
    for i := 0 to |items|
      invariant fresh(s) && fresh(s.tree) && s.Valid() && s.stream == items[..i]
      invariant s.budget == budget && NotEarly(s.leaves + [s.page], budget) && NotOver(s.leaves + [s.page], budget)
    {
      NextFollows(items, i, s.Now());
      PageIsOpen(s.Now());
      StillNotEarly(s.leaves, s.page, items[i], budget);
      StillNotOver(s.leaves, s.page, items[i], budget);
      assert items[..i + 1] == items[..i] + [items[i]];
      s.Spill(items[i]);
    }
    assert items[..|items|] == items;
  }

  lemma NextFollows(items: seq<Item>, i: nat, p: Packed)
    requires InOrder(items) && i < |items| && p.stream == items[..i]
    ensures Follows(p, items[i])
  {
  }

  lemma HasPage(p: Packed)
    requires PackedOk(p) && p.stream != []
    ensures p.blks != []
  {
    if p.blks == [] {
      NothingPacked(p);
    }
  }

  /* ---------- what a set's leaves are ---------- */

  // The items of the leaves from b on, by their right links.
  ghost function Along(file: map<nat, Leaf>, b: Option<nat>, fuel: nat): seq<Item>
    decreases fuel
  {
    if fuel == 0 || b.None? || b.value !in file then []
    else file[b.value].items + Along(file, file[b.value].right, fuel - 1)
  }

  lemma LeafIs(leaves: seq<seq<Item>>, blks: seq<nat>, stream: seq<Item>, head: nat, file: map<nat, Leaf>, j: nat)
    requires SetOk(leaves, blks, stream, head, file) && j < |leaves|
    ensures |blks| == |leaves| && stream == Flat(leaves) && forall k :: 0 <= k < |leaves| ==> leaves[k] != []
    ensures blks[j] in file && file[blks[j]].items == leaves[j]
    ensures file[blks[j]].right == if j + 1 < |leaves| then Some(blks[j + 1]) else None
  {
    hide Flat, InOrder;
  }

  lemma {:induction false} AlongFrom(leaves: seq<seq<Item>>, blks: seq<nat>, stream: seq<Item>, head: nat,
                                     file: map<nat, Leaf>, j: nat)
    requires SetOk(leaves, blks, stream, head, file) && j < |leaves|
    ensures Offset(leaves, j) <= |stream|
    ensures |blks| == |leaves| && Along(file, Some(blks[j]), |leaves| - j) == stream[Offset(leaves, j)..]
    decreases |leaves| - j
  {
    hide SetOk, Flat, Offset;
    LeafIs(leaves, blks, stream, head, file, j);
    LeafSlice(leaves, stream, j);
    var a, b := Offset(leaves, j), Offset(leaves, j + 1);
    assert stream[a..] == stream[a..b] + stream[b..];
    if j + 1 < |leaves| {
      AlongFrom(leaves, blks, stream, head, file, j + 1);
    }
  }

  lemma LeafSlice(leaves: seq<seq<Item>>, stream: seq<Item>, j: nat)
    requires stream == Flat(leaves) && j < |leaves| && forall k :: 0 <= k < |leaves| ==> leaves[k] != []
    ensures Offset(leaves, j) <= Offset(leaves, j + 1) <= |stream|
    ensures j + 1 == |leaves| ==> Offset(leaves, j + 1) == |stream|
    ensures stream[Offset(leaves, j)..Offset(leaves, j + 1)] == leaves[j]
  {
    FlatSize(leaves);
    if j + 1 < |leaves| {
      OffsetsRise(leaves, j + 1, |leaves|);
    }
    var a := Offset(leaves, j);
    assert Offset(leaves, j + 1) == a + |leaves[j]|;
    forall q | 0 <= q < |leaves[j]|
      ensures stream[a + q] == leaves[j][q]
    {
      FlatAt(leaves, j, q);
    }
    hide Flat, Offset;
  }

  // The leaves in order hold the items, each once, in order.
  lemma LeavesSpellItems(leaves: seq<seq<Item>>, blks: seq<nat>, stream: seq<Item>, head: nat, file: map<nat, Leaf>)
    requires SetOk(leaves, blks, stream, head, file)
    ensures Along(file, Some(blks[0]), |leaves|) == stream
  {
    AlongFrom(leaves, blks, stream, head, file, 0);
    assert stream[0..] == stream;
  }

  // A descent for any key an item covers ends at the item's leaf.
  lemma DescentFindsItem(leaves: seq<seq<Item>>, blks: seq<nat>, stream: seq<Item>, head: nat, file: map<nat, Leaf>,
                         t: seq<History>, ns: seq<nat>, nodes: map<nat, Node>, j: nat, q: nat, key: nat)
    requires SetOk(leaves, blks, stream, head, file) && Tree(t, ns, head, nodes)
    requires t[0].fed == LinksTo(leaves, blks, |leaves|)
    requires j < |leaves| && q < |leaves[j]| && leaves[j][q].first <= key <= leaves[j][q].last
    ensures Descend(nodes, head, key) == Some(blks[j])
    ensures blks[j] in file && leaves[j][q] in file[blks[j]].items
  {
    var l := DescentFindsLeaf(t, ns, head, nodes, key);
    hide Tree, Flat, InOrder, Descend;
    StartsBelow(leaves, blks, stream, head, file, j, q);
    if l < j {
      LinkRises(leaves, blks, stream, head, file, l + 1, j);
    } else if j < l {
      ItemsRise(leaves, stream, j, l);
    }
  }

  lemma StartsBelow(leaves: seq<seq<Item>>, blks: seq<nat>, stream: seq<Item>, head: nat, file: map<nat, Leaf>, j: nat,
                    q: nat)
    requires SetOk(leaves, blks, stream, head, file) && j < |leaves| && q < |leaves[j]|
    ensures leaves[j][0].first <= leaves[j][q].first
  {
    FlatAt(leaves, j, 0);
    FlatAt(leaves, j, q);
    hide Flat, Offset;
    var a := Offset(leaves, j);
    assert stream[a] == leaves[j][0] && stream[a + q] == leaves[j][q];
  }

  lemma LinkRises(leaves: seq<seq<Item>>, blks: seq<nat>, stream: seq<Item>, head: nat, file: map<nat, Leaf>, i: nat,
                  j: nat)
    requires SetOk(leaves, blks, stream, head, file) && 0 < i <= j < |leaves|
    ensures leaves[i] != [] && leaves[i][0].first <= leaves[j][0].first
  {
    if i < j {
      ItemsRise(leaves, stream, i, j);
    }
  }

  // Every item of every leaf under a page of the tree starts at or above the
  // page's first key, and ends below its high key.
  lemma SubtreeIsBounded(leaves: seq<seq<Item>>, blks: seq<nat>, stream: seq<Item>, head: nat, file: map<nat, Leaf>,
                         t: seq<History>, ns: seq<nat>, nodes: map<nat, Node>, k: nat, j: nat,
                         leaf: nat, depth: nat, x: Item)
    requires SetOk(leaves, blks, stream, head, file) && Tree(t, ns, head, nodes)
    requires t[0].fed == LinksTo(leaves, blks, |leaves|)
    requires k < |t| && j < ns[k] && j < |t[k].blks| && Reaches(nodes, t[k].blks[j], leaf, depth)
    ensures t[k].blks[j] in nodes && nodes[t[k].blks[j]].downs != [] && leaf in file
    ensures x in file[leaf].items ==>
              var p := nodes[t[k].blks[j]];
              p.downs[0].ckey <= x.first && (p.high.Some? ==> x.last < p.high.value)
  {
    NodeFills(t, ns, head, nodes, k, j);
    var l := SubtreeFrom(t, ns, head, nodes, k, j, leaf, depth);
    var p := nodes[t[k].blks[j]];
    if x in file[leaf].items {
      var q :| 0 <= q < |leaves[l]| && leaves[l][q] == x;
      StartsBelow(leaves, blks, stream, head, file, l, q);
      if p.high.Some? {
        var m := KeyOfLeaf(t, ns, head, nodes, k, Start(j + 1));
        ItemsRise(leaves, stream, l, m);
      }
    }
    hide Tree, Flat, InOrder, Reaches;
  }

  lemma {:induction false} BlocksAreMany(blks: seq<nat>, i: nat)
    requires i < |blks| && forall i, j :: 0 <= i < j < |blks| ==> blks[i] < blks[j]
    ensures blks[i] >= i
  {
    if i > 0 {
      BlocksAreMany(blks, i - 1);
    }
  }

  // A set in a file of fewer than 2^32 blocks has a tree of four levels at most.
  lemma HeightIsBounded(leaves: seq<seq<Item>>, blks: seq<nat>, stream: seq<Item>, head: nat, file: map<nat, Leaf>,
                        t: seq<History>, ns: seq<nat>, nodes: map<nat, Node>)
    requires SetOk(leaves, blks, stream, head, file) && Tree(t, ns, head, nodes)
    requires t[0].fed == LinksTo(leaves, blks, |leaves|)
    requires forall j :: 0 <= j < |blks| ==> blks[j] < MAX_BLOCKS
    ensures |t| <= 4 < MAX_HEIGHT
  {
    BlocksAreMany(blks, |blks| - 1);
    PostingTree.HeightIsBounded(t, ns, head, nodes);
    hide Tree, Flat, InOrder;
  }
}
