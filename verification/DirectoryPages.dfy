/**
  The directory's pages as the bottom-up build packs them: keys, items, what
  they cost, and what a level of pages is. Sizes are those of 8 kB pages.
*/
module DirectoryPages {
  import opened Options
  import opened Pages

  const MAX_KEY_SIZE: nat := 2047
  const SHORT_HEADER: nat := 12
  const MAX_ENTRY_SIZE: nat := 6056
  const MIN_DOWNLINKS: nat := 3

  // Keys are ordered by rank, above minus infinity, which has no bytes.
  datatype Key = MinusInf | Key(rank: nat, len: nat, aligned: bool)

  predicate Below(a: Key, b: Key) { b.Key? && (a.MinusInf? || a.rank < b.rank) }

  predicate AtMost(a: Key, b: Key) { !Below(b, a) }

  datatype Item = Entry(key: Key, size: nat) | Down(key: Key, child: nat)

  datatype Page = Page(level: nat, left: Option<nat>, right: Option<nat>, high: Option<Key>, items: seq<Item>)

  // The least multiple of 8 that is no less than n.
  function MaxAlign(n: nat): (m: nat)
    ensures m % 8 == 0 && n <= m < n + 8
  {
    (n + 7) / 8 * 8
  }

  // The size of a high key or downlink with this key.
  function PivotSize(k: Key): nat {
    match k
    case MinusInf => SHORT_HEADER
    case Key(_, len, aligned) => (if aligned then 16 else SHORT_HEADER) + len
  }

  function SizeOf(x: Item): nat { if x.Entry? then x.size else PivotSize(x.key) }

  function PivotNeed(k: Key): nat { MaxAlign(PivotSize(k)) + LINE_POINTER }

  // What an item costs on a page, line pointer in.
  function Need(x: Item): nat { MaxAlign(SizeOf(x)) + LINE_POINTER }

  const MINUS_INF_NEED: nat := MaxAlign(SHORT_HEADER) + LINE_POINTER

  predicate KeyOk(k: Key) { k.Key? ==> k.len <= MAX_KEY_SIZE }

  // An item of a level: an entry, which its key is part of and which leaves
  // room for a high key, or a downlink.
  predicate ItemOk(level: nat, x: Item) {
    && KeyOk(x.key)
    && if level == 0 then x.Entry? && x.key.Key? && PivotSize(x.key) <= x.size <= MAX_ENTRY_SIZE else x.Down?
  }

  lemma NeedIsBounded(level: nat, x: Item)
    requires ItemOk(level, x)
    ensures PivotNeed(x.key) <= 2068 && PivotNeed(x.key) <= Need(x)
    ensures if level == 0 then Need(x) + 2068 <= CAPACITY else Need(x) <= 2068
  {
  }

  // The cost of the first n items.
  function Total(items: seq<Item>, n: nat): nat
    requires n <= |items|
  {
    if n == 0 then 0 else Total(items, n - 1) + Need(items[n - 1])
  }

  // Of a page's items as it stores them: an internal page's first downlink is
  // minus infinity.
  function Stored(level: nat, items: seq<Item>): seq<Item> {
    if level > 0 && items != [] then items[0 := Down(MinusInf, Child(items[0]))] else items
  }

  function Child(x: Item): nat { if x.Down? then x.child else 0 }

  // What a page of the first n items costs, of `used` bytes at their own sizes.
  function LevelUsed(level: nat, items: seq<Item>, used: nat, n: nat): int
    requires n <= |items|
  {
    if level == 0 || n == 0 then used else used - Need(items[0]) + MINUS_INF_NEED
  }

  function HighNeed(high: Option<Key>): nat { if high.Some? then PivotNeed(high.value) else 0 }

  ghost predicate Fits(p: Page) { Total(p.items, |p.items|) + HighNeed(p.high) <= CAPACITY }

  lemma {:induction false} SameTotal(a: seq<Item>, b: seq<Item>, n: nat)
    requires n <= |a| && n <= |b| && forall i :: 0 <= i < n ==> a[i] == b[i]
    ensures Total(a, n) == Total(b, n)
  {
    if n > 0 {
      SameTotal(a, b, n - 1);
    }
  }

  // The first item's own size is in the count.
  lemma {:induction false} TotalFromFirst(a: seq<Item>, b: seq<Item>, n: nat)
    requires 0 < n <= |a| && n <= |b| && forall i :: 1 <= i < n ==> a[i] == b[i]
    ensures Total(a, n) - Need(a[0]) == Total(b, n) - Need(b[0])
  {
    if n > 1 {
      TotalFromFirst(a, b, n - 1);
    }
  }

  lemma StoredCost(level: nat, items: seq<Item>, n: nat)
    requires n <= |items| && forall x :: x in items ==> ItemOk(level, x)
    ensures Total(Stored(level, items[..n]), n) == LevelUsed(level, items, Total(items, n), n)
  {
    SameTotal(items, items[..n], n);
    if level > 0 && n > 0 {
      TotalFromFirst(items[..n], Stored(level, items[..n]), n);
    }
  }

  /* ---------- a page's bytes ---------- */

  // The bytes of an item: an entry's own, or a pivot's header and its key, which
  // is at a multiple of 8 when it is aligned.
  ghost function Bytes(x: Item): nat { if x.Entry? then x.size else KeyBytes(x.key) }

  ghost function KeyBytes(k: Key): nat { if k.MinusInf? then 12 else if k.aligned then 16 + k.len else 12 + k.len }

  // Items one after the other from byte 0, item i from starts[i], each at the
  // first multiple of 8 past the one before it; the high key is the last.
  ghost predicate LaidOut(p: Page, starts: seq<nat>) {
    var n := |p.items|;
    && |starts| == n + (if p.high.Some? then 2 else 1) && starts[0] == 0
    && (forall i :: 0 <= i < |starts| ==> starts[i] % 8 == 0)
    && (forall i :: 0 <= i < n ==> 0 <= starts[i + 1] - starts[i] - Bytes(p.items[i]) < 8)
    && (p.high.Some? ==> 0 <= starts[n + 1] - starts[n] - KeyBytes(p.high.value) < 8)
  }

  // A page that fits has room for its items so laid out, and a line pointer for
  // each.
  lemma FitsLaidOut(p: Page) returns (starts: seq<nat>)
    requires Fits(p)
    ensures LaidOut(p, starts) && starts[|starts| - 1] + 4 * (|starts| - 1) <= 8136
  {
    BytesAreSizes(p);
    hide MaxAlign, PivotSize, SizeOf, Bytes, KeyBytes, Total, StartsOf;
    var n := |p.items|;
    starts := StartsOf(p.items, n);
    if p.high.Some? {
      starts := starts + [starts[n] + MaxAlign(PivotSize(p.high.value))];
    }
  }

  lemma BytesAreSizes(p: Page)
    ensures forall i :: 0 <= i < |p.items| ==> Bytes(p.items[i]) == SizeOf(p.items[i])
    ensures p.high.Some? ==> KeyBytes(p.high.value) == PivotSize(p.high.value)
  {
  }

  ghost function StartsOf(items: seq<Item>, n: nat): (starts: seq<nat>)
    requires n <= |items|
    ensures |starts| == n + 1 && starts[0] == 0 && (forall i :: 0 <= i <= n ==> starts[i] % 8 == 0)
    ensures starts[n] + 4 * n == Total(items, n)
    ensures forall i :: 0 <= i < n ==> starts[i] + SizeOf(items[i]) <= starts[i + 1] < starts[i] + SizeOf(items[i]) + 8
  {
    if n == 0 then [0]
    else
      var before := StartsOf(items, n - 1);
      before + [before[n - 1] + MaxAlign(SizeOf(items[n - 1]))]
  }

  /* ---------- a level ---------- */

  // What a level has been given, where its pages were cut, and their blocks.
  datatype History = History(fed: seq<Item>, cuts: seq<nat>, blks: seq<nat>)

  ghost predicate Ascending(fed: seq<Item>) {
    forall i, j :: 0 <= i < j < |fed| ==> Below(fed[i].key, fed[j].key)
  }

  ghost predicate CutsOk(h: History, n: nat) {
    && |h.cuts| == n + 1 && h.cuts[0] == 0 && n <= |h.blks|
    && (forall j :: 0 <= j <= n ==> h.cuts[j] <= |h.fed|)
    && (forall i, j :: 0 <= i < j <= n ==> h.cuts[i] <= h.cuts[j] && (h.fed != [] ==> h.cuts[i] < h.cuts[j]))
    && (forall j :: 1 <= j <= n && h.cuts[j] < |h.fed| ==> j < |h.blks|)
  }

  // Page j, as it is written: its right sibling's first key is its high key.
  ghost function PageAt(level: nat, h: History, n: nat, j: nat): Page
    requires CutsOk(h, n) && j < n
  {
    var last := h.cuts[j + 1] == |h.fed|;
    Page(level,
         if j > 0 then Some(h.blks[j - 1]) else None,
         if last then None else Some(h.blks[j + 1]),
         if last then None else Some(h.fed[h.cuts[j + 1]].key),
         Stored(level, h.fed[h.cuts[j]..h.cuts[j + 1]]))
  }

  // The first n pages are in the file, none over its capacity, and an internal
  // one that is not the last has two downlinks at least.
  ghost predicate PagesOk(level: nat, h: History, n: nat, file: map<nat, Page>) {
    && CutsOk(h, n) && Ascending(h.fed) && (forall x :: x in h.fed ==> ItemOk(level, x))
    && forall j :: 0 <= j < n ==> PageOk(level, h, n, file, j)
  }

  ghost predicate PageOk(level: nat, h: History, n: nat, file: map<nat, Page>, j: nat)
    requires CutsOk(h, n) && j < n
  {
    && h.blks[j] in file && file[h.blks[j]] == PageAt(level, h, n, j) && Fits(PageAt(level, h, n, j))
    && (level > 0 && h.cuts[j + 1] < |h.fed| ==> h.cuts[j + 1] - h.cuts[j] >= 2)
  }

  // The separator of page j: minus infinity for the first.
  ghost function Separator(h: History, n: nat, j: nat): Key
    requires CutsOk(h, n) && j < n && h.fed != []
  {
    assert h.cuts[j] < h.cuts[n];
    if j == 0 then MinusInf else h.fed[h.cuts[j]].key
  }

  // The level above is given a downlink for each page.
  ghost predicate FedBy(up: History, h: History, n: nat) {
    && CutsOk(h, n) && h.fed != [] && |up.fed| == n
    && forall j :: 0 <= j < n ==> up.fed[j] == Down(Separator(h, n, j), h.blks[j])
  }
}
