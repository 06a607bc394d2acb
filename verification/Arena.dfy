/**
  The arena over a mapped file: size classes, free lists, and regions kept by
  address.
*/
module Arena {
  import opened Naturals
  import opened Options

  const ALIGN: nat := 16
  const SMALL_MAX: nat := 4112
  const NCLASSES: nat := 29
  const ALLOC_MAX: nat := 0x8000_0000
  const GRAIN: nat := 0x10_0000
  const REGION_MAX: nat := 0x400_0000

  /* ---------- size classes ---------- */

  // The least k with 2^k >= n.
  function CeilLog2(n: nat): (k: nat)
    ensures n <= Pow2(k) && (n > 1 ==> k > 0 && Pow2(k - 1) < n)
  {
    if n <= 1 then 0
    else
      var k := CeilLog2((n + 1) / 2);
      assert (n + 1) / 2 > 1 ==> Pow2(k) == 2 * Pow2(k - 1);
      k + 1
  }

  predicate Aligned(n: nat) { n % ALIGN == 0 }

  lemma AlignedSum(a: nat, b: nat)
    requires Aligned(a) && Aligned(b)
    ensures Aligned(a + b)
  {
  }

  function Class(size: nat): int {
    if size <= 16 then 0
    else if size <= 4096 then CeilLog2(size) - 4
    else if size <= SMALL_MAX then 9
    else CeilLog2(size) - 4 + 1
  }

  function ClassSize(c: nat): nat {
    if c <= 8 then 16 * Pow2(c) else if c == 9 then SMALL_MAX else 16 * Pow2(c - 1)
  }

  lemma Pow2At()
    ensures Pow2(4) == 16 && Pow2(12) == 4096 && Pow2(13) == 8192
    ensures Pow2(31) == ALLOC_MAX
  {
    assert Pow2(8) == 256 && Pow2(12) == 4096;
    assert Pow2(20) == 0x10_0000 && Pow2(24) == 0x100_0000;
    assert Pow2(28) == 0x1000_0000;
  }

  lemma Pow2Between(k: nat, i: nat, j: nat, n: nat)
    requires n <= Pow2(k) && (n > 1 ==> k > 0 && Pow2(k - 1) < n) && Pow2(i) < n <= Pow2(j)
    ensures i < k <= j
  {
    if k <= i && k < i {
      Pow2Rises(k, i);
    }
    if j < k && j < k - 1 {
      Pow2Rises(j, k - 1);
    }
  }

  lemma {:induction false} SixteenTimes(k: nat)
    requires k >= 4
    ensures 16 * Pow2(k - 4) == Pow2(k)
  {
    if k == 4 {
      Pow2At();
    } else {
      SixteenTimes(k - 1);
    }
  }

  lemma ClassSizesRise(i: nat, j: nat)
    requires i < j
    ensures ClassSize(i) < ClassSize(j)
  {
    Pow2At();
    SixteenTimes(12);
    SixteenTimes(13);
    if j <= 8 {
      Pow2Rises(i, j);
    } else if i <= 8 {
      if i < 8 {
        Pow2Rises(i, 8);
      }
      if j > 10 {
        Pow2Rises(9, j - 1);
      }
    } else if i == 9 {
      if j > 10 {
        Pow2Rises(9, j - 1);
      }
    } else {
      Pow2Rises(i - 1, j - 1);
    }
  }

  // There is a class for every size up to the largest, and no more.
  lemma ClassesAreEnough()
    ensures Class(ALLOC_MAX) == NCLASSES - 1 && Class(0) == 0 && GRAIN % 4096 == 0
  {
    hide Pow2, CeilLog2;
    Pow2At();
    var k := LargeExponent(ALLOC_MAX);
    if k < 31 {
      Pow2Rises(k, 31);
    }
  }

  // The class of a size is the smallest that holds it, and wastes less than
  // half of it.
  lemma ClassIsLeast(size: nat)
    requires size <= ALLOC_MAX
    ensures 0 <= Class(size) < NCLASSES && size <= ClassSize(Class(size))
    ensures size > 8 ==> ClassSize(Class(size)) < 2 * size
    ensures forall c :: 0 <= c < Class(size) ==> ClassSize(c) < size
    ensures Aligned(ClassSize(Class(size)))
  {
    Pow2At();
    if size <= 16 {
      assert ClassSize(0) == 16;
    } else if size <= 4096 {
      SmallClass(size);
      ClassSizesBelow(Class(size), size);
    } else if size <= SMALL_MAX {
      SixteenTimes(12);
      ClassSizesBelow(9, size);
    } else {
      LargeClass(size);
      ClassSizesBelow(Class(size), size);
    }
  }

  // A size whose class is a power of two, below and above the class between.
  ghost predicate ClassFits(size: nat) {
    && 0 < Class(size) < NCLASSES && size <= ClassSize(Class(size)) < 2 * size && Aligned(ClassSize(Class(size)))
    && ClassSize(Class(size) - 1) < size
  }

  lemma PowerSizes(k: nat)
    requires k >= 4
    ensures k <= 12 ==> ClassSize(k - 4) == Pow2(k)
    ensures k >= 13 ==> ClassSize(k - 3) == Pow2(k)
    ensures Aligned(Pow2(k)) && Pow2(k + 1) == 2 * Pow2(k)
  {
    SixteenTimes(k);
    hide Pow2;
    assert ClassSize(9) == SMALL_MAX;
  }

  lemma FitsBy(size: nat, cls: nat, k: nat)
    requires k > 4 && Pow2(k - 1) < size <= Pow2(k) && Class(size) == cls && 0 < cls < NCLASSES
    requires ClassSize(cls) == Pow2(k) && ClassSize(cls - 1) < size
    ensures ClassFits(size)
  {
    PowerSizes(k);
    PowerSizes(k - 1);
    hide Pow2, ClassSize, Class, Aligned;
  }

  lemma SmallExponent(size: nat) returns (k: nat)
    requires 16 < size <= 4096
    ensures 5 <= k <= 12 && Pow2(k - 1) < size <= Pow2(k) && Class(size) == k - 4
  {
    k := CeilLog2(size);
    Pow2At();
    hide Pow2;
    Pow2Between(k, 4, 12, size);
  }

  lemma SmallClass(size: nat)
    requires 16 < size <= 4096
    ensures ClassFits(size)
  {
    hide Class, ClassSize, Aligned, Pow2, ClassFits;
    var k := SmallExponent(size);
    PowerSizes(k);
    PowerSizes(k - 1);
    FitsBy(size, k - 4, k);
  }

  lemma LargeExponent(size: nat) returns (k: nat)
    requires SMALL_MAX < size <= ALLOC_MAX
    ensures 13 <= k <= 31 && Pow2(k - 1) < size <= Pow2(k) && Class(size) == k - 3
  {
    k := CeilLog2(size);
    Pow2At();
    hide Pow2;
    Pow2Between(k, 12, 31, size);
  }

  lemma LargeClass(size: nat)
    requires SMALL_MAX < size <= ALLOC_MAX
    ensures ClassFits(size)
  {
    hide Class, ClassSize, Aligned, Pow2, ClassFits;
    var k := LargeExponent(size);
    PowerSizes(k);
    BelowLarge(k, size);
    FitsBy(size, k - 3, k);
  }

  lemma BelowLarge(k: nat, size: nat)
    requires k >= 13 && Pow2(k - 1) < size && SMALL_MAX < size
    ensures ClassSize(k - 4) < size
  {
    PowerSizes(k - 1);
    assert ClassSize(9) == SMALL_MAX;
  }

  lemma ClassSizesBelow(cls: nat, size: nat)
    requires cls > 0 && ClassSize(cls - 1) < size
    ensures forall c :: 0 <= c < cls ==> ClassSize(c) < size
  {
    forall c | 0 <= c < cls
      ensures ClassSize(c) < size
    {
      if c < cls - 1 {
        ClassSizesRise(c, cls - 1);
      }
    }
  }

  /* ---------- regions ---------- */

  datatype Region = Region(base: nat, size: nat, fileoff: nat, used: nat) {
    function End(): nat { base + size }
  }

  // By address, and apart.
  ghost predicate Sorted(rs: seq<Region>) {
    && (forall i :: 0 <= i < |rs| ==> rs[i].base > 0 && Aligned(rs[i].base) && rs[i].size > 0)
    && (forall i :: 0 <= i < |rs| ==> rs[i].used <= rs[i].size && Aligned(rs[i].used))
    && (forall i, j :: 0 <= i < j < |rs| ==> rs[i].End() <= rs[j].base)
  }

  // The file's bytes, each mapped by one region.
  ghost predicate Tiles(rs: seq<Region>, filesize: nat) {
    && (forall i :: 0 <= i < |rs| ==> rs[i].fileoff + rs[i].size <= filesize)
    && (forall i, j :: 0 <= i < j < |rs| ==>
          rs[i].fileoff + rs[i].size <= rs[j].fileoff || rs[j].fileoff + rs[j].size <= rs[i].fileoff)
    && (forall x: nat :: x < filesize ==> Mapped(rs, x))
  }

  ghost predicate Mapped(rs: seq<Region>, x: nat) {
    exists i :: 0 <= i < |rs| && rs[i].fileoff <= x < rs[i].fileoff + rs[i].size
  }

  // n bytes at p are among those a region has handed out.
  ghost predicate Inside(rs: seq<Region>, p: nat, n: nat) {
    exists i :: 0 <= i < |rs| && InRegion(rs[i], p, n)
  }

  ghost predicate InRegion(r: Region, p: nat, n: nat) { r.base <= p && p + n <= r.base + r.used }

  ghost predicate Apart(p: nat, n: nat, q: nat, m: nat) { p + n <= q || q + m <= p }

  // p's block was carved, of class c.
  ghost predicate BlocksOk(rs: seq<Region>, blocks: map<nat, nat>) {
    && (forall p :: p in blocks ==> blocks[p] < NCLASSES && p > 0 && Aligned(p) && Inside(rs, p, ClassSize(blocks[p])))
    && (forall p, q :: p in blocks && q in blocks && p != q ==> Apart(p, ClassSize(blocks[p]), q, ClassSize(blocks[q])))
  }

  ghost predicate FreeOk(freelist: seq<seq<nat>>, blocks: map<nat, nat>, live: set<nat>) {
    && |freelist| == NCLASSES && live <= blocks.Keys && (forall p :: p in blocks ==> blocks[p] < NCLASSES)
    // a class's list: dead blocks of the class, each once
    && (forall c, i :: 0 <= c < NCLASSES && 0 <= i < |freelist[c]| ==>
          freelist[c][i] in blocks && blocks[freelist[c][i]] == c && freelist[c][i] !in live)
    && (forall c, i, j :: 0 <= c < NCLASSES && 0 <= i < j < |freelist[c]| ==> freelist[c][i] != freelist[c][j])
    && (forall p :: p in blocks && p !in live ==> p in freelist[blocks[p]])
  }

  // A region in by its address.
  function Inserted(rs: seq<Region>, i: nat, r: Region): seq<Region>
    requires i <= |rs|
  {
    rs[..i] + [r] + rs[i..]
  }

  lemma InsertedAt(rs: seq<Region>, i: nat, r: Region)
    requires i <= |rs|
    ensures var s := Inserted(rs, i, r);
            && |s| == |rs| + 1 && s[i] == r && (forall k :: 0 <= k < i ==> s[k] == rs[k])
            && (forall k :: i <= k < |rs| ==> s[k + 1] == rs[k]) && forall k :: i < k < |s| ==> s[k] == rs[k - 1]
  {
  }

  // Region r goes in at i, by its address.
  ghost predicate Placed(rs: seq<Region>, i: nat, r: Region) {
    && i <= |rs| && r.base > 0 && Aligned(r.base) && r.size > 0 && r.used == 0
    && (i > 0 ==> rs[i - 1].base <= r.base) && (i < |rs| ==> rs[i].base > r.base)
    && forall k :: 0 <= k < |rs| ==> Apart(rs[k].base, rs[k].size, r.base, r.size)
  }

  // Each region before the place ends before it, each after starts after it.
  lemma PlacedBetween(rs: seq<Region>, i: nat, r: Region)
    requires Sorted(rs) && Placed(rs, i, r)
    ensures forall k :: 0 <= k < i ==> rs[k].End() <= r.base
    ensures forall k :: i <= k < |rs| ==> r.End() <= rs[k].base
  {
    forall k | 0 <= k < i
      ensures rs[k].End() <= r.base
    {
      assert k < i - 1 ==> rs[k].End() <= rs[i - 1].base;
    }
    forall k | i <= k < |rs|
      ensures r.End() <= rs[k].base
    {
      assert i < k ==> rs[i].End() <= rs[k].base;
    }
  }

  lemma InsertSorted(rs: seq<Region>, i: nat, r: Region)
    requires Sorted(rs) && Placed(rs, i, r)
    ensures Sorted(Inserted(rs, i, r))
  {
    InsertedApart(rs, i, r);
    InsertedAt(rs, i, r);
    assert Aligned(0);
    hide Inserted, Aligned, Apart;
    var s := Inserted(rs, i, r);
    forall a | 0 <= a < |s|
      ensures s[a].base > 0 && Aligned(s[a].base) && s[a].size > 0 && s[a].used <= s[a].size && Aligned(s[a].used)
    {
      assert s[a] == if a < i then rs[a] else if a == i then r else rs[a - 1];
    }
  }

  lemma InsertedApart(rs: seq<Region>, i: nat, r: Region)
    requires Sorted(rs) && Placed(rs, i, r)
    ensures var s := Inserted(rs, i, r); forall a, b :: 0 <= a < b < |s| ==> s[a].End() <= s[b].base
  {
    PlacedBetween(rs, i, r);
    InsertedAt(rs, i, r);
    hide Inserted, Aligned, Placed;
    var s := Inserted(rs, i, r);
    forall a, b | 0 <= a < b < |s|
      ensures s[a].End() <= s[b].base
    {
      assert s[a] == if a < i then rs[a] else if a == i then r else rs[a - 1];
      assert s[b] == if b < i then rs[b] else if b == i then r else rs[b - 1];
    }
  }

  lemma IsPlaced(rs: seq<Region>, i: nat, r: Region)
    requires i <= |rs| && r.base > 0 && Aligned(r.base) && r.size > 0 && r.used == 0
    requires (i > 0 ==> rs[i - 1].base <= r.base) && (i < |rs| ==> rs[i].base > r.base)
    requires forall k :: 0 <= k < |rs| ==> Apart(rs[k].base, rs[k].size, r.base, r.size)
    ensures Placed(rs, i, r)
  {
  }

  lemma InsertTiles(rs: seq<Region>, i: nat, r: Region, filesize: nat)
    requires Tiles(rs, filesize) && i <= |rs| && r.fileoff == filesize
    ensures Tiles(Inserted(rs, i, r), filesize + r.size)
  {
    forall x: nat | x < filesize + r.size
      ensures Mapped(Inserted(rs, i, r), x)
    {
      InsertMaps(rs, i, r, filesize, x);
    }
    InsertedAt(rs, i, r);
    hide Inserted, Mapped;
    var s := Inserted(rs, i, r);
    forall a | 0 <= a < |s|
      ensures s[a].fileoff + s[a].size <= filesize + r.size
    {
      assert s[a] == if a < i then rs[a] else if a == i then r else rs[a - 1];
    }
    forall a, b | 0 <= a < b < |s|
      ensures s[a].fileoff + s[a].size <= s[b].fileoff || s[b].fileoff + s[b].size <= s[a].fileoff
    {
      assert s[a] == if a < i then rs[a] else if a == i then r else rs[a - 1];
      assert s[b] == if b < i then rs[b] else if b == i then r else rs[b - 1];
    }
  }

  lemma InsertMaps(rs: seq<Region>, i: nat, r: Region, filesize: nat, x: nat)
    requires Tiles(rs, filesize) && i <= |rs| && r.fileoff == filesize && x < filesize + r.size
    ensures Mapped(Inserted(rs, i, r), x)
  {
    hide Inserted;
    var s := Inserted(rs, i, r);
    InsertedAt(rs, i, r);
    if x < filesize {
      assert Mapped(rs, x);
      var k :| 0 <= k < |rs| && rs[k].fileoff <= x < rs[k].fileoff + rs[k].size;
      assert s[if k < i then k else k + 1] == rs[k];
    } else {
      assert s[i] == r;
    }
  }

  lemma InsertInside(rs: seq<Region>, i: nat, r: Region, p: nat, n: nat)
    requires i <= |rs| && Inside(rs, p, n)
    ensures Inside(Inserted(rs, i, r), p, n)
  {
    InsertedAt(rs, i, r);
    var k :| 0 <= k < |rs| && InRegion(rs[k], p, n);
    assert Inserted(rs, i, r)[if k < i then k else k + 1] == rs[k];
  }

  lemma InsertBlocks(rs: seq<Region>, i: nat, r: Region, blocks: map<nat, nat>)
    requires i <= |rs| && BlocksOk(rs, blocks)
    ensures BlocksOk(Inserted(rs, i, r), blocks)
  {
    hide ClassSize, Aligned, Inside, Inserted;
    forall p | p in blocks
      ensures Inside(Inserted(rs, i, r), p, ClassSize(blocks[p]))
    {
      InsertInside(rs, i, r, p, ClassSize(blocks[p]));
    }
  }

  lemma CarvedTiles(rs: seq<Region>, filesize: nat, i: nat, n: nat)
    requires Tiles(rs, filesize) && i < |rs|
    ensures Tiles(rs[i := rs[i].(used := rs[i].used + n)], filesize)
  {
    var rs2 := rs[i := rs[i].(used := rs[i].used + n)];
    forall x: nat | x < filesize
      ensures Mapped(rs2, x)
    {
      assert Mapped(rs, x);
      var k :| 0 <= k < |rs| && rs[k].fileoff <= x < rs[k].fileoff + rs[k].size;
      assert rs2[k].fileoff <= x < rs2[k].fileoff + rs2[k].size;
    }
  }

  // A block at the tail of region i is apart from every block before it.
  lemma Carved(rs: seq<Region>, blocks: map<nat, nat>, i: nat, c: nat)
    requires Sorted(rs) && BlocksOk(rs, blocks) && i < |rs| && c < NCLASSES
    requires rs[i].used + ClassSize(c) <= rs[i].size && Aligned(ClassSize(c)) && ClassSize(c) > 0
    ensures var p := rs[i].base + rs[i].used;
            var rs2 := rs[i := rs[i].(used := rs[i].used + ClassSize(c))];
            p !in blocks && Sorted(rs2) && BlocksOk(rs2, blocks[p := c])
  {
    hide ClassSize, Aligned, Inside;
    var p := rs[i].base + rs[i].used;
    var rs2 := rs[i := rs[i].(used := rs[i].used + ClassSize(c))];
    AlignedSum(rs[i].base, rs[i].used);
    AlignedSum(rs[i].used, ClassSize(c));
    forall q | q in blocks
      ensures Apart(q, ClassSize(blocks[q]), p, ClassSize(c)) && Inside(rs2, q, ClassSize(blocks[q])) && q != p
    {
      ClassSizesPositive(blocks[q]);
      TailIsApart(rs, i, ClassSize(c), q, ClassSize(blocks[q]));
    }
    TailIsInside(rs, i, ClassSize(c));
  }

  lemma TailIsInside(rs: seq<Region>, i: nat, n: nat)
    requires i < |rs|
    ensures Inside(rs[i := rs[i].(used := rs[i].used + n)], rs[i].base + rs[i].used, n)
  {
    var rs2 := rs[i := rs[i].(used := rs[i].used + n)];
    assert InRegion(rs2[i], rs[i].base + rs[i].used, n);
  }

  lemma TailIsApart(rs: seq<Region>, i: nat, n: nat, q: nat, m: nat)
    requires Sorted(rs) && i < |rs| && rs[i].used + n <= rs[i].size && n > 0 && m > 0 && Inside(rs, q, m)
    ensures Apart(q, m, rs[i].base + rs[i].used, n) && q != rs[i].base + rs[i].used
    ensures Inside(rs[i := rs[i].(used := rs[i].used + n)], q, m)
  {
    var rs2 := rs[i := rs[i].(used := rs[i].used + n)];
    var k :| 0 <= k < |rs| && InRegion(rs[k], q, m);
    assert InRegion(rs2[k], q, m);
    if k < i {
      assert rs[k].End() <= rs[i].base;
    } else if i < k {
      assert rs[i].End() <= rs[k].base;
    }
  }

  // A region is mapped once and never moves: it only hands out more.
  ghost predicate Stays(r: Region, s: Region) {
    s.base == r.base && s.size == r.size && s.fileoff == r.fileoff && r.used <= s.used
  }

  // Every region of a is still in b, where it was.
  ghost predicate RegionsStay(a: seq<Region>, b: seq<Region>) {
    forall k :: 0 <= k < |a| ==> StaysIn(a[k], b)
  }

  ghost predicate StaysIn(r: Region, rs: seq<Region>) { exists m :: 0 <= m < |rs| && Stays(r, rs[m]) }

  lemma SameStay(a: seq<Region>)
    ensures RegionsStay(a, a)
  {
    forall k | 0 <= k < |a|
      ensures StaysIn(a[k], a)
    {
      assert Stays(a[k], a[k]);
    }
  }

  lemma InsertedStay(rs: seq<Region>, i: nat, r: Region)
    requires i <= |rs|
    ensures RegionsStay(rs, Inserted(rs, i, r))
  {
    InsertedAt(rs, i, r);
    forall k | 0 <= k < |rs|
      ensures StaysIn(rs[k], Inserted(rs, i, r))
    {
      assert Stays(rs[k], Inserted(rs, i, r)[if k < i then k else k + 1]);
    }
  }

  // Of b's regions one has handed out more.
  lemma MoreStay(a: seq<Region>, b: seq<Region>, i: nat, n: nat)
    requires RegionsStay(a, b) && i < |b|
    ensures RegionsStay(a, b[i := b[i].(used := b[i].used + n)])
  {
    var c := b[i := b[i].(used := b[i].used + n)];
    forall k | 0 <= k < |a|
      ensures StaysIn(a[k], c)
    {
      assert StaysIn(a[k], b);
      var m :| 0 <= m < |b| && Stays(a[k], b[m]);
      assert Stays(a[k], c[m]);
    }
  }

  // Room for a block at the region's tail.
  predicate HasRoom(rs: seq<Region>, i: int, bsize: nat) { 0 <= i < |rs| && rs[i].used + bsize <= rs[i].size }

  // Whole grains.
  function RoundUp(n: nat): (r: nat)
    ensures r % GRAIN == 0 && n <= r < n + GRAIN
  {
    (n + GRAIN - 1) / GRAIN * GRAIN
  }

  class FileArena {
    const maxRegions: nat
    var regions: seq<Region>
    var cur: int
    var filesize: nat
    var nextsize: nat
    var freelist: seq<seq<nat>>   // each class's, last in first
    ghost var blocks: map<nat, nat>   // blocks carved since the last reset, with their classes
    ghost var live: set<nat>

    ghost predicate Valid()
      reads this
    {
      && Sorted(regions) && Tiles(regions, filesize) && |regions| <= maxRegions
      && BlocksOk(regions, blocks) && FreeOk(freelist, blocks, live)
      && -1 <= cur < |regions| && nextsize > 0
    }

    constructor (maxRegions: nat)
      ensures Valid() && live == {} && regions == []
    {
      this.maxRegions := maxRegions;
      regions, cur, filesize, nextsize := [], -1, 0, GRAIN;
      freelist := seq(NCLASSES, _ => []);
      blocks, live := map[], {};
    }

    // The region p is in, or -1.
    method RegionOf(p: nat) returns (i: int)
      requires Valid()
      ensures -1 <= i < |regions|
      ensures i >= 0 ==> regions[i].base <= p < regions[i].End()
      ensures i < 0 ==> forall k :: 0 <= k < |regions| ==> !(regions[k].base <= p < regions[k].End())
    {
      var lo, hi := 0, |regions| - 1;
      while lo <= hi
        invariant 0 <= lo <= hi + 1 <= |regions|
        invariant forall k :: 0 <= k < lo ==> regions[k].End() <= p
        invariant forall k :: hi < k < |regions| ==> p < regions[k].base
      {
        var mid := lo + (hi - lo) / 2;
        var r := regions[mid];
        if p < r.base {
          hi := mid - 1;
        } else if p >= r.End() {
          lo := mid + 1;
        } else {
          return mid;
        }
      }
      return -1;
    }

    method Contains(p: nat) returns (r: bool)
      requires Valid()
      ensures r <==> exists k :: 0 <= k < |regions| && regions[k].base <= p < regions[k].End()
    {
      var i := RegionOf(p);
      return i >= 0;
    }

    // A new region of at least `need` bytes, in by its address. extended says
    // whether the file could be extended, and mapped where it was mapped, if
    // it was: apart from every region.
    method AddRegion(need: nat, extended: bool, mapped: Option<nat>) returns (i: int)
      requires Valid() && need > 0
      requires mapped.Some? ==> MapsApart(mapped.value, need)
      modifies this`regions, this`filesize, this`nextsize
      ensures Valid0() && -1 <= i < |regions|
      ensures i < 0 <==> |old(regions)| >= maxRegions || !extended || mapped.None?
      ensures i < 0 ==> regions == old(regions) && filesize == old(filesize) && nextsize == old(nextsize)
      ensures i >= 0 ==> i <= |old(regions)| && mapped.Some? && regions == Inserted(old(regions), i, regions[i])
      ensures i >= 0 ==>
                && regions[i] == Region(mapped.value, RoundUp(Max(old(nextsize), need)), old(filesize), 0)
                && need <= regions[i].size && regions[i].size % GRAIN == 0
                && filesize == old(filesize) + regions[i].size && nextsize == Min(filesize, REGION_MAX)
    {
      hide ClassSize, Aligned, Inside, RoundUp, Inserted, Tiles, BlocksOk, FreeOk, Sorted, Placed;
      if |regions| >= maxRegions || !extended || mapped.None? {
        return -1;
      }
      var base := mapped.value;
      var size := RoundUp(Max(nextsize, need));
      RoundsUp(Max(nextsize, need));
      i := |regions|;
      while i > 0 && regions[i - 1].base > base
        invariant 0 <= i <= |regions| && (i < |regions| ==> regions[i].base > base)
      {
        i := i - 1;
      }
      var r := Region(base, size, filesize, 0);
      IsPlaced(regions, i, r);
      InsertSorted(regions, i, r);
      InsertTiles(regions, i, r, filesize);
      InsertBlocks(regions, i, r, blocks);
      InsertedAt(regions, i, r);
      regions := Inserted(regions, i, r);
      filesize := filesize + size;
      nextsize := Min(filesize, REGION_MAX);
    }

    // Valid, but for the current region, whose place may have moved.
    ghost predicate Valid0()
      reads this
    {
      && Sorted(regions) && Tiles(regions, filesize) && |regions| <= maxRegions
      && BlocksOk(regions, blocks) && FreeOk(freelist, blocks, live) && cur < |regions| && -1 <= cur && nextsize > 0
    }

    // Where the system may map a region of what a need asks for.
    ghost predicate MapsApart(base: nat, need: nat)
      reads this
    {
      base > 0 && Aligned(base) &&
      forall k :: 0 <= k < |regions| ==> Apart(regions[k].base, regions[k].size, base, RoundUp(Max(nextsize, need)))
    }

    // A block of the class of size: one given back, else of the current
    // region's tail, else of any region's with room, else of a new one's.
    method Alloc(size: nat, extended: bool, mapped: Option<nat>) returns (p: Option<nat>)
      requires Valid()
      requires mapped.Some? && size <= ALLOC_MAX ==> MapsApart(mapped.value, ClassSize(ToNat(Class(size))))
      modifies this
      ensures Valid()
      ensures p.None? ==>
                live == old(live) && blocks == old(blocks) && regions == old(regions) && freelist == old(freelist)
      ensures RegionsStay(old(regions), regions) && filesize >= old(filesize)
      ensures p.Some? ==>
                var cls := ToNat(Class(size));
                if |old(freelist)| > cls && old(freelist)[cls] != []
                then p.value == old(freelist)[cls][0] && freelist == old(freelist)[cls := old(freelist)[cls][1..]] &&
                     regions == old(regions)
                else freelist == old(freelist) && p.value !in old(blocks) &&
                     HasTail(regions, cur, p.value, ClassSize(cls)) &&
                     (HasRoom(old(regions), old(cur), ClassSize(cls)) ==> cur == old(cur))
      ensures p.Some? ==>
                && p.value !in old(live) && live == old(live) + {p.value} && Aligned(p.value)
                && p.value in blocks && blocks[p.value] == Class(size) && ClassSize(blocks[p.value]) >= size
                && forall q :: q in old(live) ==> Apart(q, ClassSize(blocks[q]), p.value, ClassSize(blocks[p.value]))
      ensures forall q :: q in old(blocks) ==> q in blocks && blocks[q] == old(blocks)[q]
      ensures size > ALLOC_MAX ==> p.None?
      ensures size <= ALLOC_MAX ==>
                (p.None? <==> Exhausted(old(freelist), old(regions), size) &&
                              (|old(regions)| >= maxRegions || !extended || mapped.None?))
    {
      hide ClassSize, Class, Aligned, Sorted, Tiles, BlocksOk, FreeOk, MapsApart, RegionsStay, HasTail, HasRoom, NoRoom;
      SameStay(regions);
      if size > ALLOC_MAX {
        return None;
      }
      ClassIsLeast(size);
      FreeHasClasses(freelist, blocks, live);
      var cls := ToNat(Class(size));
      if freelist[cls] != [] {
        var b := TakeFree(cls);
        BlocksApart(regions, blocks, b);
        return Some(b);
      }
      var bsize := ClassSize(cls);
      ClassSizesPositive(cls);
      var found := FindRoom(bsize, extended, mapped);
      if !found {
        return None;
      }
      ghost var was := regions;
      var b := Carve(cls);
      MoreStay(old(regions), was, cur, bsize);
      BlocksApart(regions, blocks, b);
      return Some(b);
    }

    // The current region while it has room, else the first that has, else a
    // new one; false when that cannot be had.
    method FindRoom(bsize: nat, extended: bool, mapped: Option<nat>) returns (ok: bool)
      requires Valid() && bsize > 0
      requires mapped.Some? ==> MapsApart(mapped.value, bsize)
      modifies this`regions, this`filesize, this`nextsize, this`cur
      ensures Valid() && RegionsStay(old(regions), regions) && filesize >= old(filesize)
      ensures ok <==> HasRoom(regions, cur, bsize)
      ensures !ok <==> NoRoom(old(regions), bsize) && (|old(regions)| >= maxRegions || !extended || mapped.None?)
      ensures !ok ==> regions == old(regions)
      ensures HasRoom(old(regions), old(cur), bsize) ==> regions == old(regions) && cur == old(cur)
      ensures !HasRoom(old(regions), old(cur), bsize) && !NoRoom(old(regions), bsize) ==>
                regions == old(regions) && NoRoom(regions[..cur], bsize)
      ensures ok && NoRoom(old(regions), bsize) ==>
                0 <= cur <= |old(regions)| && regions == Inserted(old(regions), cur, regions[cur]) &&
                regions[cur].used == 0
    {
      hide Aligned, Sorted, Tiles, BlocksOk, FreeOk, MapsApart, RegionsStay, Inserted, RoundUp;
      SameStay(regions);
      if HasRoom(regions, cur, bsize) {
        return true;
      }
      var i: int := FirstFit(bsize);
      if i == |regions| {
        ghost var was := regions;
        i := AddRegion(bsize, extended, mapped);
        if i < 0 {
          return false;
        }
        InsertedStay(was, i, regions[i]);
      }
      cur := i;
      ok := true;
    }

    // The first region with room, or their number.
    method FirstFit(bsize: nat) returns (i: nat)
      ensures i <= |regions| && NoRoom(regions[..i], bsize) && (i == |regions| ==> NoRoom(regions, bsize))
      ensures i < |regions| ==> regions[i].used + bsize <= regions[i].size
    {
      i := 0;
      while i < |regions| && regions[i].used + bsize > regions[i].size
        invariant i <= |regions| && NoRoom(regions[..i], bsize)
      {
        i := i + 1;
      }
    }

    // The block given back last.
    method TakeFree(cls: nat) returns (p: nat)
      requires Valid() && cls < NCLASSES && freelist[cls] != []
      modifies this`freelist, this`live
      ensures Valid() && p in blocks && blocks[p] == cls && p !in old(live) && live == old(live) + {p}
      ensures p == old(freelist)[cls][0] && freelist == old(freelist)[cls := old(freelist)[cls][1..]]
    {
      hide ClassSize, Aligned, Sorted, Tiles, BlocksOk;
      p := freelist[cls][0];
      freelist := freelist[cls := freelist[cls][1..]];
      live := live + {p};
      assert old(freelist)[cls] == [p] + freelist[cls];
    }

    method Carve(cls: nat) returns (p: nat)
      requires Valid() && cls < NCLASSES && HasRoom(regions, cur, ClassSize(cls))
      requires Aligned(ClassSize(cls))
      modifies this`regions, this`blocks, this`live
      ensures Valid() && p !in old(blocks) && blocks == old(blocks)[p := cls] && live == old(live) + {p}
      ensures 0 <= cur < |old(regions)| && HasTail(regions, cur, p, ClassSize(cls))
      ensures regions == old(regions)[cur := old(regions)[cur].(used := old(regions)[cur].used + ClassSize(cls))]
    {
      hide ClassSize, Aligned, Inside, Sorted, BlocksOk;
      ClassSizesPositive(cls);
      CarvedTiles(regions, filesize, cur, ClassSize(cls));
      Carved(regions, blocks, cur, cls);
      p := regions[cur].base + regions[cur].used;
      regions := regions[cur := regions[cur].(used := regions[cur].used + ClassSize(cls))];
      blocks := blocks[p := cls];
      live := live + {p};
    }

    // A block given back.
    method Free(p: nat, size: nat)
      requires Valid() && p in live && size <= ALLOC_MAX && blocks[p] == Class(size)
      modifies this`freelist, this`live
      ensures Valid() && live == old(live) - {p} && blocks == old(blocks)
      ensures var cls := ToNat(Class(size)); freelist == old(freelist)[cls := [p] + old(freelist)[cls]]
    {
      hide ClassSize, Class, Aligned, Sorted, Tiles, BlocksOk;
      ClassIsLeast(size);
      var cls := ToNat(Class(size));
      freelist := freelist[cls := [p] + freelist[cls]];
      live := live - {p};
    }

    // Every block given back, the regions kept.
    method Reset()
      requires Valid()
      modifies this
      ensures Valid() && live == {} && blocks == map[] && filesize == old(filesize) && |regions| == |old(regions)|
      ensures forall i :: 0 <= i < |regions| ==> regions[i] == old(regions)[i].(used := 0)
    {
      hide Tiles, BlocksOk, FreeOk, Aligned;
      for i := 0 to |regions|
        invariant |regions| == |old(regions)| && filesize == old(filesize) && nextsize == old(nextsize)
        invariant forall k :: 0 <= k < |regions| ==>
                    regions[k] == if k < i then old(regions)[k].(used := 0) else old(regions)[k]
      {
        regions := regions[i := regions[i].(used := 0)];
      }
      freelist := seq(NCLASSES, _ => []);
      cur := if |regions| > 0 then 0 else -1;
      blocks, live := map[], {};
      NoBlocks(regions, freelist);
      ResetTiles(old(regions), regions, filesize);
    }
  }

  lemma NoBlocks(rs: seq<Region>, freelist: seq<seq<nat>>)
    requires |freelist| == NCLASSES && forall c :: 0 <= c < NCLASSES ==> freelist[c] == []
    ensures BlocksOk(rs, map[]) && FreeOk(freelist, map[], {}) && Aligned(0)
  {
  }

  lemma ResetTiles(a: seq<Region>, b: seq<Region>, filesize: nat)
    requires Tiles(a, filesize) && |a| == |b| && forall i :: 0 <= i < |a| ==> b[i] == a[i].(used := 0)
    ensures Tiles(b, filesize)
  {
    forall x: nat | x < filesize
      ensures Mapped(b, x)
    {
      assert Mapped(a, x);
      var k :| 0 <= k < |a| && a[k].fileoff <= x < a[k].fileoff + a[k].size;
      assert b[k].fileoff <= x < b[k].fileoff + b[k].size;
    }
  }

  lemma ClassSizesPositive(c: nat)
    ensures ClassSize(c) > 0
  {
  }

  // No block of the class given back, and no region with room for one.
  ghost predicate Exhausted(freelist: seq<seq<nat>>, rs: seq<Region>, size: nat) {
    |freelist| == NCLASSES && Class(size) >= 0 && Class(size) < NCLASSES &&
    freelist[Class(size)] == [] && NoRoom(rs, ClassSize(Class(size)))
  }

  lemma FreeHasClasses(freelist: seq<seq<nat>>, blocks: map<nat, nat>, live: set<nat>)
    requires FreeOk(freelist, blocks, live)
    ensures |freelist| == NCLASSES && live <= blocks.Keys
  {
  }

  lemma BlocksApart(rs: seq<Region>, blocks: map<nat, nat>, p: nat)
    requires BlocksOk(rs, blocks) && p in blocks
    ensures Aligned(p) && forall q :: q in blocks && q != p ==> Apart(q, ClassSize(blocks[q]), p, ClassSize(blocks[p]))
  {
    hide ClassSize, Aligned, Inside;
  }

  ghost predicate NoRoom(rs: seq<Region>, bsize: nat) { forall i :: 0 <= i < |rs| ==> rs[i].used + bsize > rs[i].size }

  // The n bytes at p are the last that region i has handed out.
  ghost predicate HasTail(rs: seq<Region>, i: int, p: nat, n: nat) {
    0 <= i < |rs| && p + n == rs[i].base + rs[i].used && n <= rs[i].used
  }

  function ToNat(x: int): nat { if x < 0 then 0 else x }

  lemma RoundsUp(n: nat)
    requires n > 0
    ensures RoundUp(n) >= n && RoundUp(n) % GRAIN == 0 && RoundUp(n) > 0
  {
  }
}
