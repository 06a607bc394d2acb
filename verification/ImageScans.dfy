/**
  Passes that read an image in order: its ranges, its runs, its members, the
  narrowest width that holds them.
*/
module ImageScans {
  import opened Sets
  import opened Containers
  import opened Images

  /* ---------- ranges ---------- */

  // The bits of word j of block b among the values lo .. hi.
  function RangeMask(b: nat, j: nat, lo: nat, hi: nat): Word {
    set bit | 0 <= bit < 64 && lo <= ValueAt(b, j, bit) <= hi
  }

  // A pass over the words of blocks lo's to hi's: those of lo .. hi the bitmap
  // holds set (set true) or cleared.
  method MarkRange(w: Blocks, k: nat, lo: nat, hi: nat, mark: bool) returns (r: Blocks)
    requires Image(w, k) && k <= BITSET_WIDTH && lo <= hi < RANGE
    ensures Image(r, k)
    ensures ImageSet(r) == if mark then ImageSet(w) + Narrowed(Interval(lo, hi + 1), k)
                           else Without(ImageSet(w), lo, hi)
  {
    r := w;
    ghost var op := if mark then Or else AndNot;
    for b := BlockOf(lo) to BlockOf(hi) + 1
      invariant Image(r, k)
      invariant forall c, j :: 0 <= c < BLOCKS && 0 <= j < k ==>
                  r[c][j] == if BlockOf(lo) <= c < b then FoldWord(op, w[c][j], RangeMask(c, j, lo, hi)) else w[c][j]
    {
      var words: seq<Word> := w[b];
      for j := 0 to k
        invariant |words| == k
        invariant forall i :: 0 <= i < k ==>
                    words[i] == if i < j then FoldWord(op, w[b][i], RangeMask(b, i, lo, hi)) else w[b][i]
      {
        words := words[j := if mark then w[b][j] + RangeMask(b, j, lo, hi) else w[b][j] - RangeMask(b, j, lo, hi)];
      }
      r := r[b := words];
    }
    forall x: nat | x < RANGE
      ensures x in ImageSet(r) <==>
              if mark then x in ImageSet(w) || (WordOf(x) < k && lo <= x <= hi)
              else x in ImageSet(w) && !(lo <= x <= hi)
    {
      ValueAtOf(x);
    }
  }

  // Members among lo .. hi.
  method RangeCardinality(w: Blocks, k: nat, lo: nat, hi: nat) returns (n: nat)
    requires Image(w, k) && k <= BITSET_WIDTH && lo <= hi < RANGE
    ensures n == |Within(ImageSet(w), lo, hi)|
  {
    n := 0;
    ghost var m := Within(ImageSet(w), lo, hi);
    ghost var cut := Zero(k);
    ZeroIsEmpty(k);
    assert Slice(m, 0, Pos(BlockOf(lo), 0)) == {};
    for b := BlockOf(lo) to BlockOf(hi) + 1
      invariant n == |Slice(m, 0, Pos(b, 0))|
    {
      for j := 0 to k
        invariant n == |Slice(m, 0, Pos(b, j))|
      {
        var x := w[b][j] * RangeMask(b, j, lo, hi);
        MaskSlice(w, k, b, j, lo, hi);
        SliceSplits(m, 0, Pos(b, j), Pos(b, j + 1));
        n := n + |x|;
      }
      SliceSplits(m, 0, Pos(b, k), Pos(b + 1, 0));
      PastWidth(w, k, b, k);
      assert Slice(m, Pos(b, k), Pos(b + 1, 0)) == {};
    }
    assert Slice(m, 0, Pos(BlockOf(hi) + 1, 0)) == m;
  }

  lemma MaskSlice(w: Blocks, k: nat, b: nat, j: nat, lo: nat, hi: nat)
    requires Image(w, k) && k <= BITSET_WIDTH && b < BLOCKS && j < k
    ensures |Slice(Within(ImageSet(w), lo, hi), Pos(b, j), Pos(b, j + 1))| == |w[b][j] * RangeMask(b, j, lo, hi)|
  {
    var x := w[b][j] * RangeMask(b, j, lo, hi);
    var up := set bit | bit in x :: Plus(Pos(b, j), bit);
    var s := Slice(Within(ImageSet(w), lo, hi), Pos(b, j), Pos(b, j + 1));
    forall v | v in up
      ensures v in s
    {
      var bit :| bit in x && v == Plus(Pos(b, j), bit);
      ValueAtIsInverse(b, j, bit);
    }
    forall v | v in s
      ensures v in up
    {
      var bit := v - Pos(b, j);
      ValueAtIsInverse(b, j, bit);
      assert v == Plus(Pos(b, j), bit);
    }
    assert s == up;
    ShiftSize(x, Pos(b, j));
  }

  // No member of block b lies past the words of the bitmap's width.
  lemma PastWidth(w: Blocks, k: nat, b: nat, j: nat)
    requires Image(w, k) && k <= j <= BITSET_WIDTH && b < BLOCKS
    ensures Slice(ImageSet(w), Pos(b, j), Pos(b + 1, 0)) == {}
  {
  }

  /* ---------- counting runs ---------- */

  // The bits of a word that start a run of bits, after one ending in carry.
  function WordStarts(x: Word, carry: bool): Word { set bit | bit in x && StartsBit(x, carry, bit) }

  predicate StartsBit(x: Word, carry: bool, bit: nat) { if bit == 0 then !carry else bit - 1 !in x }

  // The last bit of the word before word j of block b, as the words lie.
  function Carry(w: Blocks, k: nat, b: nat, j: nat): bool
    requires Image(w, k) && b < BLOCKS && j < k
  {
    if j > 0 then 63 in w[b][j - 1] else b > 0 && 63 in w[b - 1][k - 1]
  }

  // The last value before word j of block b.
  ghost predicate Before(w: Blocks, b: nat, j: nat) { Pos(b, j) > 0 && Pos(b, j) - 1 in ImageSet(w) }

  lemma BeforeWord(w: Blocks, k: nat, b: nat, j: nat)
    requires Image(w, k) && 0 < k <= BITSET_WIDTH && b < BLOCKS && j < k
    ensures Before(w, b, j) <==> Carry(w, k, b, j) && (j > 0 || k == BITSET_WIDTH)
  {
    if j > 0 {
      ValueAtIsInverse(b, j - 1, 63);
    } else if b > 0 {
      ValueAtIsInverse(b - 1, BITSET_WIDTH - 1, 63);
    }
  }

  // The runs of members that start in a word.
  lemma StartsSlice(w: Blocks, k: nat, b: nat, j: nat)
    requires Image(w, k) && 0 < k <= BITSET_WIDTH && b < BLOCKS && j < k
    ensures |Slice(RunStarts(ImageSet(w)), Pos(b, j), Pos(b, j + 1))| == |WordStarts(w[b][j], Before(w, b, j))|
  {
    var x := WordStarts(w[b][j], Before(w, b, j));
    var up := set bit | bit in x :: Plus(Pos(b, j), bit);
    var s := Slice(RunStarts(ImageSet(w)), Pos(b, j), Pos(b, j + 1));
    forall v | v in up
      ensures v in s
    {
      var bit :| bit in x && v == Plus(Pos(b, j), bit);
      StartsAt(w, k, b, j, bit);
    }
    forall v | v in s
      ensures v in up
    {
      var bit := v - Pos(b, j);
      ValueAtIsInverse(b, j, bit);
      StartsAt(w, k, b, j, bit);
      assert v == Plus(Pos(b, j), bit);
    }
    assert s == up;
    ShiftSize(x, Pos(b, j));
  }

  lemma StartsAt(w: Blocks, k: nat, b: nat, j: nat, bit: nat)
    requires Image(w, k) && 0 < k <= BITSET_WIDTH && b < BLOCKS && j < k && bit < 64
    ensures Pos(b, j) + bit in RunStarts(ImageSet(w)) <==> bit in WordStarts(w[b][j], Before(w, b, j))
  {
    ValueAtIsInverse(b, j, bit);
    if bit > 0 {
      ValueAtIsInverse(b, j, bit - 1);
    }
  }

  // A word that follows a set bit, as the words lie, starts one run fewer when
  // its first bit is set.
  lemma CarryCosts(x: Word)
    ensures |WordStarts(x, false)| == |WordStarts(x, true)| + if 0 in x then 1 else 0
  {
    if 0 in x {
      assert WordStarts(x, false) == WordStarts(x, true) + {0};
    } else {
      assert WordStarts(x, false) == WordStarts(x, true);
    }
  }

  // Runs of bits counted as the words lie, less the runs of members the words
  // of blocks 1 .. b - 1 have more.
  ghost function Lost(w: Blocks, k: nat, b: nat): nat
    requires Image(w, k) && 0 < k && b <= BLOCKS
  {
    if b <= 1 then 0 else Lost(w, k, b - 1) + if 0 in w[b - 1][0] && 63 in w[b - 2][k - 1] then 1 else 0
  }

  // The kernel's pass: the runs of set bits, the words taken as they lie.
  method BitRuns(w: Blocks, k: nat) returns (n: nat)
    requires Image(w, k) && 0 < k <= BITSET_WIDTH
    ensures |RunStarts(ImageSet(w))| == n + if k == BITSET_WIDTH then 0 else Lost(w, k, BLOCKS)
  {
    ghost var r := RunStarts(ImageSet(w));
    n := 0;
    assert Slice(r, 0, Pos(0, 0)) == {};
    for b := 0 to BLOCKS
      invariant |Slice(r, 0, Pos(b, 0))| == n + if k == BITSET_WIDTH then 0 else Lost(w, k, b)
    {
      ghost var lost := if k == BITSET_WIDTH then 0 else Lost(w, k, b + 1);
      for j := 0 to k
        invariant |Slice(r, 0, Pos(b, j))| ==
                  n + if k == BITSET_WIDTH then 0 else if j == 0 then Lost(w, k, b) else lost
      {
        StartsSlice(w, k, b, j);
        BeforeWord(w, k, b, j);
        CarryCosts(w[b][j]);
        SliceSplits(r, 0, Pos(b, j), Pos(b, j + 1));
        n := n + |WordStarts(w[b][j], Carry(w, k, b, j))|;
      }
      SliceSplits(r, 0, Pos(b, k), Pos(b + 1, 0));
      PastWidth(w, k, b, k);
      assert Slice(r, Pos(b, k), Pos(b + 1, 0)) == {};
    }
    assert Slice(r, 0, Pos(BLOCKS, 0)) == r;
  }

  // The number of runs of members: below the full width, a block that starts
  // with a member where the block before ends with one is one run more.
  method CountRuns(w: Blocks, k: nat) returns (n: nat)
    requires Image(w, k) && 0 < k <= BITSET_WIDTH
    ensures n == |RunStarts(ImageSet(w))|
  {
    n := BitRuns(w, k);
    if k == BITSET_WIDTH {
      return;
    }
    ghost var kernel := n;
    for b := 1 to BLOCKS
      invariant n == kernel + Lost(w, k, b)
    {
      n := n + if 0 in w[b][0] && 63 in w[b - 1][k - 1] then 1 else 0;
    }
  }

  /* ---------- the narrowest width ---------- */

  method ImageMinWidth(w: Blocks, k: nat) returns (width: nat)
    requires Image(w, k) && 1 <= k <= BITSET_WIDTH
    ensures width == MinWidth(ImageSet(w)) && width <= k
  {
    ghost var s := ImageSet(w);
    var j := k;
    ImageFits(w, k);
    while j > 1
      invariant 1 <= j <= k && FitsWidth(s, j)
    {
      for b := 0 to BLOCKS
        invariant forall c :: 0 <= c < b ==> w[c][j - 1] == {}
      {
        if w[b][j - 1] != {} {
          var bit :| bit in w[b][j - 1];
          ValueAtIsInverse(b, j - 1, bit);
          assert ValueAt(b, j - 1, bit) in s;
          LeastWidthIsLeast(s, 1, j);
          return j;
        }
      }
      j := j - 1;
    }
    LeastWidthIsLeast(s, 1, 1);
    return 1;
  }
}
