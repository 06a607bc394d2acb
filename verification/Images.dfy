/**
  Bitmaps, word by word: a BITSET's payload and a NARROW's, of any width, and
  the images the set algebra and the conversions build.
*/
module Images {
  import opened Sets
  import opened Containers

  type Blocks = seq<seq<Word>>

  // The values an image holds.
  ghost function ImageSet(w: Blocks): set<nat> {
    set lo: nat | lo < RANGE && BitOf(lo) in WordAt(w, BlockOf(lo), WordOf(lo))
  }

  // Those of s a bitmap of width k has bits for.
  ghost function Narrowed(s: set<nat>, k: nat): set<nat> { set lo | lo in s && WordOf(lo) < k }

  lemma ImageIsMembers(w: Blocks, k: nat)
    ensures Members(Bitmap(k, w)) == ImageSet(w)
  {
  }

  lemma ImageFits(w: Blocks, k: nat)
    requires Image(w, k)
    ensures FitsWidth(ImageSet(w), k) && Narrowed(ImageSet(w), k) == ImageSet(w)
  {
  }

  lemma FullWidthHoldsAll(s: set<nat>)
    requires forall lo :: lo in s ==> lo < RANGE
    ensures Narrowed(s, BITSET_WIDTH) == s
  {
  }

  function Zero(k: nat): (w: Blocks)
    ensures Image(w, k)
  {
    seq(BLOCKS, _ => seq(k, _ => {}))
  }

  lemma ZeroIsEmpty(k: nat)
    ensures ImageSet(Zero(k)) == {}
  {
  }

  /* ---------- single bits ---------- */

  // Tests lo's bit; false for a member the bitmap cannot hold.
  predicate Test(w: Blocks, k: nat, lo: nat)
    requires Image(w, k) && lo < RANGE
  {
    WordOf(lo) < k && BitOf(lo) in w[BlockOf(lo)][WordOf(lo)]
  }

  lemma TestDecides(w: Blocks, k: nat, lo: nat)
    requires Image(w, k) && lo < RANGE
    ensures Test(w, k, lo) <==> lo in ImageSet(w)
  {
  }

  function Put(w: Blocks, b: nat, j: nat, x: Word): (r: Blocks)
    requires b < |w| && j < |w[b]|
    ensures |r| == |w| && forall c :: 0 <= c < |w| ==> |r[c]| == |w[c]|
    ensures forall c, i :: WordAt(r, c, i) == if c == b && i == j then x else WordAt(w, c, i)
  {
    var words: seq<Word> := w[b][j := x];
    w[b := words]
  }

  function SetBit(w: Blocks, k: nat, lo: nat): (r: Blocks)
    requires Image(w, k) && lo < RANGE
    ensures Image(r, k)
  {
    if WordOf(lo) < k then Put(w, BlockOf(lo), WordOf(lo), w[BlockOf(lo)][WordOf(lo)] + {BitOf(lo)}) else w
  }

  function ClearBit(w: Blocks, k: nat, lo: nat): (r: Blocks)
    requires Image(w, k) && lo < RANGE
    ensures Image(r, k)
  {
    if WordOf(lo) < k then Put(w, BlockOf(lo), WordOf(lo), w[BlockOf(lo)][WordOf(lo)] - {BitOf(lo)}) else w
  }

  lemma SameBit(x: nat, y: nat)
    requires x < RANGE && y < RANGE
    requires BlockOf(x) == BlockOf(y) && WordOf(x) == WordOf(y) && BitOf(x) == BitOf(y)
    ensures x == y
  {
    ValueAtOf(x);
    ValueAtOf(y);
  }

  lemma SetBitAdds(w: Blocks, k: nat, lo: nat)
    requires Image(w, k) && lo < RANGE
    ensures ImageSet(SetBit(w, k, lo)) == if WordOf(lo) < k then ImageSet(w) + {lo} else ImageSet(w)
  {
    if WordOf(lo) < k {
      forall x: nat | x < RANGE
        ensures x in ImageSet(SetBit(w, k, lo)) <==> x in ImageSet(w) || x == lo
      {
        if BlockOf(x) == BlockOf(lo) && WordOf(x) == WordOf(lo) && BitOf(x) == BitOf(lo) {
          SameBit(x, lo);
        }
      }
    }
  }

  lemma ClearBitRemoves(w: Blocks, k: nat, lo: nat)
    requires Image(w, k) && lo < RANGE
    ensures ImageSet(ClearBit(w, k, lo)) == ImageSet(w) - {lo}
  {
    forall x: nat | x < RANGE
      ensures x in ImageSet(ClearBit(w, k, lo)) <==> x in ImageSet(w) && x != lo
    {
      if BlockOf(x) == BlockOf(lo) && WordOf(x) == WordOf(lo) && BitOf(x) == BitOf(lo) {
        SameBit(x, lo);
      }
    }
  }

  /* ---------- passes over words ---------- */

  datatype Op = And | Or | AndNot

  function FoldWord(op: Op, x: Word, y: Word): Word {
    match op
    case And => x * y
    case Or => x + y
    case AndNot => x - y
  }

  function FoldSet(op: Op, x: set<nat>, y: set<nat>): set<nat> {
    match op
    case And => x * y
    case Or => x + y
    case AndNot => x - y
  }

  // Every word of r is what f says of x's and y's, of which absent ones are 0.
  ghost predicate Folded(op: Op, r: Blocks, x: Blocks, y: Blocks, k: nat) {
    Image(r, k) && forall b, j :: 0 <= b < BLOCKS && 0 <= j < k ==>
      r[b][j] == FoldWord(op, WordAt(x, b, j), WordAt(y, b, j))
  }

  lemma FoldedSets(op: Op, r: Blocks, x: Blocks, y: Blocks, k: nat)
    requires Folded(op, r, x, y, k)
    ensures ImageSet(r) == FoldSet(op, Narrowed(ImageSet(x), k), Narrowed(ImageSet(y), k))
  {
    forall lo: nat | lo < RANGE
      ensures lo in ImageSet(r) <==> lo in FoldSet(op, Narrowed(ImageSet(x), k), Narrowed(ImageSet(y), k))
    {
      ValueAtOf(lo);
    }
  }

  // w (of width kw) op= src (of width ks): word j of each block with word j of
  // src's, where src has one, and an AND clears the words past src's width.
  method Fold(op: Op, w: Blocks, kw: nat, src: Blocks, ks: nat) returns (r: Blocks)
    requires Image(w, kw) && Image(src, ks)
    ensures Folded(op, r, w, src, kw)
  {
    r := w;
    for b := 0 to BLOCKS
      invariant Image(r, kw)
      invariant forall c, i :: 0 <= c < b && 0 <= i < kw ==> r[c][i] == FoldWord(op, WordAt(w, c, i), WordAt(src, c, i))
      invariant forall c :: b <= c < BLOCKS ==> r[c] == w[c]
    {
      var words: seq<Word> := w[b];
      for j := 0 to kw
        invariant |words| == kw
        invariant forall i :: 0 <= i < j ==> words[i] == FoldWord(op, WordAt(w, b, i), WordAt(src, b, i))
        invariant forall i :: j <= i < kw ==> words[i] == w[b][i]
      {
        if j < ks {
          words := words[j := FoldWord(op, words[j], src[b][j])];
        } else if op == And {
          words := words[j := {}];
        }
      }
      r := r[b := words];
    }
  }

  // The first words of each block, and zeros past src's.
  method Rewiden(src: Blocks, ks: nat, kd: nat) returns (r: Blocks)
    requires Image(src, ks)
    ensures Image(r, kd) && ImageSet(r) == Narrowed(ImageSet(src), kd)
  {
    r := Zero(kd);
    for b := 0 to BLOCKS
      invariant Image(r, kd)
      invariant forall c, i :: 0 <= c < b && 0 <= i < kd ==> r[c][i] == WordAt(src, c, i)
      invariant forall c, i :: b <= c < BLOCKS && 0 <= i < kd ==> r[c][i] == {}
    {
      var words: seq<Word> := r[b];
      for j := 0 to if ks < kd then ks else kd
        invariant |words| == kd
        invariant forall i :: 0 <= i < j ==> words[i] == src[b][i]
        invariant forall i :: j <= i < kd ==> words[i] == {}
      {
        words := words[j := src[b][j]];
      }
      r := r[b := words];
    }
    forall lo: nat | lo < RANGE
      ensures lo in ImageSet(r) <==> lo in Narrowed(ImageSet(src), kd)
    {
      ValueAtOf(lo);
    }
  }

  /* ---------- counting ---------- */

  // The bits of the first j words of a block, and of the first b blocks.
  ghost function WordsCount(words: seq<Word>, j: nat): nat
    requires j <= |words|
  {
    if j == 0 then 0 else WordsCount(words, j - 1) + |words[j - 1]|
  }

  ghost function BlocksCount(w: Blocks, b: nat): nat
    requires b <= |w|
  {
    if b == 0 then 0 else BlocksCount(w, b - 1) + WordsCount(w[b - 1], |w[b - 1]|)
  }

  // Where word j of block b starts.
  function Pos(b: nat, j: nat): nat { b * OFFSETS + j * 64 }

  lemma WordSlice(w: Blocks, b: nat, j: nat)
    requires b < BLOCKS && j < BITSET_WIDTH
    ensures |Slice(ImageSet(w), Pos(b, j), Pos(b, j + 1))| == |WordAt(w, b, j)|
  {
    var x := WordAt(w, b, j);
    var up := set bit | bit in x :: Plus(Pos(b, j), bit);
    forall lo: nat
      ensures lo in Slice(ImageSet(w), Pos(b, j), Pos(b, j + 1)) <==> lo in up
    {
      if lo in up {
        var bit :| bit in x && lo == Plus(Pos(b, j), bit);
        ValueAtIsInverse(b, j, bit);
      } else if Pos(b, j) <= lo < Pos(b, j + 1) {
        var bit := lo - Pos(b, j);
        ValueAtIsInverse(b, j, bit);
        assert lo == Plus(Pos(b, j), bit);
      }
    }
    assert Slice(ImageSet(w), Pos(b, j), Pos(b, j + 1)) == up;
    ShiftSize(x, Pos(b, j));
  }

  // The words of a block up to j, those past its width being empty.
  lemma {:induction false} BlockSlice(w: Blocks, k: nat, b: nat, j: nat)
    requires Image(w, k) && b < BLOCKS && j <= BITSET_WIDTH && k <= BITSET_WIDTH
    ensures |Slice(ImageSet(w), Pos(b, 0), Pos(b, j))| == WordsCount(w[b], if j < k then j else k)
    decreases j
  {
    if j == 0 {
      assert Slice(ImageSet(w), Pos(b, 0), Pos(b, 0)) == {};
    } else {
      BlockSlice(w, k, b, j - 1);
      WordSlice(w, b, j - 1);
      SliceSplits(ImageSet(w), Pos(b, 0), Pos(b, j - 1), Pos(b, j));
    }
  }

  lemma {:induction false} ImageSlice(w: Blocks, k: nat, b: nat)
    requires Image(w, k) && b <= BLOCKS && k <= BITSET_WIDTH
    ensures |Slice(ImageSet(w), 0, Pos(b, 0))| == BlocksCount(w, b)
  {
    if b == 0 {
      assert Slice(ImageSet(w), 0, 0) == {};
    } else {
      ImageSlice(w, k, b - 1);
      BlockSlice(w, k, b - 1, BITSET_WIDTH);
      SliceSplits(ImageSet(w), 0, Pos(b - 1, 0), Pos(b, 0));
    }
  }

  lemma ImageCount(w: Blocks, k: nat)
    requires Image(w, k) && k <= BITSET_WIDTH
    ensures |ImageSet(w)| == BlocksCount(w, BLOCKS)
  {
    ImageSlice(w, k, BLOCKS);
    assert Slice(ImageSet(w), 0, Pos(BLOCKS, 0)) == ImageSet(w);
  }

  // The number of set bits: a popcount a word.
  method Cardinality(w: Blocks, k: nat) returns (n: nat)
    requires Image(w, k) && k <= BITSET_WIDTH
    ensures n == |ImageSet(w)|
  {
    n := 0;
    for b := 0 to BLOCKS
      invariant n == BlocksCount(w, b)
    {
      for j := 0 to k
        invariant n == BlocksCount(w, b) + WordsCount(w[b], j)
      {
        n := n + |w[b][j]|;
      }
    }
    ImageCount(w, k);
  }

  // One kernel pass over two bitmaps of a width: the result, and its count.
  method Pass(op: Op, x: Blocks, y: Blocks, k: nat) returns (d: Blocks, n: nat)
    requires Image(x, k) && Image(y, k) && k <= BITSET_WIDTH
    ensures Folded(op, d, x, y, k) && n == |ImageSet(d)|
  {
    d, n := x, 0;
    for b := 0 to BLOCKS
      invariant Image(d, k)
      invariant forall c, i :: 0 <= c < b && 0 <= i < k ==> d[c][i] == FoldWord(op, x[c][i], y[c][i])
      invariant forall c :: b <= c < BLOCKS ==> d[c] == x[c]
      invariant n == BlocksCount(d, b)
    {
      var words: seq<Word> := x[b];
      ghost var before := n;
      for j := 0 to k
        invariant |words| == k
        invariant forall i :: 0 <= i < j ==> words[i] == FoldWord(op, x[b][i], y[b][i])
        invariant forall i :: j <= i < k ==> words[i] == x[b][i]
        invariant n == before + WordsCount(words, j)
      {
        ghost var was := words;
        words := words[j := FoldWord(op, x[b][j], y[b][j])];
        SamePrefixCount(was, words, j);
        n := n + |words[j]|;
      }
      ghost var earlier := d;
      d := d[b := words];
      SameBlocksCount(earlier, d, b);
    }
    ImageCount(d, k);
  }

  lemma {:induction false} SamePrefixCount(x: seq<Word>, y: seq<Word>, j: nat)
    requires j <= |x| && j <= |y| && forall i :: 0 <= i < j ==> x[i] == y[i]
    ensures WordsCount(x, j) == WordsCount(y, j)
  {
    if j > 0 {
      SamePrefixCount(x, y, j - 1);
    }
  }

  lemma {:induction false} SameBlocksCount(x: Blocks, y: Blocks, b: nat)
    requires b <= |x| && b <= |y| && forall i :: 0 <= i < b ==> x[i] == y[i]
    ensures BlocksCount(x, b) == BlocksCount(y, b)
  {
    if b > 0 {
      SameBlocksCount(x, y, b - 1);
    }
  }
}
