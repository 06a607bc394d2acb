/**
  The bounded heap of a walk: the best L candidates seen, the worst at the
  root, in an array that the walk's caller allots.
*/
module Bm25Heap {
  import opened Bm25Rank

  function Parent(i: nat): nat
    requires i > 0
  {
    (i - 1) / 2
  }

  // The order the heap keeps between a candidate p and one under it.
  ghost predicate Under(s: seq<Cand>, p: nat, i: nat)
    requires p < |s| && i < |s|
  {
    !Better(s[p], s[i])
  }

  ghost predicate Placed(s: seq<Cand>, i: nat)
    requires i < |s|
  {
    i > 0 ==> Under(s, Parent(i), i)
  }

  // No candidate is ranked above one of its children.
  ghost predicate IsHeap(s: seq<Cand>) {
    forall i :: 0 <= i < |s| ==> Placed(s, i)
  }

  // A heap but for candidate i, which may be ranked below its parent.
  ghost predicate RisingAt(s: seq<Cand>, i: nat)
    requires i < |s|
  {
    && (forall j :: 0 <= j < |s| && j != i ==> Placed(s, j))
    && (i > 0 ==> forall j :: 0 < j < |s| && Parent(j) == i ==> Under(s, Parent(i), j))
  }

  // A heap but for candidate i, which may be ranked above its children.
  ghost predicate SinkingAt(s: seq<Cand>, i: nat)
    requires i < |s|
  {
    && (forall j :: 0 <= j < |s| && (j == 0 || Parent(j) != i) ==> Placed(s, j))
    && (i > 0 ==> forall j :: 0 < j < |s| && Parent(j) == i ==> Under(s, Parent(i), j))
  }

  lemma BetterIsTransitive(x: Cand, y: Cand, z: Cand)
    ensures Better(x, y) && Better(y, z) ==> Better(x, z)
    ensures !Better(x, y) && !Better(y, z) ==> !Better(x, z)
  {
  }

  // The root is the worst candidate the heap holds.
  lemma {:induction false} RootIsWorst(s: seq<Cand>, i: nat)
    requires IsHeap(s) && i < |s|
    ensures !Better(s[0], s[i])
    decreases i
  {
    if i > 0 {
      RootIsWorst(s, Parent(i));
      assert Placed(s, i);
    }
  }

  function Swapped(s: seq<Cand>, i: nat, j: nat): seq<Cand>
    requires i < |s| && j < |s|
  {
    s[i := s[j]][j := s[i]]
  }

  lemma RiseStep(s: seq<Cand>, i: nat)
    requires 0 < i < |s| && RisingAt(s, i) && Better(s[Parent(i)], s[i])
    ensures RisingAt(Swapped(s, i, Parent(i)), Parent(i))
  {
    var p, t := Parent(i), Swapped(s, i, Parent(i));
    forall j | 0 <= j < |s| && j != p
      ensures Placed(t, j)
    {
      assert j != i ==> Placed(s, j);
      if j > 0 && Parent(j) == i {
        assert Under(s, Parent(i), j);
      }
    }
    if p > 0 {
      assert Placed(s, p);
      forall j | 0 < j < |s| && Parent(j) == p
        ensures Under(t, Parent(p), j)
      {
        assert j != i ==> Placed(s, j);
        BetterIsTransitive(s[Parent(p)], s[p], s[j]);
      }
    }
  }

  lemma SinkStep(s: seq<Cand>, i: nat, w: nat)
    requires i < |s| && SinkingAt(s, i) && 0 < w < |s| && Parent(w) == i
    requires Better(s[i], s[w])
    requires forall j :: 0 < j < |s| && Parent(j) == i ==> Under(s, w, j)
    ensures SinkingAt(Swapped(s, i, w), w)
  {
    var t := Swapped(s, i, w);
    forall j | 0 <= j < |s| && (j == 0 || Parent(j) != w)
      ensures Placed(t, j)
    {
      if j > 0 && Parent(j) == i {
        assert Under(s, w, j);
      } else {
        assert Placed(s, j);
        assert i > 0 ==> Under(s, Parent(i), w);
      }
    }
    forall j | 0 < j < |s| && Parent(j) == w
      ensures Under(t, Parent(w), j)
    {
      assert Placed(s, j);
    }
  }

  method Swap(heap: array<Cand>, n: nat, i: nat, j: nat)
    requires i < n <= heap.Length && j < n
    modifies heap
    ensures heap[..n] == Swapped(old(heap[..n]), i, j)
    ensures multiset(heap[..n]) == multiset(old(heap[..n]))
    ensures heap[n..] == old(heap[n..])
  {
    heap[i], heap[j] := heap[j], heap[i];
  }

  method Sift(heap: array<Cand>, n: nat, start: nat)
    requires start < n <= heap.Length && SinkingAt(heap[..n], start)
    modifies heap
    ensures IsHeap(heap[..n]) && multiset(heap[..n]) == multiset(old(heap[..n]))
    ensures heap[n..] == old(heap[n..])
  {
    var i := start;
    while true
      invariant i < n && SinkingAt(heap[..n], i)
      invariant multiset(heap[..n]) == multiset(old(heap[..n]))
      invariant heap[n..] == old(heap[n..])
      decreases n - i
    {
      var l, r, w := 2 * i + 1, 2 * i + 2, i;
      if l < n && Better(heap[w], heap[l]) {
        w := l;
      }
      if r < n && Better(heap[w], heap[r]) {
        w := r;
      }
      ghost var s := heap[..n];
      forall j | 0 < j < n && Parent(j) == i
        ensures Under(s, w, j)
      {
        assert j == l || j == r;
      }
      if w == i {
        forall j | 0 <= j < n
          ensures Placed(s, j)
        {
          assert j > 0 && Parent(j) == i ==> Under(s, i, j);
        }
        return;
      }
      SinkStep(s, i, w);
      Swap(heap, n, i, w);
      i := w;
    }
  }

  lemma RisingAtEnd(was: seq<Cand>, c: Cand)
    requires IsHeap(was)
    ensures RisingAt(was + [c], |was|)
  {
    forall j | 0 <= j < |was|
      ensures Placed(was + [c], j)
    {
      assert Placed(was, j);
    }
  }

  lemma SinkingAtRoot(was: seq<Cand>, c: Cand)
    requires IsHeap(was) && was != []
    ensures SinkingAt(was[0 := c], 0)
    ensures multiset(was[0 := c]) == multiset(was) - multiset{was[0]} + multiset{c}
  {
    forall j | 0 <= j < |was| && (j == 0 || Parent(j) != 0)
      ensures Placed(was[0 := c], j)
    {
      assert Placed(was, j);
    }
  }

  method Rise(heap: array<Cand>, n: nat, start: nat)
    requires start < n <= heap.Length && RisingAt(heap[..n], start)
    modifies heap
    ensures IsHeap(heap[..n]) && multiset(heap[..n]) == multiset(old(heap[..n]))
  {
    var i: nat := start;
    while i > 0
      invariant 0 <= i < n && RisingAt(heap[..n], i)
      invariant multiset(heap[..n]) == multiset(old(heap[..n]))
    {
      var parent := Parent(i);
      if !Better(heap[parent], heap[i]) {
        break;
      }
      RiseStep(heap[..n], i);
      Swap(heap, n, i, parent);
      i := parent;
    }
  }

  // Offer c to a heap of n of at most heap.Length candidates.
  method Add(heap: array<Cand>, n: nat, c: Cand) returns (m: nat)
    requires 0 < heap.Length && n <= heap.Length && IsHeap(heap[..n])
    modifies heap
    ensures m == (if n < heap.Length then n + 1 else n) && IsHeap(heap[..m])
    ensures multiset(heap[..m]) ==
            if n < heap.Length then multiset(old(heap[..n])) + multiset{c}
            else if Better(c, old(heap[0])) then multiset(old(heap[..n])) - multiset{old(heap[0])} + multiset{c}
            else multiset(old(heap[..n]))
  {
    m := n;
    ghost var was := heap[..n];
    if n < heap.Length {
      heap[n] := c;
      m := n + 1;
      assert heap[..m] == was + [c];
      RisingAtEnd(was, c);
      Rise(heap, m, n);
    } else if Better(c, heap[0]) {
      heap[0] := c;
      assert heap[..n] == was[0 := c];
      SinkingAtRoot(was, c);
      Sift(heap, n, 0);
    }
  }
}
