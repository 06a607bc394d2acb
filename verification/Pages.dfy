/** What the pages of the directory and of the posting trees have in common. */
module Pages {
  const CAPACITY: nat := 8136          // bytes of items and line pointers
  const LINE_POINTER: nat := 4
  const MAX_BLOCKS: nat := 0x1_0000_0000   // a relation has fewer

  // The downlink a descent follows, of the first m + 1: the last whose key is not
  // above the one sought. The first is good for any key, which no page asks.
  function Slot<T>(items: seq<T>, notAbove: T -> bool, m: nat): (s: nat)
    requires m < |items|
    ensures s <= m
  {
    if m == 0 || notAbove(items[m]) then m else Slot(items, notAbove, m - 1)
  }

  lemma {:induction false} SlotIsLast<T>(items: seq<T>, notAbove: T -> bool, m: nat)
    requires m < |items|
    ensures var s := Slot(items, notAbove, m);
            (s > 0 ==> notAbove(items[s])) && forall q :: s < q <= m ==> !notAbove(items[q])
  {
    if m > 0 && !notAbove(items[m]) {
      SlotIsLast(items, notAbove, m - 1);
    }
  }
}
