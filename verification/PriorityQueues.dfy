/**
 The hand-written heap of the vector index. `PopWorst` cuts an element out of the
 middle and so breaks heap order; what survives every operation is that the root is
 a maximum.
 */
module PriorityQueues {
  import opened Collections

  datatype PqItem = PqItem(id: Id, priority: real)

  /** The root has the greatest priority. */
  ghost predicate RootMax(items: seq<PqItem>) {
    forall i :: 0 <= i < |items| ==> items[i].priority <= items[0].priority
  }

  ghost predicate BelowParent(items: seq<PqItem>, i: nat)
    requires 0 < i < |items|
  {
    items[i].priority <= items[(i - 1) / 2].priority
  }

  /** No item beats its parent. */
  ghost predicate Heap(items: seq<PqItem>) {
    forall i: nat :: 0 < i < |items| ==> BelowParent(items, i)
  }

  /** Heap order, except possibly between `k` and its parent. */
  ghost predicate HeapExceptUp(items: seq<PqItem>, k: nat) {
    && (forall i: nat :: 0 < i < |items| && i != k ==> BelowParent(items, i))
    && GrandchildrenBelow(items, k)
  }

  /** Heap order, except possibly between `k` and its children. */
  ghost predicate HeapExceptDown(items: seq<PqItem>, k: nat) {
    && (forall i: nat :: 0 < i < |items| && (i - 1) / 2 != k ==> BelowParent(items, i))
    && GrandchildrenBelow(items, k)
  }

  /** The children of `k` do not beat its parent. */
  ghost predicate GrandchildrenBelow(items: seq<PqItem>, k: nat) {
    0 < k < |items| ==>
      && (2 * k + 1 < |items| ==> items[2 * k + 1].priority <= items[(k - 1) / 2].priority)
      && (2 * k + 2 < |items| ==> items[2 * k + 2].priority <= items[(k - 1) / 2].priority)
  }

  /** The root is a maximum among all items but `k`. */
  ghost predicate RootMaxExcept(items: seq<PqItem>, k: nat) {
    forall i :: 0 <= i < |items| && i != k ==> items[i].priority <= items[0].priority
  }

  lemma {:induction false} AncestorBeats(items: seq<PqItem>, i: nat)
    requires Heap(items) && i < |items|
    ensures items[i].priority <= items[0].priority
    decreases i
  {
    if i > 0 {
      assert BelowParent(items, i);
      AncestorBeats(items, (i - 1) / 2);
    }
  }

  /** In heap order the root is a maximum. */
  lemma HeapHasRootMax(items: seq<PqItem>)
    requires Heap(items)
    ensures RootMax(items)
  {
    forall i | 0 <= i < |items|
      ensures items[i].priority <= items[0].priority
    {
      AncestorBeats(items, i);
    }
  }

  function Swapped(items: seq<PqItem>, i: nat, j: nat): (r: seq<PqItem>)
    requires i < |items| && j < |items|
  {
    items[i := items[j]][j := items[i]]
  }

  lemma SwapKeepsItems(items: seq<PqItem>, i: nat, j: nat)
    requires i < |items| && j < |items|
    ensures multiset(Swapped(items, i, j)) == multiset(items)
  {
  }

  lemma AppendKeepsOrder(items: seq<PqItem>, item: PqItem)
    ensures Heap(items) ==> HeapExceptUp(items + [item], |items|)
    ensures RootMax(items) ==> RootMaxExcept(items + [item], |items|)
  {
    if Heap(items) {
      forall j: nat | 0 < j < |items|
        ensures BelowParent(items + [item], j)
      {
        assert BelowParent(items, j);
      }
    }
  }

  function Cut(items: seq<PqItem>, k: nat): seq<PqItem>
    requires k < |items|
  {
    items[..k] + items[k + 1..]
  }

  lemma CutKeepsRootMax(items: seq<PqItem>, k: nat)
    requires k < |items| && forall j :: 0 <= j < |items| ==> items[k].priority <= items[j].priority
    ensures multiset(Cut(items, k)) == multiset(items) - multiset{items[k]}
    ensures RootMax(items) ==> RootMax(Cut(items, k))
  {
    assert items == items[..k] + [items[k]] + items[k + 1..];
  }

  /** Cutting out the least item can leave an item above its parent. */
  lemma CutBreaksHeapOrder()
    ensures var items := [PqItem(1, 10.0), PqItem(2, 3.0), PqItem(3, 9.0), PqItem(4, 2.0), PqItem(5, 1.0), PqItem(6, 8.0), PqItem(7, 7.0)];
      && (forall j :: 0 <= j < |items| ==> items[4].priority <= items[j].priority)
      && Heap(items) && !Heap(Cut(items, 4))
  {
    var items := [PqItem(1, 10.0), PqItem(2, 3.0), PqItem(3, 9.0), PqItem(4, 2.0), PqItem(5, 1.0), PqItem(6, 8.0), PqItem(7, 7.0)];
    assert !BelowParent(Cut(items, 4), 4);
  }

  class PriorityQueue {
    var items: seq<PqItem>

    constructor ()
      ensures items == []
    {
      items := [];
    }

    method Push(item: PqItem)
      modifies this
      ensures multiset(items) == old(multiset(items)) + multiset{item}
      ensures old(Heap(items)) ==> Heap(items)
      ensures old(RootMax(items)) ==> RootMax(items)
    {
      AppendKeepsOrder(items, item);
      items := items + [item];
      BubbleUp(|items| - 1);
    }

    /** Takes the root; in heap order that is a maximum. */
    method Pop() returns (item: PqItem)
      modifies this
      ensures old(items) == [] ==> items == [] && item == PqItem(0, 0.0)
      ensures old(items) != [] ==> item == old(items[0]) && multiset(items) == old(multiset(items)) - multiset{item}
      ensures old(Heap(items)) ==> Heap(items)
      ensures old(Heap(items)) ==> forall p :: p in old(items) ==> old(items) != [] && p.priority <= item.priority
    {
      if |items| == 0 {
        return PqItem(0, 0.0);
      }
      item := items[0];
      var n := |items| - 1;
      ghost var all := items;
      assert Heap(all) ==> forall p :: p in all ==> p.priority <= item.priority by {
        if Heap(all) {
          HeapHasRootMax(all);
        }
      }
      items := items[0 := items[n]];
      items := items[..n];
      MoveLastToRoot(all, items);
      if n > 0 {
        BubbleDown(0);
      }
    }

    method Peek() returns (item: PqItem)
      ensures item == if items == [] then PqItem(0, 0.0) else items[0]
    {
      if |items| == 0 {
        return PqItem(0, 0.0);
      }
      item := items[0];
    }

    /** Cuts out an item of least priority, wherever it is. */
    method PopWorst() returns (item: PqItem)
      modifies this
      ensures old(items) == [] ==> items == [] && item == PqItem(0, 0.0)
      ensures old(items) != [] ==> item in old(items) && multiset(items) == old(multiset(items)) - multiset{item}
      ensures old(items) != [] ==> forall p :: p in old(items) ==> item.priority <= p.priority
      ensures old(RootMax(items)) ==> RootMax(items)
    {
      if |items| == 0 {
        return PqItem(0, 0.0);
      }
      var minIdx := 0;
      for i := 1 to |items|
        invariant 0 <= minIdx < |items|
        invariant forall j :: 0 <= j < i ==> items[minIdx].priority <= items[j].priority
      {
        if items[i].priority < items[minIdx].priority {
          minIdx := i;
        }
      }
      item := items[minIdx];
      CutKeepsRootMax(items, minIdx);
      items := Cut(items, minIdx);
    }

    method BubbleUp(k: nat)
      requires k < |items|
      modifies this
      ensures multiset(items) == old(multiset(items))
      ensures old(HeapExceptUp(items, k)) ==> Heap(items)
      ensures old(RootMaxExcept(items, k)) ==> RootMax(items)
    {
      var i := k;
      ghost var heap, top := HeapExceptUp(items, k), RootMaxExcept(items, k);
      while i > 0
        invariant 0 <= i < |items|
        invariant multiset(items) == old(multiset(items))
        invariant (heap ==> HeapExceptUp(items, i)) && (top ==> RootMaxExcept(items, i))
      {
        var parent := (i - 1) / 2;
        if items[i].priority <= items[parent].priority {
          return;
        }
        RiseOneStep(items, i);
        items := Swapped(items, i, parent);
        i := parent;
      }
    }

    method BubbleDown(k: nat)
      requires k < |items|
      modifies this
      ensures multiset(items) == old(multiset(items))
      ensures old(HeapExceptDown(items, k)) ==> Heap(items)
    {
      var i := k;
      ghost var heap := HeapExceptDown(items, k);
      while true
        invariant 0 <= i < |items|
        invariant multiset(items) == old(multiset(items))
        invariant heap ==> HeapExceptDown(items, i)
        decreases |items| - i
      {
        var largest := LargestOf(items, i);
        if largest == i {
          return;
        }
        SinkOneStep(items, i, largest);
        items := Swapped(items, i, largest);
        i := largest;
      }
    }
  }

  /** The greatest of an item and its children. */
  function LargestOf(items: seq<PqItem>, i: nat): (c: nat)
    requires i < |items|
    ensures c < |items| && c in {i, 2 * i + 1, 2 * i + 2}
    ensures items[i].priority <= items[c].priority && (c != i ==> items[i].priority < items[c].priority)
    ensures 2 * i + 1 < |items| ==> items[2 * i + 1].priority <= items[c].priority
    ensures 2 * i + 2 < |items| ==> items[2 * i + 2].priority <= items[c].priority
  {
    var left, right := 2 * i + 1, 2 * i + 2;
    var largest := if left < |items| && items[left].priority > items[i].priority then left else i;
    if right < |items| && items[right].priority > items[largest].priority then right else largest
  }

  lemma RiseOneStep(items: seq<PqItem>, i: nat)
    requires 0 < i < |items| && items[i].priority > items[(i - 1) / 2].priority
    ensures var r := Swapped(items, i, (i - 1) / 2);
      && multiset(r) == multiset(items)
      && (HeapExceptUp(items, i) ==> HeapExceptUp(r, (i - 1) / 2))
      && (RootMaxExcept(items, i) ==> RootMaxExcept(r, (i - 1) / 2))
  {
    SwapKeepsItems(items, i, (i - 1) / 2);
    if HeapExceptUp(items, i) {
      RiseInHeap(items, i);
    }
  }

  lemma RiseInHeap(items: seq<PqItem>, i: nat)
    requires 0 < i < |items| && items[i].priority > items[(i - 1) / 2].priority && HeapExceptUp(items, i)
    ensures HeapExceptUp(Swapped(items, i, (i - 1) / 2), (i - 1) / 2)
  {
    var p := (i - 1) / 2;
    var r := Swapped(items, i, p);
    assert 0 < p ==> BelowParent(items, p);
    forall j: nat | 0 < j < |r| && j != p
      ensures BelowParent(r, j)
    {
      assert j != i ==> BelowParent(items, j);
    }
    if 0 < p {
      var other := if i == 2 * p + 1 then 2 * p + 2 else 2 * p + 1;
      assert i == 2 * p + 1 || i == 2 * p + 2;
      if other < |items| {
        assert BelowParent(items, other);
      }
    }
  }

  lemma SinkOneStep(items: seq<PqItem>, i: nat, c: nat)
    requires i < |items| && c == LargestOf(items, i) && c != i
    ensures var r := Swapped(items, i, c);
      && multiset(r) == multiset(items)
      && (HeapExceptDown(items, i) ==> HeapExceptDown(r, c))
  {
    var r := Swapped(items, i, c);
    SwapKeepsItems(items, i, c);
    if HeapExceptDown(items, i) {
      forall j: nat | 0 < j < |r| && (j - 1) / 2 != c
        ensures BelowParent(r, j)
      {
        if (j - 1) / 2 != i {
          assert BelowParent(items, j);
        }
      }
      if 2 * c + 1 < |items| {
        assert BelowParent(items, 2 * c + 1);
      }
      if 2 * c + 2 < |items| {
        assert BelowParent(items, 2 * c + 2);
      }
    }
  }

  lemma MoveLastToRoot(all: seq<PqItem>, items: seq<PqItem>)
    requires |all| > 0 && items == all[0 := all[|all| - 1]][..|all| - 1]
    ensures multiset(items) == multiset(all) - multiset{all[0]}
    ensures Heap(all) ==> HeapExceptDown(items, 0)
    ensures Heap(all) && items == [] ==> Heap(items)
  {
    var n := |all| - 1;
    assert all == all[..n] + [all[n]];
    if Heap(all) {
      forall j: nat | 0 < j < |items| && (j - 1) / 2 != 0
        ensures BelowParent(items, j)
      {
        assert BelowParent(all, j);
      }
    }
  }
}
