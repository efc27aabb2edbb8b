/** The three `heapq` operations the outer ring is built from (huddle_cluster.py, lines 1019, 1058,
    1889 and 2107), on a list of ids ordered by a key. The algorithms are those of Python's standard
    library: push sifts the new item towards the root; pop moves the last item to the root, lets the
    smaller child rise along a path down to a leaf, and sifts the item back up from there. */
module HeapQueue {
  type Key<!T> = T -> real

  function Parent(i: nat): (p: nat)
    ensures i > 0 ==> p < i && (i == 2 * p + 1 || i == 2 * p + 2)
  {
    if i == 0 then 0 else (i - 1) / 2
  }

  /** The edge above `i` is in order. */
  ghost predicate InOrder<T>(key: Key<T>, h: seq<T>, i: nat)
    requires 0 < i < |h|
  {
    key(h[Parent(i)]) <= key(h[i])
  }

  /** Every edge of the tree at or below `start` is in order. */
  ghost predicate HeapFrom<T>(key: Key<T>, h: seq<T>, start: nat) {
    forall i :: 0 < i < |h| && Parent(i) >= start ==> InOrder(key, h, i)
  }

  ghost predicate Heap<T>(key: Key<T>, h: seq<T>) { HeapFrom(key, h, 0) }

  function Swap<T>(h: seq<T>, i: nat, j: nat): (r: seq<T>)
    requires i < |h| && j < |h|
    ensures |r| == |h|
  {
    h[i := h[j]][j := h[i]]
  }

  /** Is `pos` in the subtree of `start`? */
  ghost predicate Below(start: nat, pos: nat): (b: bool)
    ensures b ==> start <= pos
  {
    pos == start || (pos > start && Below(start, Parent(pos)))
  }

  /** `_siftdown(heap, start, pos)`: towards the root. */
  function SiftDown<T>(key: Key<T>, h: seq<T>, start: nat, pos: nat): (r: seq<T>)
    requires pos < |h|
    ensures |r| == |h|
    decreases pos
  {
    if pos > start && key(h[pos]) < key(h[Parent(pos)])
    then SiftDown(key, Swap(h, pos, Parent(pos)), start, Parent(pos))
    else h
  }

  /** The smaller child of `pos`, and the right one of two equals. */
  function Child<T>(key: Key<T>, h: seq<T>, pos: nat): (c: nat)
    requires 2 * pos + 1 < |h|
    ensures pos < c < |h| && Parent(c) == pos
    ensures forall i :: 0 < i < |h| && Parent(i) == pos ==> key(h[c]) <= key(h[i])
  {
    var left := 2 * pos + 1;
    if left + 1 < |h| && !(key(h[left]) < key(h[left + 1])) then left + 1 else left
  }

  /** The descent of `_siftup`: the smaller child rises until the item at `pos` is in a leaf. */
  function Descend<T>(key: Key<T>, h: seq<T>, pos: nat): (r: (seq<T>, nat))
    requires pos < |h|
    ensures |r.0| == |h| && r.1 < |h|
    decreases |h| - pos
  {
    if 2 * pos + 1 >= |h| then (h, pos)
    else Descend(key, Swap(h, pos, Child(key, h, pos)), Child(key, h, pos))
  }

  /** `_siftup(heap, start)`. */
  function SiftUp<T>(key: Key<T>, h: seq<T>, start: nat): (r: seq<T>)
    requires start < |h|
    ensures |r| == |h|
  {
    var (h1, leaf) := Descend(key, h, start);
    SiftDown(key, h1, start, leaf)
  }

  lemma SwapBag<T>(h: seq<T>, i: nat, j: nat)
    requires i < |h| && j < |h|
    ensures multiset(Swap(h, i, j)) == multiset(h)
  {}

  lemma SiftDownBag<T>(key: Key<T>, h: seq<T>, start: nat, pos: nat)
    requires pos < |h|
    ensures multiset(SiftDown(key, h, start, pos)) == multiset(h)
    decreases pos
  {
    if pos > start && key(h[pos]) < key(h[Parent(pos)]) {
      SwapBag(h, pos, Parent(pos));
      SiftDownBag(key, Swap(h, pos, Parent(pos)), start, Parent(pos));
    }
  }

  lemma SiftUpBag<T>(key: Key<T>, h: seq<T>, start: nat)
    requires start < |h|
    ensures multiset(SiftUp(key, h, start)) == multiset(h)
  {
    DescendBag(key, h, start);
    var (h1, leaf) := Descend(key, h, start);
    SiftDownBag(key, h1, start, leaf);
  }

  lemma DescendBag<T>(key: Key<T>, h: seq<T>, pos: nat)
    requires pos < |h|
    ensures multiset(Descend(key, h, pos).0) == multiset(h)
    decreases |h| - pos
  {
    if 2 * pos + 1 < |h| {
      var child := Child(key, h, pos);
      SwapBag(h, pos, child);
      DescendBag(key, Swap(h, pos, child), child);
    }
  }

  function Push<T>(key: Key<T>, h: seq<T>, x: T): (r: seq<T>)
    ensures multiset(r) == multiset(h) + multiset{x}
  {
    SiftDownBag(key, h + [x], 0, |h|);
    SiftDown(key, h + [x], 0, |h|)
  }

  /** What is left after `heappop`, which returns `h[0]`. */
  function Pop<T>(key: Key<T>, h: seq<T>): (r: seq<T>)
    requires h != []
    ensures multiset(r) == multiset(h) - multiset{h[0]} && |r| == |h| - 1
  {
    var last := |h| - 1;
    assert h == h[..last] + [h[last]];
    if last == 0 then []
    else
      assert h[..last][0 := h[last]] == [h[last]] + h[1..last] && h[..last] == [h[0]] + h[1..last];
      SiftUpBag(key, h[..last][0 := h[last]], 0);
      SiftUp(key, h[..last][0 := h[last]], 0)
  }

  function HeapifyFrom<T>(key: Key<T>, h: seq<T>, i: nat): (r: seq<T>)
    requires i <= |h|
    ensures multiset(r) == multiset(h)
    decreases i
  {
    if i == 0 then h
    else
      SiftUpBag(key, h, i - 1);
      HeapifyFrom(key, SiftUp(key, h, i - 1), i - 1)
  }

  function Heapify<T>(key: Key<T>, h: seq<T>): (r: seq<T>)
    ensures multiset(r) == multiset(h)
  {
    HeapifyFrom(key, h, |h| / 2)
  }

  // ----- Why they keep the root coolest -----

  /** In order below `start` but for the edges at the hole `pos`, and in order across the hole. */
  ghost predicate HoleAt<T>(key: Key<T>, h: seq<T>, start: nat, pos: nat) {
    && pos < |h| && Below(start, pos)
    && (forall i :: 0 < i < |h| && Parent(i) >= start && i != pos && Parent(i) != pos ==> InOrder(key, h, i))
    && (forall i :: 0 < i < |h| && Parent(i) == pos && pos > start ==> key(h[Parent(pos)]) <= key(h[i]))
  }

  /** The item in the hole is no hotter than its children: only the edge above it may be wrong. */
  ghost predicate ChildrenInOrder<T>(key: Key<T>, h: seq<T>, pos: nat) {
    forall i :: 0 < i < |h| && Parent(i) == pos ==> InOrder(key, h, i)
  }

  lemma SiftDownHeap<T>(key: Key<T>, h: seq<T>, start: nat, pos: nat)
    requires HoleAt(key, h, start, pos) && ChildrenInOrder(key, h, pos)
    ensures HeapFrom(key, SiftDown(key, h, start, pos), start)
    decreases pos
  {
    var up := Parent(pos);
    if pos > start && key(h[pos]) < key(h[up]) {
      var h1 := Swap(h, pos, up);
      assert up > start ==> InOrder(key, h, up) && Parent(up) != up;
      forall i | 0 < i < |h1| && Parent(i) >= start
        ensures i != up && Parent(i) != up ==> InOrder(key, h1, i)
        ensures Parent(i) == up ==> InOrder(key, h1, i)
        ensures Parent(i) == up && up > start ==> key(h1[Parent(up)]) <= key(h1[i])
      {
        assert i != pos && Parent(i) != pos ==> InOrder(key, h, i);
      }
      SiftDownHeap(key, h1, start, up);
    }
  }

  lemma DescendOnce<T>(key: Key<T>, h: seq<T>, start: nat, pos: nat)
    requires HoleAt(key, h, start, pos) && 2 * pos + 1 < |h|
    ensures HoleAt(key, Swap(h, pos, Child(key, h, pos)), start, Child(key, h, pos))
  {
    var child := Child(key, h, pos);
    var h1 := Swap(h, pos, child);
    assert Below(start, child);
    forall i | 0 < i < |h1| && Parent(i) == child ensures key(h1[pos]) <= key(h1[i]) {
      assert InOrder(key, h, i);
    }
    forall i | 0 < i < |h1| && Parent(i) >= start && i != child && Parent(i) != child
      ensures InOrder(key, h1, i)
    {
      if i != pos && Parent(i) != pos {
        assert InOrder(key, h, i);
      }
    }
  }

  lemma DescendHeap<T>(key: Key<T>, h: seq<T>, start: nat, pos: nat)
    requires HoleAt(key, h, start, pos)
    ensures var d := Descend(key, h, pos);
      HoleAt(key, d.0, start, d.1) && ChildrenInOrder(key, d.0, d.1)
    decreases |h| - pos
  {
    if 2 * pos + 1 < |h| {
      DescendOnce(key, h, start, pos);
      DescendHeap(key, Swap(h, pos, Child(key, h, pos)), start, Child(key, h, pos));
    }
  }

  /** Sifting an item in at `start`, whose two subtrees are heaps, makes a heap of the whole. */
  lemma SiftUpHeap<T>(key: Key<T>, h: seq<T>, start: nat)
    requires start < |h| && HeapFrom(key, h, start + 1)
    ensures HeapFrom(key, SiftUp(key, h, start), start)
  {
    DescendHeap(key, h, start, start);
    var (h1, leaf) := Descend(key, h, start);
    SiftDownHeap(key, h1, start, leaf);
  }

  lemma RootReaches(pos: nat)
    ensures Below(0, pos)
    decreases pos
  {
    if pos > 0 { RootReaches(Parent(pos)); }
  }

  lemma PushHeap<T>(key: Key<T>, h: seq<T>, x: T)
    requires Heap(key, h)
    ensures Heap(key, Push(key, h, x))
  {
    RootReaches(|h|);
    SiftDownHeap(key, h + [x], 0, |h|);
  }

  lemma PopHeap<T>(key: Key<T>, h: seq<T>)
    requires Heap(key, h) && h != []
    ensures Heap(key, Pop(key, h))
  {
    if |h| > 1 {
      SiftUpHeap(key, h[..|h| - 1][0 := h[|h| - 1]], 0);
    }
  }

  lemma HeapifyHeap<T>(key: Key<T>, h: seq<T>, i: nat)
    requires i <= |h| && HeapFrom(key, h, i)
    ensures Heap(key, HeapifyFrom(key, h, i))
    decreases i
  {
    if i > 0 {
      SiftUpHeap(key, h, i - 1);
      HeapifyHeap(key, SiftUp(key, h, i - 1), i - 1);
    }
  }

  /** `heapify` makes a heap of any list: the second half of it, having no children, is one already. */
  lemma HeapifyIsHeap<T>(key: Key<T>, h: seq<T>)
    ensures Heap(key, Heapify(key, h)) && multiset(Heapify(key, h)) == multiset(h)
  {
    forall i | 0 < i < |h| && Parent(i) >= |h| / 2
      ensures InOrder(key, h, i)
    {
      assert i <= 2 * Parent(i) + 2;
    }
    HeapifyHeap(key, h, |h| / 2);
  }

  /** The root of a heap is no hotter than any member. */
  lemma RootIsMin<T>(key: Key<T>, h: seq<T>, i: nat)
    requires Heap(key, h) && i < |h|
    ensures key(h[0]) <= key(h[i])
    decreases i
  {
    if i > 0 { RootIsMin(key, h, Parent(i)); }
  }
}
