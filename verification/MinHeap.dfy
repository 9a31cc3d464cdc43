/**
 The indexed binary heap with mutable keys (src/util/min-heap.ts). Keys are read through a
 function that may change between calls; the index is the inverse of the heap array.
 */
module MinHeap {
  import opened Collections

  // ---------------------------------------------------------------- specification functions

  function Parent(i: nat): nat
    requires i > 0
  {
    (i - 1) / 2
  }

  function Swapped<T>(s: seq<T>, i: nat, j: nat): seq<T>
    requires i < |s| && j < |s|
  {
    s[i := s[j]][j := s[i]]
  }

  function SiftedUp<T>(s: seq<T>, i: nat, key: T -> int): seq<T>
    requires i < |s|
    decreases i
  {
    if i == 0 || key(s[i]) >= key(s[Parent(i)]) then s
    else SiftedUp(Swapped(s, i, Parent(i)), Parent(i), key)
  }

  /** The position with the least key among `i` and its children, the leftmost in case of ties. */
  function Smallest<T>(s: seq<T>, i: nat, key: T -> int): (m: nat)
    requires i < |s|
    ensures m < |s| && (m == i || (m > i && Parent(m) == i))
  {
    var l, r := 2 * i + 1, 2 * i + 2;
    var m := if l < |s| && key(s[l]) < key(s[i]) then l else i;
    if r < |s| && key(s[r]) < key(s[m]) then r else m
  }

  /** No position among `i` and its children has a lesser key, and of equal ones the first is taken. */
  lemma SmallestIsFirst<T>(s: seq<T>, i: nat, key: T -> int, j: nat)
    requires i < |s| && j < |s| && (j == i || (j > 0 && Parent(j) == i))
    ensures var m := Smallest(s, i, key);
            key(s[m]) <= key(s[j]) && (key(s[m]) == key(s[j]) ==> m <= j)
  {
    assert j == i || j == 2 * i + 1 || j == 2 * i + 2;
  }

  function SiftedDown<T>(s: seq<T>, i: nat, key: T -> int): seq<T>
    requires i < |s|
    decreases |s| - i
  {
    var m := Smallest(s, i, key);
    if m == i then s else SiftedDown(Swapped(s, i, m), m, key)
  }

  lemma {:induction false} SiftedUpLength<T>(s: seq<T>, i: nat, key: T -> int)
    requires i < |s|
    ensures |SiftedUp(s, i, key)| == |s| && multiset(SiftedUp(s, i, key)) == multiset(s)
    decreases i
  {
    if i > 0 && key(s[i]) < key(s[Parent(i)]) {
      SiftedUpLength(Swapped(s, i, Parent(i)), Parent(i), key);
    }
  }

  lemma {:induction false} SiftedDownLength<T>(s: seq<T>, i: nat, key: T -> int)
    requires i < |s|
    ensures |SiftedDown(s, i, key)| == |s| && multiset(SiftedDown(s, i, key)) == multiset(s)
    decreases |s| - i
  {
    var m := Smallest(s, i, key);
    if m != i {
      SiftedDownLength(Swapped(s, i, m), m, key);
    }
  }

  function Repaired<T>(s: seq<T>, i: nat, key: T -> int): seq<T>
    requires i < |s|
  {
    SiftedDownLength(s, i, key);
    SiftedUp(SiftedDown(s, i, key), i, key)
  }

  function Pushed<T>(s: seq<T>, item: T, key: T -> int): seq<T> {
    SiftedUp(s + [item], |s|, key)
  }

  function RemovedAt<T>(s: seq<T>, i: nat, key: T -> int): seq<T>
    requires i < |s|
  {
    var n := |s| - 1;
    if i == n then s[..n] else Repaired(s[..n][i := s[n]], i, key)
  }

  // ---------------------------------------------------------------- heap order

  ghost predicate OrderedAt<T>(s: seq<T>, key: T -> int, i: nat)
    requires i < |s|
  {
    i > 0 ==> key(s[Parent(i)]) <= key(s[i])
  }

  ghost predicate HeapOrdered<T>(s: seq<T>, key: T -> int) {
    forall i :: 0 <= i < |s| ==> OrderedAt(s, key, i)
  }

  /** The children of `i` are not below the parent of `i`. */
  ghost predicate Bridged<T>(s: seq<T>, key: T -> int, i: nat, c: nat)
    requires i < |s| && c < |s|
  {
    i > 0 && c > 0 && Parent(c) == i ==> key(s[Parent(i)]) <= key(s[c])
  }

  /** Heap order up to the item at `i`, whose key may be anything. */
  ghost predicate OrderedBut<T>(s: seq<T>, key: T -> int, i: nat)
    requires i < |s|
  {
    && (forall j :: 0 <= j < |s| && j != i && (j == 0 || Parent(j) != i) ==> OrderedAt(s, key, j))
    && forall c :: 0 <= c < |s| ==> Bridged(s, key, i, c)
  }

  ghost predicate ParentsOf<T>(s: seq<T>, key: T -> int, i: nat)
    requires i < |s|
  {
    forall c :: 0 < c < |s| && Parent(c) == i ==> OrderedAt(s, key, c)
  }

  lemma {:induction false} SiftUpRestores<T>(s: seq<T>, i: nat, key: T -> int)
    requires i < |s| && OrderedBut(s, key, i) && ParentsOf(s, key, i)
    ensures |SiftedUp(s, i, key)| == |s| && HeapOrdered(SiftedUp(s, i, key), key)
    decreases i
  {
    if i == 0 || key(s[i]) >= key(s[Parent(i)]) {
      forall j | 0 <= j < |s| ensures OrderedAt(s, key, j) {}
    } else {
      var p := Parent(i);
      var t := Swapped(s, i, p);
      assert t[p] == s[i] && t[i] == s[p];
      assert OrderedAt(s, key, p);
      forall j | 0 <= j < |t| && j != p ensures OrderedAt(t, key, j) {
        assert OrderedAt(s, key, j) || j == i;
        assert Bridged(s, key, i, j);
      }
      forall c | 0 <= c < |t| ensures Bridged(t, key, p, c) {
        if p > 0 && c > 0 && Parent(c) == p {
          assert OrderedAt(s, key, c) || c == i;
        }
      }
      SiftUpRestores(t, p, key);
    }
  }

  lemma {:induction false} SiftDownRestores<T>(s: seq<T>, i: nat, key: T -> int)
    requires i < |s| && OrderedBut(s, key, i) && OrderedAt(s, key, i)
    ensures |SiftedDown(s, i, key)| == |s| && HeapOrdered(SiftedDown(s, i, key), key)
    decreases |s| - i
  {
    var m := Smallest(s, i, key);
    if m == i {
      forall j | 0 <= j < |s| ensures OrderedAt(s, key, j) {}
    } else {
      var t := Swapped(s, i, m);
      assert t[i] == s[m] && t[m] == s[i];
      assert Bridged(s, key, i, m);
      forall j | 0 <= j < |t| && j != m && (j == 0 || Parent(j) != m) ensures OrderedAt(t, key, j) {
        assert j != i && (j == 0 || Parent(j) != i) ==> OrderedAt(s, key, j);
      }
      forall c | 0 <= c < |t| ensures Bridged(t, key, m, c) {
        if c > 0 && Parent(c) == m {
          assert OrderedAt(s, key, c);
        }
      }
      SiftDownRestores(t, m, key);
    }
  }

  /**
   After one item's key changed, sifting down and then up from its position restores heap order; the
   second sift does nothing when the item moved down.
   */
  lemma RepairRestores<T>(s: seq<T>, i: nat, key: T -> int)
    requires i < |s| && OrderedBut(s, key, i)
    ensures |Repaired(s, i, key)| == |s| && HeapOrdered(Repaired(s, i, key), key)
    ensures SiftedDown(s, i, key) != s ==> Repaired(s, i, key) == SiftedDown(s, i, key)
  {
    if OrderedAt(s, key, i) {
      SiftDownRestores(s, i, key);
      assert OrderedAt(SiftedDown(s, i, key), key, i);
    } else {
      assert forall c :: 0 < c < |s| && Parent(c) == i ==> Bridged(s, key, i, c);
      assert Smallest(s, i, key) == i;
      forall c | 0 < c < |s| && Parent(c) == i ensures OrderedAt(s, key, c) {
        assert Bridged(s, key, i, c);
      }
      SiftUpRestores(s, i, key);
    }
  }

  lemma PushRestores<T>(s: seq<T>, item: T, key: T -> int)
    requires HeapOrdered(s, key)
    ensures |Pushed(s, item, key)| == |s| + 1 && HeapOrdered(Pushed(s, item, key), key)
    ensures multiset(Pushed(s, item, key)) == multiset(s) + multiset{item}
  {
    var t := s + [item];
    forall j | 0 <= j < |s| ensures OrderedAt(t, key, j) {
      assert OrderedAt(s, key, j);
    }
    SiftUpRestores(t, |s|, key);
    SiftedUpLength(t, |s|, key);
  }

  lemma RemoveRestores<T>(s: seq<T>, i: nat, key: T -> int)
    requires i < |s| && HeapOrdered(s, key)
    ensures |RemovedAt(s, i, key)| == |s| - 1 && HeapOrdered(RemovedAt(s, i, key), key)
  {
    var n := |s| - 1;
    if i == n {
      forall j | 0 <= j < n ensures OrderedAt(s[..n], key, j) {
        assert OrderedAt(s, key, j);
      }
    } else {
      var t := s[..n][i := s[n]];
      forall j | 0 <= j < n && j != i && (j == 0 || Parent(j) != i) ensures OrderedAt(t, key, j) {
        assert OrderedAt(s, key, j);
      }
      forall c | 0 <= c < n ensures Bridged(t, key, i, c) {
        assert OrderedAt(s, key, c) && OrderedAt(s, key, i);
      }
      RepairRestores(t, i, key);
    }
  }

  /** Whatever the keys, a removal takes out exactly the item at `i`. */
  lemma RemoveTakesOne<T>(s: seq<T>, i: nat, key: T -> int)
    requires i < |s|
    ensures multiset(RemovedAt(s, i, key)) == multiset(s) - multiset{s[i]} && |RemovedAt(s, i, key)| == |s| - 1
  {
    var n := |s| - 1;
    assert s == s[..n] + [s[n]];
    if i != n {
      var t := s[..n][i := s[n]];
      RepairKeepsItems(t, i, key);
    }
  }

  lemma RepairKeepsItems<T>(s: seq<T>, i: nat, key: T -> int)
    requires i < |s|
    ensures |Repaired(s, i, key)| == |s| && multiset(Repaired(s, i, key)) == multiset(s)
  {
    SiftedDownLength(s, i, key);
    SiftedUpLength(SiftedDown(s, i, key), i, key);
  }

  /** The root of an ordered heap is a global minimum. */
  lemma {:induction false} PeekIsLeast<T>(s: seq<T>, key: T -> int, j: nat)
    requires HeapOrdered(s, key) && j < |s|
    ensures key(s[0]) <= key(s[j])
    decreases j
  {
    if j > 0 {
      assert OrderedAt(s, key, j);
      PeekIsLeast(s, key, Parent(j));
    }
  }

  /** A heap ordered under `was` is ordered up to the one item whose key changed since. */
  lemma OneKeyChanged<T(!new)>(s: seq<T>, i: nat, was: T -> int, key: T -> int)
    requires i < |s| && Distinct(s) && HeapOrdered(s, was)
    requires forall x: T :: x in s && x != s[i] ==> key(x) == was(x)
    ensures OrderedBut(s, key, i)
  {
    forall j | 0 <= j < |s| && j != i && (j == 0 || Parent(j) != i) ensures OrderedAt(s, key, j) {
      assert OrderedAt(s, was, j);
    }
    forall c | 0 <= c < |s| ensures Bridged(s, key, i, c) {
      assert OrderedAt(s, was, c) && OrderedAt(s, was, i);
    }
  }

  // ---------------------------------------------------------------- the heap itself

  class MinHeap<T(==, !new)> {
    var heap: seq<T>
    var indexMap: map<T, nat>

    /** The index sends each item to its position, and nothing else. */
    ghost predicate Valid()
      reads this
    {
      && (forall i :: 0 <= i < |heap| ==> heap[i] in indexMap && indexMap[heap[i]] == i)
      && (forall x :: x in indexMap ==> indexMap[x] < |heap| && heap[indexMap[x]] == x)
    }

    constructor ()
      ensures Valid() && heap == []
    {
      heap, indexMap := [], map[];
    }

    lemma IndexIsPosition(item: T)
      requires Valid()
      ensures item in indexMap <==> item in heap
      ensures item in heap ==> indexMap[item] == PositionOf(heap, item)
      ensures Distinct(heap)
    {
      assert item in heap ==> heap[PositionOf(heap, item)] in indexMap;
    }

    method Swap(i: nat, j: nat)
      requires Valid() && i < |heap| && j < |heap|
      modifies this
      ensures Valid() && heap == Swapped(old(heap), i, j)
    {
      var a, b := heap[i], heap[j];
      heap := heap[i := b];
      heap := heap[j := a];
      indexMap := indexMap[a := j];
      indexMap := indexMap[b := i];
    }

    method SiftUp(i: nat, key: T -> int)
      requires Valid() && i < |heap|
      modifies this
      ensures Valid() && heap == SiftedUp(old(heap), i, key)
    {
      var idx: nat := i;
      while idx > 0
        invariant Valid() && idx < |heap| == |old(heap)|
        invariant SiftedUp(old(heap), i, key) == SiftedUp(heap, idx, key)
      {
        var p := (idx - 1) / 2;
        if key(heap[idx]) >= key(heap[p]) {
          break;
        }
        Swap(idx, p);
        idx := p;
      }
    }

    method SiftDown(i: nat, key: T -> int)
      requires Valid() && i < |heap|
      modifies this
      ensures Valid() && heap == SiftedDown(old(heap), i, key) && |heap| == |old(heap)|
    {
      var idx := i;
      while true
        invariant Valid() && idx < |heap| == |old(heap)|
        invariant SiftedDown(old(heap), i, key) == SiftedDown(heap, idx, key)
        decreases |heap| - idx
      {
        var l := 2 * idx + 1;
        var r := l + 1;
        var smallest := idx;
        if l < |heap| && key(heap[l]) < key(heap[smallest]) {
          smallest := l;
        }
        if r < |heap| && key(heap[r]) < key(heap[smallest]) {
          smallest := r;
        }
        if smallest == idx {
          break;
        }
        Swap(idx, smallest);
        idx := smallest;
      }
    }

    method Push(item: T, key: T -> int)
      requires Valid() && item !in heap
      modifies this
      ensures Valid() && heap == Pushed(old(heap), item, key)
    {
      heap := heap + [item];
      indexMap := indexMap[item := |heap| - 1];
      SiftUp(|heap| - 1, key);
    }

    method Remove(item: T, key: T -> int)
      requires Valid()
      modifies this
      ensures Valid()
      ensures item !in old(heap) ==> heap == old(heap)
      ensures item in old(heap) ==> heap == RemovedAt(old(heap), PositionOf(old(heap), item), key)
    {
      hide SiftedDown, SiftedUp, PositionOf;
      IndexIsPosition(item);
      if item !in indexMap {
        return;
      }
      var idx := indexMap[item];
      TakeOut(idx);
      if idx < |heap| {
        SiftDown(idx, key);
        SiftUp(idx, key);
      }
    }

    /** The last item takes the place of the one at `idx`. */
    method TakeOut(idx: nat)
      requires Valid() && idx < |heap|
      modifies this
      ensures Valid() && |heap| == |old(heap)| - 1
      ensures heap == if idx == |heap| then old(heap)[..|heap|] else old(heap)[..|heap|][idx := old(heap)[|heap|]]
    {
      var item, last := heap[idx], heap[|heap| - 1];
      heap := heap[..|heap| - 1];
      indexMap := indexMap - {item};
      if idx < |heap| {
        heap := heap[idx := last];
        indexMap := indexMap[last := idx];
      }
    }

    method Update(item: T, key: T -> int)
      requires Valid()
      modifies this
      ensures Valid()
      ensures item !in old(heap) ==> heap == old(heap)
      ensures item in old(heap) ==> heap == Repaired(old(heap), PositionOf(old(heap), item), key)
    {
      IndexIsPosition(item);
      if item !in indexMap {
        return;
      }
      var idx := indexMap[item];
      SiftDown(idx, key);
      SiftUp(idx, key);
    }

    method Peek() returns (item: Option<T>)
      ensures item == if heap == [] then None else Some(heap[0])
    {
      return if heap == [] then None else Some(heap[0]);
    }

    method Clear()
      modifies this
      ensures Valid() && heap == []
    {
      heap, indexMap := [], map[];
    }
  }
}
