/**
 The least-recently-used cache (src/util/cache/lru.ts): a doubly linked list of nodes, most
 recently used first, and a map from keys to nodes.
 */
module Lru {
  import opened Collections

  // ---------------------------------------------------------------- recency lists

  /** Keys with their values, most recently used first. */
  type Recency<T> = seq<(string, T)>

  function Find<T>(s: Recency<T>, key: string): (i: nat)
    ensures i <= |s|
    ensures i < |s| ==> s[i].0 == key
    ensures forall k :: 0 <= k < i ==> s[k].0 != key
  {
    FirstIndex(s, (e: (string, T)) => e.0 == key)
  }

  predicate Has<T>(s: Recency<T>, key: string) { Find(s, key) < |s| }

  function Lookup<T>(s: Recency<T>, key: string): Option<T> {
    if Has(s, key) then Some(s[Find(s, key)].1) else None
  }

  function Got<T>(s: Recency<T>, key: string): Recency<T> {
    var i := Find(s, key);
    if i < |s| then [s[i]] + RemoveAt(s, i) else s
  }

  function Put<T>(s: Recency<T>, key: string, value: T, max: nat): Recency<T> {
    var i := Find(s, key);
    if i < |s| then [(key, value)] + RemoveAt(s, i)
    else if |s| < max then [(key, value)] + s
    else ([(key, value)] + s)[..max]
  }

  function Removed<T>(s: Recency<T>, key: string): Recency<T> {
    var i := Find(s, key);
    if i < |s| then RemoveAt(s, i) else s
  }

  // ---------------------------------------------------------------- the linked implementation

  class Node<T> {
    const key: string
    var value: T
    var prev: Node?<T>
    var next: Node?<T>

    constructor (key: string, value: T, next: Node?<T>)
      ensures this.key == key && this.value == value && prev == null && this.next == next
    {
      this.key, this.value, this.prev, this.next := key, value, null, next;
    }
  }

  function Before<T>(nodes: seq<Node<T>>, i: nat): Node?<T>
    requires i < |nodes|
  {
    if i == 0 then null else nodes[i - 1]
  }

  function After<T>(nodes: seq<Node<T>>, i: nat): Node?<T>
    requires i < |nodes|
  {
    if i == |nodes| - 1 then null else nodes[i + 1]
  }

  ghost predicate LinkedAt<T>(nodes: seq<Node<T>>, i: nat)
    requires i < |nodes|
    reads nodes`prev, nodes`next
  {
    nodes[i].prev == Before(nodes, i) && nodes[i].next == After(nodes, i)
  }

  /** The map sends each key to the one node that carries it. */
  ghost predicate Indexes<T>(index: map<string, Node<T>>, nodes: seq<Node<T>>) {
    && (forall n :: n in nodes ==> n.key in index && index[n.key] == n)
    && (forall k :: k in index ==> index[k] in nodes && index[k].key == k)
  }

  lemma IndexesWithout<T>(index: map<string, Node<T>>, nodes: seq<Node<T>>, i: nat)
    requires Indexes(index, nodes) && Distinct(nodes) && i < |nodes|
    ensures Indexes(index - {nodes[i].key}, RemoveAt(nodes, i))
  {
    assert nodes[i] in nodes;
    WithoutOne(nodes, i);
  }

  lemma IndexesFront<T>(index: map<string, Node<T>>, nodes: seq<Node<T>>, node: Node<T>)
    requires Indexes(index, nodes) && node.key !in index
    ensures Indexes(index[node.key := node], [node] + nodes)
  {
  }

  lemma IndexesMoved<T>(index: map<string, Node<T>>, nodes: seq<Node<T>>, i: nat)
    requires Indexes(index, nodes) && Distinct(nodes) && i < |nodes|
    ensures Indexes(index, [nodes[i]] + RemoveAt(nodes, i))
  {
    assert nodes[i] in nodes;
    WithoutOne(nodes, i);
  }

  ghost function Bindings<T>(nodes: seq<Node<T>>): (r: Recency<T>)
    reads nodes`value
    ensures |r| == |nodes|
  {
    if nodes == [] then [] else [(nodes[0].key, nodes[0].value)] + Bindings(nodes[1..])
  }

  lemma {:induction false} BindingsAt<T>(nodes: seq<Node<T>>)
    ensures forall i :: 0 <= i < |nodes| ==> Bindings(nodes)[i] == (nodes[i].key, nodes[i].value)
  {
    if nodes != [] {
      BindingsAt(nodes[1..]);
    }
  }

  lemma BindingsFront<T>(node: Node<T>, nodes: seq<Node<T>>)
    ensures Bindings([node] + nodes) == [(node.key, node.value)] + Bindings(nodes)
  {
    assert ([node] + nodes)[1..] == nodes;
  }

  lemma BindingsWithout<T>(nodes: seq<Node<T>>, i: nat)
    requires i < |nodes|
    ensures Bindings(RemoveAt(nodes, i)) == RemoveAt(Bindings(nodes), i)
  {
    hide Bindings;
    var rest := RemoveAt(nodes, i);
    BindingsAt(nodes);
    BindingsAt(rest);
    forall k | 0 <= k < |rest| ensures Bindings(rest)[k] == RemoveAt(Bindings(nodes), i)[k] {
      assert rest[k] == nodes[if k < i then k else k + 1];
    }
  }

  lemma DistinctWithout<T>(nodes: seq<Node<T>>, i: nat)
    requires Distinct(nodes) && i < |nodes|
    ensures Distinct(RemoveAt(nodes, i))
  {
    var rest := RemoveAt(nodes, i);
    forall a, b | 0 <= a < b < |rest| ensures rest[a] != rest[b] {
      assert rest[a] == nodes[if a < i then a else a + 1] && rest[b] == nodes[if b < i then b else b + 1];
    }
  }

  lemma WithoutOne<T>(nodes: seq<Node<T>>, i: nat)
    requires Distinct(nodes) && i < |nodes|
    ensures forall n :: n in RemoveAt(nodes, i) <==> n in nodes && n != nodes[i]
  {
    var rest := RemoveAt(nodes, i);
    forall n | n in nodes && n != nodes[i] ensures n in rest {
      var k :| 0 <= k < |nodes| && nodes[k] == n;
      assert rest[if k < i then k else k - 1] == n;
    }
  }

  lemma RemoveReplaced<T>(s: seq<T>, i: nat, x: T)
    requires i < |s|
    ensures RemoveAt(s[i := x], i) == RemoveAt(s, i)
  {
    assert s[i := x][..i] == s[..i] && s[i := x][i + 1..] == s[i + 1..];
  }

  lemma HeadInPlace<T>(s: seq<T>)
    requires s != []
    ensures [s[0]] + RemoveAt(s, 0) == s
  {
  }

  /** The links of the `k`-th node once the `i`-th is bypassed. */
  ghost predicate SkippedAt<T>(nodes: seq<Node<T>>, i: nat, k: nat)
    requires i < |nodes| && k < |nodes|
    reads nodes`prev, nodes`next
  {
    && nodes[k].prev == Before(nodes, if k == i + 1 then i else k)
    && nodes[k].next == After(nodes, if k + 1 == i then i else k)
  }

  lemma EndsWithout<T>(nodes: seq<Node<T>>, i: nat)
    requires i < |nodes|
    ensures var rest := RemoveAt(nodes, i);
            && |rest| == |nodes| - 1
            && (rest != [] ==> rest[0] == nodes[if i == 0 then 1 else 0])
            && (rest != [] ==> rest[|rest| - 1] == nodes[if i == |rest| then i - 1 else |rest|])
  {
  }

  lemma SkippedEnds<T>(nodes: seq<Node<T>>, i: nat)
    requires i < |nodes| && SkippedAt(nodes, i, i)
    ensures nodes[i].prev == Before(nodes, i) && nodes[i].next == After(nodes, i)
  {
  }

  lemma SkippedIsLinked<T>(nodes: seq<Node<T>>, i: nat)
    requires i < |nodes|
    requires forall k :: 0 <= k < |nodes| ==> SkippedAt(nodes, i, k)
    ensures forall k :: 0 <= k < |RemoveAt(nodes, i)| ==> LinkedAt(RemoveAt(nodes, i), k)
  {
    var rest := RemoveAt(nodes, i);
    forall k | 0 <= k < |rest| ensures LinkedAt(rest, k) {
      var j := if k < i then k else k + 1;
      assert rest[k] == nodes[j] && SkippedAt(nodes, i, j);
    }
  }

  class LruCache<T> {
    const maxSize: nat
    var index: map<string, Node<T>>
    var head: Node?<T>
    var tail: Node?<T>
    var size: nat
    ghost var nodes: seq<Node<T>>
    ghost var footprint: set<Node<T>>

    /** The forward and the backward chain are `nodes` and its reverse, and both end in null. */
    ghost predicate Linked()
      reads `head, `tail, `nodes, nodes`prev, nodes`next
    {
      && Distinct(nodes)
      && head == (if nodes == [] then null else nodes[0])
      && tail == (if nodes == [] then null else nodes[|nodes| - 1])
      && forall i :: 0 <= i < |nodes| ==> LinkedAt(nodes, i)
    }

    ghost predicate Indexed()
      reads `index, `nodes
    {
      Indexes(index, nodes)
    }

    ghost predicate Owned()
      reads `nodes, `footprint
    {
      forall n :: n in nodes ==> n in footprint
    }

    ghost predicate Valid()
      reads this, footprint
    {
      Owned() && Linked() && Indexed() && size == |nodes| <= maxSize
    }

    ghost function Contents(): (r: Recency<T>)
      reads `nodes, nodes`value
      ensures |r| == |nodes|
    {
      Bindings(nodes)
    }

    constructor (maxSize: nat)
      ensures Valid() && Contents() == [] && this.maxSize == maxSize && footprint == {}
    {
      this.maxSize := maxSize;
      index, head, tail, size, nodes, footprint := map[], null, null, 0, [], {};
    }

    lemma ContentsAt(i: nat)
      requires i < |nodes|
      ensures Contents()[i] == (nodes[i].key, nodes[i].value)
    {
      BindingsAt(nodes);
    }

    lemma FoundInIndex(key: string)
      requires Valid()
      ensures key in index <==> Has(Contents(), key)
      ensures key in index ==> nodes[Find(Contents(), key)] == index[key]
    {
      var i := Find(Contents(), key);
      BindingsAt(nodes);
      assert forall j :: 0 <= j < |nodes| ==> Contents()[j].0 == nodes[j].key;
      if i < |nodes| {
        assert nodes[i] in nodes;
      }
    }

    lemma AtEnds(node: Node<T>, i: nat)
      requires Linked() && i < |nodes| && nodes[i] == node
      ensures node == head <==> i == 0
      ensures node == tail <==> i == |nodes| - 1
    {
    }

    lemma NotListed(node: Node<T>)
      requires Indexed() && node.key !in index
      ensures node !in nodes
    {
    }

    lemma DistinctNodes()
      requires Linked()
      ensures Distinct(nodes)
      ensures tail == if nodes == [] then null else nodes[|nodes| - 1]
    {
    }

    /** Leads both chains around the `i`-th node, whose own pointers stay as they were. */
    method Bypass(node: Node<T>, ghost i: nat)
      requires Linked() && i < |nodes| && nodes[i] == node
      modifies nodes`prev, nodes`next
      ensures forall k :: 0 <= k < |nodes| ==> SkippedAt(nodes, i, k)
    {
      assert LinkedAt(nodes, i);
      assert i > 0 ==> nodes[i - 1] in nodes;
      assert i + 1 < |nodes| ==> nodes[i + 1] in nodes;
      if node.prev != null { node.prev.next := node.next; }
      if node.next != null { node.next.prev := node.prev; }
      forall k | 0 <= k < |nodes| ensures SkippedAt(nodes, i, k) {
        assert old(LinkedAt(nodes, k));
      }
    }

    /** Takes the `i`-th node out of the chain; its own pointers are left as they were. */
    method Unlink(node: Node<T>, ghost i: nat)
      requires Linked() && i < |nodes| && nodes[i] == node
      modifies this`head, this`tail, this`nodes, nodes`prev, nodes`next
      ensures nodes == RemoveAt(old(nodes), i) && Linked()
      ensures Contents() == RemoveAt(old(Contents()), i)
    {
      hide Bindings, RemoveAt, SkippedAt, Distinct;
      AtEnds(node, i);
      Bypass(node, i);
      SkippedEnds(nodes, i);
      if node == head { head := node.next; }
      if node == tail { tail := node.prev; }
      BindingsWithout(nodes, i);
      DistinctWithout(nodes, i);
      EndsWithout(nodes, i);
      SkippedIsLinked(nodes, i);
      nodes := RemoveAt(nodes, i);
    }

    /** Puts a detached node in front of the chain. */
    method LinkFront(node: Node<T>)
      requires Linked() && node !in nodes
      modifies this`head, this`tail, this`nodes, node`prev, node`next, nodes`prev
      ensures nodes == [node] + old(nodes) && Linked()
      ensures Contents() == [(node.key, node.value)] + old(Contents())
    {
      hide Bindings;
      node.prev := null;
      node.next := head;
      if head != null { head.prev := node; }
      head := node;
      if tail == null { tail := head; }
      ghost var was := nodes;
      BindingsFront(node, nodes);
      nodes := [node] + nodes;
      forall k | 0 <= k < |nodes| ensures LinkedAt(nodes, k) {
        if k > 0 {
          assert old(LinkedAt(nodes, k - 1));
          assert nodes[k] == was[k - 1] && nodes[k] != node;
        }
      }
    }

    method MoveToHead(node: Node<T>, ghost i: nat)
      requires Valid() && i < |nodes| && nodes[i] == node
      modifies this`head, this`tail, this`nodes, nodes`prev, nodes`next
      ensures Valid() && Contents() == [old(Contents())[i]] + RemoveAt(old(Contents()), i)
      ensures forall n :: n in nodes <==> n in old(nodes)
    {
      hide Linked, Find, Bindings, Indexes;
      AtEnds(node, i);
      ContentsAt(i);
      if node == head {
        HeadInPlace(Contents());
        return;
      }
      DistinctNodes();
      WithoutOne(nodes, i);
      IndexesMoved(index, nodes, i);
      Unlink(node, i);
      LinkFront(node);
    }

    method DropTail()
      requires Linked() && nodes != []
      modifies this`head, this`tail, this`nodes, nodes`next
      ensures Linked() && nodes == old(nodes)[..|old(nodes)| - 1]
      ensures Contents() == old(Contents())[..|old(nodes)| - 1]
    {
      hide Bindings;
      ghost var last := |nodes| - 1;
      BindingsWithout(nodes, last);
      assert RemoveAt(nodes, last) == nodes[..last];
      assert RemoveAt(Contents(), last) == Contents()[..last];
      assert LinkedAt(nodes, last);
      assert last > 0 ==> nodes[last - 1] in nodes;
      if tail.prev != null {
        tail := tail.prev;
        tail.next := null;
      } else {
        head, tail := null, null;
      }
      nodes := nodes[..last];
      forall k | 0 <= k < |nodes| ensures LinkedAt(nodes, k) {
        assert old(LinkedAt(nodes, k));
      }
    }

    method RemoveTail()
      requires Linked() && Indexed() && size == |nodes|
      modifies this`index, this`head, this`tail, this`size, this`nodes, nodes`next
      ensures Linked() && Indexed() && size == |nodes|
      ensures forall n :: n in nodes ==> n in old(nodes)
      ensures Contents() == if old(nodes) == [] then [] else old(Contents())[..|old(nodes)| - 1]
    {
      hide Linked, Indexes, Bindings;
      DistinctNodes();
      if tail == null {
        return;
      }
      ghost var last := |nodes| - 1;
      assert RemoveAt(nodes, last) == nodes[..last];
      IndexesWithout(index, nodes, last);
      index := index - {tail.key};
      DropTail();
      size := size - 1;
    }

    method Get(key: string) returns (value: Option<T>)
      requires Valid()
      modifies this, footprint
      ensures Valid() && footprint == old(footprint)
      ensures value == Lookup(old(Contents()), key) && Contents() == Got(old(Contents()), key)
    {
      hide Linked, Bindings;
      FoundInIndex(key);
      if key !in index {
        return None;
      }
      BindingsAt(nodes);
      MoveToHead(index[key], Find(Contents(), key));
      return Some(index[key].value);
    }

    method Set(key: string, value: T)
      requires Valid()
      modifies this, footprint
      ensures Valid() && Contents() == Put(old(Contents()), key, value, maxSize)
      ensures fresh(footprint - old(footprint))
    {
      FoundInIndex(key);
      if key in index {
        Refresh(key, value);
      } else {
        Insert(key, value);
      }
    }

    method Refresh(key: string, value: T)
      requires Valid() && key in index
      modifies this, footprint
      ensures Valid() && Contents() == Put(old(Contents()), key, value, maxSize)
      ensures footprint == old(footprint)
    {
      hide Linked, Indexes, Bindings, Find, RemoveAt;
      FoundInIndex(key);
      ghost var i := Find(Contents(), key);
      DistinctNodes();
      ContentsAt(i);
      RemoveReplaced(Contents(), i, (key, value));
      var node := index[key];
      SetValue(node, value, i);
      MoveToHead(node, i);
    }

    method SetValue(node: Node<T>, value: T, ghost i: nat)
      requires Distinct(nodes) && i < |nodes| && nodes[i] == node
      modifies node`value
      ensures Contents() == old(Contents())[i := (node.key, value)]
    {
      hide Bindings;
      BindingsAt(nodes);
      node.value := value;
      BindingsAt(nodes);
    }

    method Insert(key: string, value: T)
      requires Valid() && key !in index
      modifies this, footprint
      ensures Valid()
      ensures var grown := [(key, value)] + old(Contents());
              Contents() == if |grown| > maxSize then grown[..maxSize] else grown
      ensures fresh(footprint - old(footprint))
    {
      hide Linked, Indexed;
      ghost var added := PushFront(key, value);
      footprint := footprint + {added};
      if size > maxSize {
        RemoveTail();
      }
    }

    method PushFront(key: string, value: T) returns (ghost added: Node<T>)
      requires Valid() && key !in index
      modifies this, footprint
      ensures Linked() && Indexed() && size == |nodes|
      ensures Contents() == [(key, value)] + old(Contents())
      ensures fresh(added) && nodes == [added] + old(nodes)
      ensures footprint == old(footprint)
    {
      hide Linked, Indexes, Bindings;
      var node := new Node(key, value, head);
      assert Linked() && Contents() == old(Contents());
      NotListed(node);
      IndexesFront(index, nodes, node);
      LinkFront(node);
      index := index[key := node];
      size := size + 1;
      added := node;
    }

    method Remove(key: string)
      requires Valid()
      modifies this, footprint
      ensures Valid() && Contents() == Removed(old(Contents()), key)
      ensures footprint == old(footprint)
    {
      FoundInIndex(key);
      if key in index {
        Extract(index[key], Find(Contents(), key));
      }
    }

    /** Takes the `i`-th node out of the chain and of the map. */
    method Extract(node: Node<T>, ghost i: nat)
      requires Valid() && i < |nodes| && nodes[i] == node
      modifies this`index, this`head, this`tail, this`size, this`nodes, nodes`prev, nodes`next
      ensures Valid() && Contents() == RemoveAt(old(Contents()), i)
    {
      hide Linked, Indexes, Bindings;
      DistinctNodes();
      WithoutOne(nodes, i);
      IndexesWithout(index, nodes, i);
      Unlink(node, i);
      index := index - {node.key};
      size := size - 1;
    }

    method Clear()
      requires Valid()
      modifies this
      ensures Valid() && Contents() == [] && footprint == old(footprint)
    {
      index, head, tail, size, nodes := map[], null, null, 0, [];
    }

    /** The getter `size`. */
    method Size() returns (n: nat)
      requires Valid()
      ensures n == |Contents()|
    {
      return size;
    }
  }
}
