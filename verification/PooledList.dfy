/** The pooled doubly linked list: include/cuttle/cclist.h over the block pool of
    include/cuttle/ccheap.h, whose free blocks are kept in the ring of include/cuttle/ccfifo.h.
    Blocks are numbered; -1 is the null pointer. */
module PooledList {

  /** Position i of a ring of n slots that starts at first. */
  function Slot(first: nat, i: nat, n: nat): nat { if first + i < n then first + i else first + i - n }

  ghost predicate Different(s: seq<nat>) { forall i, j :: 0 <= i < j < |s| ==> s[i] != s[j] }

  // ----- the ring ------------------------------------------------------------------------

  class Ring {
    const items: array<nat>
    var size: nat
    var first: nat
    var last: nat
    ghost var contents: seq<nat>

    ghost predicate Valid()
      reads this, items
    {
      size == |contents| <= items.Length && first < items.Length + 1 && (items.Length > 0 ==> first < items.Length) &&
      last == (if items.Length == 0 then 0 else Slot(first, size, items.Length)) &&
      forall i :: 0 <= i < size ==> items[Slot(first, i, items.Length)] == contents[i]
    }

    /** ccfifo_init */
    constructor (capacity: nat)
      ensures Valid() && contents == [] && items.Length == capacity && fresh(items)
    {
      items := new nat[capacity];
      size, first, last, contents := 0, 0, 0, [];
    }

    /** ccfifo_push_bytes */
    method Push(x: nat) returns (ok: bool)
      requires Valid()
      modifies this, items
      ensures Valid() && ok == (old(size) < items.Length)
      ensures contents == if ok then old(contents) + [x] else old(contents)
    {
      if size >= items.Length { return false; }
      items[last] := x;
      contents := contents + [x];
      size := size + 1;
      last := last + 1;
      if last >= items.Length { last := 0; }
      return true;
    }

    /** ccfifo_pop_bytes */
    method Pop() returns (ok: bool, x: nat)
      requires Valid()
      modifies this
      ensures Valid() && ok == (old(contents) != [])
      ensures if ok then x == old(contents)[0] && contents == old(contents)[1..] else contents == []
    {
      if size == 0 { return false, 0; }
      x := items[first];
      ghost var was := contents;
      assert Slot(first, 0, items.Length) == first;
      contents := contents[1..];
      size := size - 1;
      first := first + 1;
      if first >= items.Length { first := 0; }
      return true, x;
    }
  }

  // ----- the list ------------------------------------------------------------------------

  datatype Node = Node(prev: int, next: int, item: int)

  /** What comes behind position i of the list, and in front of it. */
  function Behind(order: seq<nat>, i: int): int { if 0 <= i + 1 < |order| then order[i + 1] else -1 }

  function Before(order: seq<nat>, i: int): int { if 0 < i <= |order| then order[i - 1] else -1 }

  ghost predicate Linked(nodes: seq<Node>, order: seq<nat>, head: int, tail: int) {
    head == Behind(order, -1) && tail == Before(order, |order|) &&
    forall i {:trigger LinkedAt(nodes, order, i)} :: 0 <= i < |order| ==> LinkedAt(nodes, order, i)
  }

  ghost predicate LinkedAt(nodes: seq<Node>, order: seq<nat>, i: int)
    requires 0 <= i < |order|
  {
    order[i] < |nodes| && nodes[order[i]].next == Behind(order, i) && nodes[order[i]].prev == Before(order, i)
  }

  /** Every block is in the list or free, once. */
  ghost predicate Partition(order: seq<nat>, free: seq<nat>, n: nat) {
    Different(order) && Different(free) && |order| + |free| == n &&
    (forall i :: 0 <= i < |order| ==> order[i] < n) && (forall i :: 0 <= i < |free| ==> free[i] < n) &&
    (forall b :: b in order ==> b !in free) && forall b: nat :: b < n ==> b in order || b in free
  }

  function Without(s: seq<nat>, i: nat): seq<nat>
    requires i < |s|
  {
    s[..i] + s[i + 1..]
  }

  class List {
    const nodes: array<Node>
    const heap: Ring
    var head: int
    var tail: int
    ghost var order: seq<nat>     // the blocks in list order

    ghost predicate Valid()
      reads this, nodes, heap, heap.items
    {
      heap.Valid() && heap.items.Length == nodes.Length &&
      Linked(nodes[..], order, head, tail) && Partition(order, heap.contents, nodes.Length)
    }

    /** The items in list order. */
    ghost function Items(): seq<int>
      requires Valid()
      reads this, nodes, heap, heap.items
    {
      ItemsOf(nodes[..], order)
    }

    /** cclist_init and ccheap_init */
    constructor (capacity: nat)
      ensures Valid() && order == [] && nodes.Length == capacity && fresh(nodes) && fresh(heap) && fresh(heap.items)
    {
      nodes := new Node[capacity](_ => Node(-1, -1, 0));
      heap := new Ring(capacity);
      head, tail, order := -1, -1, [];
      new;
      for i := 0 to capacity
        invariant fresh(heap) && fresh(heap.items) && fresh(nodes)
        invariant heap.Valid() && heap.items.Length == capacity && |heap.contents| == i
        invariant forall k :: 0 <= k < i ==> heap.contents[k] == capacity - k - 1
        invariant head == -1 && tail == -1 && order == []
      {
        var _ := heap.Push(capacity - i - 1);
      }
      forall b: nat | b < capacity ensures b in heap.contents { assert heap.contents[capacity - b - 1] == b; }
    }

    /** cclist_push_back */
    method PushBack(x: int) returns (node: int)
      requires Valid()
      modifies this, nodes, heap, heap.items
      ensures Valid()
      ensures node == -1 <==> |old(order)| == nodes.Length
      ensures node == -1 ==> order == old(order) && nodes[..] == old(nodes[..])
      ensures node >= 0 ==> order == old(order) + [node] && Items() == old(Items()) + [x]
    {
      var after := tail;
      ghost var free := heap.contents;
      var ok, b := heap.Pop();
      if !ok { return -1; }
      node := b;
      ghost var was := nodes[..];
      if order != [] { assert LinkedAt(was, order, |order| - 1); }
      var next := -1;
      if head == -1 { head, tail := b, b; }
      if after != -1 {
        next := nodes[after].next;
        nodes[after] := nodes[after].(next := b);
        if after == tail { tail := b; }
      }
      nodes[b] := Node(after, next, x);
      TakenFirst(order, free, nodes.Length);
      LinkedMore(was, nodes[..], order, b, x, old(head), after);
      order := order + [b];
    }

    /** Following next from the head visits the items in order, following prev from the tail
        visits them in reverse. */
    method Walks() returns (forward: seq<int>, backward: seq<int>)
      requires Valid()
      ensures forward == Items() && backward == Backwards(Items())
    {
      forward := WalkForward(nodes, head, tail, order);
      backward := WalkBackward(nodes, head, tail, order);
    }

    /** cclist_erase of a node that is in the list */
    method Erase(node: nat, ghost at: nat)
      requires Valid() && at < |order| && order[at] == node
      modifies this, nodes, heap, heap.items
      ensures Valid() && order == Without(old(order), at) && Items() == old(Items())[..at] + old(Items())[at + 1..]
      ensures heap.contents == old(heap.contents) + [node]
    {
      ghost var was := nodes[..];
      var prev, next := Unlink(nodes, node, head, tail, order, at);
      if node == head { head := next; }
      if node == tail { tail := prev; }
      LinkedLess(was, nodes[..], order, at, old(head), old(tail), prev, next);
      ItemsLeft(was, nodes[..], order, at, old(head), old(tail), prev, next);
      Returned(order, heap.contents, nodes.Length, at);
      var _ := heap.Push(node);
      order := Without(order, at);
    }
  }

  /** The neighbours of a node are linked to each other. */
  method Unlink(nodes: array<Node>, node: nat, ghost head: int, ghost tail: int, ghost order: seq<nat>, ghost at: nat)
    returns (prev: int, next: int)
    requires Linked(nodes[..], order, head, tail) && Different(order) && at < |order| && order[at] == node
    modifies nodes
    ensures prev == Before(order, at) && next == Behind(order, at) && Bypassed(old(nodes[..]), nodes[..], prev, next)
    ensures (node == head <==> at == 0) && (node == tail <==> at == |order| - 1)
  {
    assert LinkedAt(nodes[..], order, at);
    prev, next := nodes[node].prev, nodes[node].next;
    if at > 0 { assert LinkedAt(nodes[..], order, at - 1); }
    if at + 1 < |order| { assert LinkedAt(nodes[..], order, at + 1); }
    if prev != -1 { nodes[prev] := nodes[prev].(next := next); }
    if next != -1 { nodes[next] := nodes[next].(prev := prev); }
  }

  function Backwards(s: seq<int>): seq<int> { if s == [] then [] else Backwards(s[1..]) + [s[0]] }

  method WalkForward(nodes: array<Node>, head: int, ghost tail: int, ghost order: seq<nat>) returns (s: seq<int>)
    requires Linked(nodes[..], order, head, tail)
    ensures s == ItemsOf(nodes[..], order)
  {
    s := [];
    var node := head;
    ghost var i, items := 0, ItemsOf(nodes[..], order);
    while node != -1
      invariant 0 <= i <= |order| && node == Behind(order, i - 1) && s == items[..i]
      decreases |order| - i
    {
      assert node == order[i] && LinkedAt(nodes[..], order, i);
      assert items[..i + 1] == items[..i] + [items[i]];
      s := s + [nodes[node].item];
      node := nodes[node].next;
      i := i + 1;
    }
  }

  method WalkBackward(nodes: array<Node>, ghost head: int, tail: int, ghost order: seq<nat>) returns (s: seq<int>)
    requires Linked(nodes[..], order, head, tail)
    ensures s == Backwards(ItemsOf(nodes[..], order))
  {
    s := [];
    var node := tail;
    ghost var i, items := |order|, ItemsOf(nodes[..], order);
    while node != -1
      invariant 0 <= i <= |order| && node == Before(order, i) && s == Backwards(items[i..])
      decreases i
    {
      assert node == order[i - 1] && LinkedAt(nodes[..], order, i - 1);
      assert items[i - 1..][1..] == items[i..];
      s := s + [nodes[node].item];
      node := nodes[node].prev;
      i := i - 1;
    }
    assert items[0..] == items;
  }

  function ItemsOf(nodes: seq<Node>, order: seq<nat>): seq<int> {
    seq(|order|, i requires 0 <= i < |order| => if order[i] < |nodes| then nodes[order[i]].item else 0)
  }

  // ----- the pool ------------------------------------------------------------------------

  /** The first free block goes to the end of the list. */
  lemma TakenFirst(order: seq<nat>, free: seq<nat>, n: nat)
    requires Partition(order, free, n) && free != []
    ensures Partition(order + [free[0]], free[1..], n) && free[0] !in order
  {
    var b, o, f := free[0], order + [free[0]], free[1..];
    assert free == [b] + f;
    assert b !in order;
    forall c | c in o ensures c !in f {
      if c != b { assert c in order; }
    }
  }

  /** A block of the list goes to the end of the free ones. */
  lemma Returned(order: seq<nat>, free: seq<nat>, n: nat, at: nat)
    requires Partition(order, free, n) && at < |order|
    ensures Partition(Without(order, at), free + [order[at]], n) && |free| < n
  {
    var b, o, f := order[at], Without(order, at), free + [order[at]];
    assert forall i :: 0 <= i < |o| ==> o[i] == order[if i < at then i else i + 1];
    assert b in order && b !in free;
    assert forall i :: 0 <= i < |free| ==> f[i] == free[i] && free[i] in free;
    forall c | c in o ensures c !in f {
      var i :| 0 <= i < |o| && o[i] == c;
      assert c in order && c != b;
    }
    forall c: nat | c < n ensures c in o || c in f {
      if c in order && c != b {
        var i :| 0 <= i < |order| && order[i] == c;
        assert o[if i < at then i else i - 1] == c;
      } else if c == b {
        assert f[|free|] == b;
      } else {
        assert c in free;
      }
    }
  }

  // ----- the links -----------------------------------------------------------------------

  /** Block b is linked behind the last one. */
  lemma LinkedMore(was: seq<Node>, now: seq<Node>, order: seq<nat>, b: nat, x: int, head: int, tail: int)
    requires Linked(was, order, head, tail) && Different(order) && b < |was| == |now| && b !in order
    requires now[b] == Node(tail, -1, x)
    requires forall k :: 0 <= k < |was| && k != b && k != tail ==> now[k] == was[k]
    requires order != [] ==> 0 <= tail < |was| && now[tail] == was[tail].(next := b)
    ensures Linked(now, order + [b], if order == [] then b else head, b)
    ensures ItemsOf(now, order + [b]) == ItemsOf(was, order) + [x]
  {
    var o := order + [b];
    forall i | 0 <= i < |o| ensures LinkedAt(now, o, i) && (i < |order| ==> now[o[i]].item == was[order[i]].item) {
      if i < |order| { assert o[i] == order[i] && order[i] in order && LinkedAt(was, order, i); }
    }
  }

  /** The nodes at p and q have been linked to each other. */
  ghost predicate Bypassed(was: seq<Node>, now: seq<Node>, p: int, q: int) {
    |now| == |was| && -1 <= p < |was| && -1 <= q < |was| &&
    (forall k :: 0 <= k < |was| && k != p && k != q ==> now[k] == was[k]) &&
    (p != -1 ==> now[p] == was[p].(next := q)) && (q != -1 ==> now[q] == was[q].(prev := p))
  }

  /** The node at a position is bypassed. */
  lemma LinkedLess(was: seq<Node>, now: seq<Node>, order: seq<nat>, at: nat, head: int, tail: int, p: int, q: int)
    requires Linked(was, order, head, tail) && Different(order) && at < |order|
    requires p == Before(order, at) && q == Behind(order, at) && Bypassed(was, now, p, q)
    ensures Linked(now, Without(order, at), if at == 0 then q else head, if at == |order| - 1 then p else tail)
  {
    var o := Without(order, at);
    forall i | 0 <= i < |o| ensures LinkedAt(now, o, i) {
      LinkLess(was, now, order, at, head, tail, p, q, i);
    }
  }

  lemma LinkLess(was: seq<Node>, now: seq<Node>, order: seq<nat>, at: nat, head: int, tail: int, p: int, q: int, i: nat)
    requires Linked(was, order, head, tail) && Different(order) && at < |order| && i < |order| - 1
    requires p == Before(order, at) && q == Behind(order, at) && Bypassed(was, now, p, q)
    ensures LinkedAt(now, Without(order, at), i)
  {
    var j := if i < at then i else i + 1;
    NodeLess(was, now, order, at, head, tail, p, q, j);
    Neighbours(order, at, i, j);
  }

  lemma ItemsLeft(was: seq<Node>, now: seq<Node>, order: seq<nat>, at: nat, head: int, tail: int, p: int, q: int)
    requires Linked(was, order, head, tail) && Different(order) && at < |order|
    requires p == Before(order, at) && q == Behind(order, at) && Bypassed(was, now, p, q)
    ensures ItemsOf(now, Without(order, at)) == ItemsOf(was, order)[..at] + ItemsOf(was, order)[at + 1..]
  {
    forall j | 0 <= j < |order| && j != at ensures order[j] < |was| && now[order[j]].item == was[order[j]].item {
      NodeLess(was, now, order, at, head, tail, p, q, j);
    }
    ItemsLess(was, now, order, at);
  }

  lemma ItemsLess(was: seq<Node>, now: seq<Node>, order: seq<nat>, at: nat)
    requires |now| == |was| && at < |order|
    requires forall j :: 0 <= j < |order| && j != at ==> order[j] < |was| && now[order[j]].item == was[order[j]].item
    ensures ItemsOf(now, Without(order, at)) == ItemsOf(was, order)[..at] + ItemsOf(was, order)[at + 1..]
  {
    var o, items := Without(order, at), ItemsOf(was, order);
    var x, y := ItemsOf(now, o), items[..at] + items[at + 1..];
    forall i | 0 <= i < |o| ensures x[i] == y[i] {
      var j := if i < at then i else i + 1;
      Neighbours(order, at, i, j);
      assert y[i] == items[j];
    }
  }

  /** The neighbours of an element when another one has gone. */
  lemma Neighbours(order: seq<nat>, at: nat, i: nat, j: nat)
    requires at < |order| && i < |order| - 1 && j == if i < at then i else i + 1
    ensures Without(order, at)[i] == order[j]
    ensures Behind(Without(order, at), i) == if j + 1 == at then Behind(order, at) else Behind(order, j)
    ensures Before(Without(order, at), i) == if j == at + 1 then Before(order, at) else Before(order, j)
  {
  }

  /** What happens to another node of the list. */
  lemma NodeLess(was: seq<Node>, now: seq<Node>, order: seq<nat>, at: nat, head: int, tail: int, p: int, q: int, j: nat)
    requires Linked(was, order, head, tail) && Different(order) && at < |order| && j < |order| && j != at
    requires p == Before(order, at) && q == Behind(order, at) && Bypassed(was, now, p, q)
    ensures order[j] < |now| && now[order[j]].item == was[order[j]].item
    ensures now[order[j]].next == if j + 1 == at then q else Behind(order, j)
    ensures now[order[j]].prev == if j == at + 1 then p else Before(order, j)
  {
    assert LinkedAt(was, order, j);
    if j + 1 == at {
      assert order[j] == p;
      if q != -1 { assert q == order[at + 1]; }
    } else if j == at + 1 {
      assert order[j] == q;
      if p != -1 { assert p == order[at - 1]; }
    } else {
      if p != -1 { assert p == order[at - 1]; }
      if q != -1 { assert q == order[at + 1]; }
    }
  }
}
