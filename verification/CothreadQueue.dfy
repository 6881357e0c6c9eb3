/** The queue of waiters of a lock: epoll_queue and epoll_dequeue
    (src/cothread/co-scheduler.c:149-223).  Waiters carry their own links; -1 is the null
    pointer. */
module CothreadQueue {
  import opened PooledList

  class WaiterQueue {
    const nodes: array<Node>      // all waiters there are; item is of no interest here
    var head: int
    var tail: int
    ghost var order: seq<nat>     // the waiters in the queue

    ghost predicate Valid()
      reads this, nodes
    {
      Linked(nodes[..], order, head, tail) && Different(order)
    }

    constructor (waiters: nat)
      ensures Valid() && order == [] && nodes.Length == waiters && fresh(nodes)
    {
      nodes := new Node[waiters](_ => Node(-1, -1, 0));
      head, tail, order := -1, -1, [];
    }

    /** epoll_queue of a waiter that is not in the queue */
    method Queue(w: nat)
      requires Valid() && w < nodes.Length && w !in order
      modifies this, nodes
      ensures Valid() && order == old(order) + [w]
    {
      ghost var was := nodes[..];
      var last := tail;
      if order != [] { assert LinkedAt(was, order, |order| - 1); }
      nodes[w] := nodes[w].(next := -1);
      if tail == -1 {
        nodes[w] := nodes[w].(prev := -1);
      } else {
        nodes[w] := nodes[w].(prev := tail);
        nodes[tail] := nodes[tail].(next := w);
      }
      tail := w;
      if head == -1 { head := w; }
      LinkedMore(was, nodes[..], order, w, was[w].item, old(head), last);
      order := order + [w];
    }

    /** epoll_dequeue of a waiter that is in the queue */
    method Dequeue(w: nat, ghost at: nat)
      requires Valid() && at < |order| && order[at] == w
      modifies this, nodes
      ensures Valid() && order == Without(old(order), at)
    {
      ghost var was := nodes[..];
      var prev, next := Unlink(nodes, w, head, tail, order, at);
      if tail == w { tail := prev; }
      if head == w { head := next; }
      LinkedLess(was, nodes[..], order, at, old(head), old(tail), prev, next);
      DifferentLess(order, at);
      order := Without(order, at);
    }
  }

  lemma DifferentLess(order: seq<nat>, at: nat)
    requires Different(order) && at < |order|
    ensures Different(Without(order, at))
  {
    var o := Without(order, at);
    assert forall i :: 0 <= i < |o| ==> o[i] == order[if i < at then i else i + 1];
  }
}
