/**
 `Queue`: a circular doubly linked list around a sentinel, with the nodes it has freed kept for
 later; and the sequence it stands for.
 */
module Queues {
  import opened Common

  class QueueNode<T(0)> {
    var obj: T
    var next: QueueNode<T>
    var prev: QueueNode<T>

    constructor ()
      ensures next == this && prev == this
    {
      next, prev := this, this;
    }
  }

  ghost predicate Apart<T(0)>(ring: seq<QueueNode<T>>) {
    forall i, j :: 0 <= i < j < |ring| ==> ring[i] != ring[j]
  }

  /** The node at `i` of a ring is linked to its neighbours. */
  ghost predicate LinkedAt<T(0)>(ring: seq<QueueNode<T>>, i: nat)
    reads ring
  {
    && i < |ring|
    && ring[i].next == (if i + 1 < |ring| then ring[i + 1] else ring[0])
    && ring[i].prev == (if i > 0 then ring[i - 1] else ring[|ring| - 1])
  }

  lemma WithoutAt<X>(s: seq<X>, k: nat)
    requires k < |s|
    ensures |Without(s, k)| == |s| - 1
    ensures forall i :: 0 <= i < |s| - 1 ==> Without(s, k)[i] == s[if i < k then i else i + 1]
  {}

  lemma SameNodes<T(0)>(ring: seq<QueueNode<T>>, free: seq<QueueNode<T>>, k: nat)
    requires k < |ring|
    ensures (set n: object | n in Without(ring, k)) + (set n: object | n in free + [ring[k]])
         == (set n: object | n in ring) + (set n: object | n in free)
  {
    var rest := Without(ring, k);
    assert forall i :: 0 <= i < |rest| ==> rest[i] == ring[if i < k then i else i + 1];
    forall n | n in ring ensures n in rest || n == ring[k] {
      var i :| 0 <= i < |ring| && ring[i] == n;
      if i < k { assert rest[i] == n; } else if i > k { assert rest[i - 1] == n; }
    }
  }

  class Queue<T(0)> {
    const head: QueueNode<T>
    var size: nat
    var freeNodes: seq<QueueNode<T>>
    /** The sentinel and the nodes in the list, in order. */
    ghost var ring: seq<QueueNode<T>>

    ghost function Nodes(): set<object>
      reads this
    {
      (set n: object | n in ring) + (set n: object | n in freeNodes)
    }

    ghost predicate Valid()
      reads this, Nodes()
    {
      && ring != [] && ring[0] == head && size == |ring| - 1
      && Apart(ring) && Apart(freeNodes) && (forall i :: 0 <= i < |ring| ==> ring[i] !in freeNodes)
      && forall i: nat :: i < |ring| ==> LinkedAt(ring, i)
    }

    ghost function Contents(): (s: seq<T>)
      requires Valid()
      reads this, Nodes()
      ensures |s| == size
    {
      seq(size, i requires 0 <= i < size reads this, Nodes() requires size + 1 == |ring| => ring[i + 1].obj)
    }

    constructor ()
      ensures Valid() && fresh(Nodes()) && Contents() == []
    {
      var n := new QueueNode<T>();
      head, size, freeNodes, ring := n, 0, [], [n];
    }

    method Empty() returns (e: bool)
      requires Valid()
      ensures e == (Contents() == [])
    {
      e := size == 0;
    }

    method TakeNode() returns (node: QueueNode<T>)
      requires Valid()
      modifies this`freeNodes
      ensures Valid() && node !in ring && node !in freeNodes && (node in old(freeNodes) || fresh(node))
      ensures Contents() == old(Contents()) && Nodes() <= old(Nodes())
    {
      if freeNodes == [] {
        node := new QueueNode<T>();
      } else {
        var n := |freeNodes| - 1;
        node := freeNodes[n];
        assert node in freeNodes;
        freeNodes := freeNodes[..n];
        assert forall i :: 0 <= i < n ==> freeNodes[i] == old(freeNodes)[i];
      }
    }

    /** Installs a node behind the last. */
    method Link(node: QueueNode<T>)
      requires Valid() && node !in ring && node !in freeNodes
      modifies this`ring, Nodes(), node
      ensures ring == old(ring) + [node] && head == ring[0] && freeNodes == old(freeNodes)
      ensures forall i: nat :: i < |ring| ==> LinkedAt(ring, i)
      ensures Apart(ring) && forall i :: 0 <= i < |ring| ==> ring[i] !in freeNodes
      ensures forall n: QueueNode<T> :: n in ring || n in freeNodes ==> n.obj == old(n.obj)
    {
      ghost var was := ring;
      assert LinkedAt(ring, 0);
      var last := head.prev;
      assert last == was[|was| - 1] && LinkedAt(was, |was| - 1);
      node.prev := last;
      node.next := head;
      last.next := node;
      head.prev := node;
      ring := ring + [node];
      assert forall i :: 0 <= i < |was| ==> was[i] in was && ring[i] == was[i];
      forall i: nat | i < |ring| ensures LinkedAt(ring, i) {
        if i < |was| { assert old(LinkedAt(ring, i)); }
      }
    }

    method Push(obj: T)
      requires Valid()
      modifies this, Nodes()
      ensures Valid() && fresh(Nodes() - old(Nodes())) && Contents() == old(Contents()) + [obj]
    {
      var node := TakeNode();
      node.obj := obj;
      Link(node);
      size := size + 1;
    }

    method Unlink(node: QueueNode<T>, ghost k: nat)
      requires Valid() && k + 1 < |ring| && node == ring[k + 1]
      modifies this`ring, Nodes()
      ensures ring == Without(old(ring), k + 1) && ring[0] == head
      ensures forall i: nat :: i < |ring| ==> LinkedAt(ring, i)
      ensures Apart(ring) && (forall i :: 0 <= i < |ring| ==> ring[i] !in freeNodes && ring[i] != node)
              && node !in freeNodes
      ensures forall i :: 0 <= i < |ring| ==> ring[i].obj == old(ring[if i <= k then i else i + 1].obj)
    {
      ghost var was := ring;
      assert LinkedAt(was, k + 1);
      var before, after := node.prev, node.next;
      before.next := after;
      after.prev := before;
      ring := Without(was, k + 1);
      assert forall i :: 0 <= i < |ring| ==> ring[i] == was[if i <= k then i else i + 1];
      forall i: nat | i < |ring| ensures LinkedAt(ring, i) {
        assert old(LinkedAt(ring, if i <= k then i else i + 1));
      }
    }

    /** An iterator that stands before the `k`-th object, or at the end. */
    ghost predicate Stands(node: QueueNode<T>, k: nat)
      reads this
    {
      k + 1 <= |ring| && node == if k + 1 < |ring| then ring[k + 1] else head
    }

    method Begin() returns (node: QueueNode<T>)
      requires Valid()
      ensures Stands(node, 0)
    {
      assert LinkedAt(ring, 0);
      node := head.next;
    }

    /** The object an iterator stands before, and where it goes on. */
    method Get(node: QueueNode<T>, ghost k: nat) returns (obj: T, after: QueueNode<T>)
      requires Valid() && Stands(node, k) && node != head
      ensures k < |Contents()| && obj == Contents()[k] && Stands(after, k + 1)
    {
      assert LinkedAt(ring, k + 1);
      obj, after := node.obj, node.next;
    }

    /** Takes out the node at a place in the list. The result is the node behind it. */
    method Erase(node: QueueNode<T>, ghost k: nat) returns (after: QueueNode<T>)
      requires Valid() && Stands(node, k) && node != head
      modifies this, Nodes()
      ensures Valid() && Nodes() == old(Nodes()) && k < |old(Contents())| && Contents() == Without(old(Contents()), k)
      ensures Stands(after, k)
    {
      hide Without;
      ghost var objects := Contents();
      var _, next := Get(node, k);
      after := next;
      WithoutAt(ring, k + 1);
      WithoutAt(objects, k);
      Drop(node, k);
      hide Apart, LinkedAt;
      assert forall i :: 0 <= i < |objects| - 1 ==> Contents()[i] == ring[i + 1].obj;
    }

    method Drop(node: QueueNode<T>, ghost k: nat)
      requires Valid() && k + 1 < |ring| && node == ring[k + 1]
      modifies this, Nodes()
      ensures Valid() && Nodes() == old(Nodes()) && ring == Without(old(ring), k + 1)
      ensures forall i :: 0 <= i < |ring| ==> ring[i].obj == old(ring[if i <= k then i else i + 1].obj)
    {
      hide Without;
      SameNodes(ring, freeNodes, k + 1);
      WithoutAt(ring, k + 1);
      Unlink(node, k);
      hide Apart;
      Retire(node);
    }

    /** Keeps a node that is in the list no more. */
    method Retire(node: QueueNode<T>)
      requires ring != [] && ring[0] == head && size == |ring| && Apart(ring) && Apart(freeNodes)
      requires (forall i :: 0 <= i < |ring| ==> ring[i] !in freeNodes && ring[i] != node) && node !in freeNodes
      requires forall i: nat :: i < |ring| ==> LinkedAt(ring, i)
      modifies this`freeNodes, this`size
      ensures Valid() && freeNodes == old(freeNodes) + [node] && size == old(size) - 1
    {
      freeNodes := freeNodes + [node];
      size := size - 1;
    }

    method First() returns (obj: T)
      requires Valid() && Contents() != []
      ensures obj == Contents()[0]
    {
      assert LinkedAt(ring, 0);
      obj := head.next.obj;
    }

    method Pop()
      requires Valid() && Contents() != []
      modifies this, Nodes()
      ensures Valid() && Nodes() == old(Nodes()) && Contents() == old(Contents())[1..]
    {
      assert LinkedAt(ring, 0);
      var after := Erase(head.next, 0);
    }
  }
}
