/**
 `FastLink`: a doubly linked list inside an array, with a stack of freed places, and the
 sequence it stands for.

 Place 0 is never used: it is what a link holds when there is no neighbour.
 */
module FastLinks {
  import opened Common
  import C = Counting

  datatype Node<T> = Node(prev: nat, next: nat, freeNode: nat, obj: T)

  /** The place `order[i]` is linked to its neighbours. */
  ghost predicate LinkedAt<T>(nodes: seq<Node<T>>, order: seq<nat>, i: nat) {
    && i < |order| && 0 < order[i] < |nodes|
    && nodes[order[i]].next == (if i + 1 < |order| then order[i + 1] else 0)
    && nodes[order[i]].prev == (if i > 0 then order[i - 1] else 0)
  }

  /** The links run through the places of `order`, both ways. */
  ghost predicate Linked<T>(nodes: seq<Node<T>>, order: seq<nat>) {
    && (forall i :: 0 <= i < |order| ==> 0 < order[i] < |nodes|)
    && (forall i: nat :: i < |order| ==> LinkedAt(nodes, order, i))
  }

  /** The freed places, bottom of the stack first. */
  function Freed<T>(nodes: seq<Node<T>>, count: nat): (s: seq<nat>)
    requires count < |nodes|
    ensures |s| == count && forall i :: 0 <= i < count ==> s[i] == nodes[i + 1].freeNode
  {
    seq(count, i requires 0 <= i < count => nodes[i + 1].freeNode)
  }

  /** The places in use and the freed ones are exactly those from 1 to `usable`. */
  ghost predicate Parts(order: seq<nat>, freed: seq<nat>, usable: nat) {
    && Distinct(order + freed)
    && (forall i :: 0 <= i < |order + freed| ==> 1 <= (order + freed)[i] <= usable)
    && |order + freed| == usable
  }

  function Objects<T>(nodes: seq<Node<T>>, order: seq<nat>): (s: seq<T>)
    requires forall i :: 0 <= i < |order| ==> order[i] < |nodes|
    ensures |s| == |order| && forall i :: 0 <= i < |order| ==> s[i] == nodes[order[i]].obj
  {
    seq(|order|, i requires 0 <= i < |order| => nodes[order[i]].obj)
  }

  /** Every place up to `usable` is in use or freed. */
  lemma PartsCover(order: seq<nat>, freed: seq<nat>, usable: nat, place: nat)
    requires Parts(order, freed, usable) && 1 <= place <= usable
    ensures place in order || place in freed
  {
    C.Pigeonhole(order + freed, 1, place);
  }

  // ----- what the updates do to the links

  /** The nodes with `place` added behind the last. */
  function Pushed<T>(nodes: seq<Node<T>>, order: seq<nat>, place: nat, obj: T): seq<Node<T>>
    requires place < |nodes| && forall i :: 0 <= i < |order| ==> order[i] < |nodes|
  {
    var last := if order == [] then 0 else order[|order| - 1];
    var linked := nodes[place := Node(last, 0, nodes[place].freeNode, obj)];
    if order == [] then linked else linked[last := linked[last].(next := place)]
  }

  lemma LinkedPush<T>(nodes: seq<Node<T>>, order: seq<nat>, place: nat, obj: T)
    requires Linked(nodes, order) && 0 < place < |nodes| && place !in order && Distinct(order)
    ensures var after := Pushed(nodes, order, place, obj);
            && |after| == |nodes| && Linked(after, order + [place])
            && Objects(after, order + [place]) == Objects(nodes, order) + [obj]
            && (forall i :: 0 <= i < |nodes| ==> after[i].freeNode == nodes[i].freeNode)
  {
    var after, more := Pushed(nodes, order, place, obj), order + [place];
    PushedAt(nodes, order, place, obj);
    hide Pushed, Distinct;
    forall i: nat | i < |more| ensures LinkedAt(after, more, i) {
      if i < |order| { assert LinkedAt(nodes, order, i); assert more[i] == order[i]; }
    }
  }

  lemma PushedAt<T>(nodes: seq<Node<T>>, order: seq<nat>, place: nat, obj: T)
    requires 0 < place < |nodes| && place !in order && Distinct(order)
    requires forall i :: 0 <= i < |order| ==> 0 < order[i] < |nodes|
    ensures var after := Pushed(nodes, order, place, obj);
            && |after| == |nodes|
            && (forall j :: 0 <= j < |order| ==>
                 && after[order[j]].obj == nodes[order[j]].obj && after[order[j]].prev == nodes[order[j]].prev
                 && after[order[j]].next == (if j == |order| - 1 then place else nodes[order[j]].next))
            && after[place] == Node(if order == [] then 0 else order[|order| - 1], 0, nodes[place].freeNode, obj)
            && (forall i :: 0 <= i < |nodes| ==> after[i].freeNode == nodes[i].freeNode)
  {
    assert forall i :: 0 <= i < |order| ==> order[i] in order;
  }

  /** The nodes with one taken out of the chain. */
  function Unlinked<T>(nodes: seq<Node<T>>, order: seq<nat>, k: nat): seq<Node<T>>
    requires k < |order| && forall i :: 0 <= i < |order| ==> order[i] < |nodes|
  {
    var before := if k > 0 then order[k - 1] else 0;
    var a := if k + 1 < |order| then nodes[order[k + 1] := nodes[order[k + 1]].(prev := before)] else nodes;
    if k > 0 then a[order[k - 1] := a[order[k - 1]].(next := if k + 1 < |order| then order[k + 1] else 0)] else a
  }

  lemma UnlinkedAt<T>(nodes: seq<Node<T>>, order: seq<nat>, k: nat)
    requires k < |order| && Distinct(order) && forall i :: 0 <= i < |order| ==> 0 < order[i] < |nodes|
    ensures var after := Unlinked(nodes, order, k);
            && |after| == |nodes|
            && (forall j :: 0 <= j < |order| && j != k ==>
                 && after[order[j]].obj == nodes[order[j]].obj
                 && after[order[j]].prev == (if j == k + 1 then (if k > 0 then order[k - 1] else 0)
                                             else nodes[order[j]].prev)
                 && after[order[j]].next == (if j == k - 1 then (if k + 1 < |order| then order[k + 1] else 0)
                                             else nodes[order[j]].next))
            && (forall i :: 0 <= i < |nodes| ==> after[i].freeNode == nodes[i].freeNode)
  {}

  lemma LinkedErase<T>(nodes: seq<Node<T>>, order: seq<nat>, k: nat)
    requires Linked(nodes, order) && k < |order| && Distinct(order)
    ensures var after, rest := Unlinked(nodes, order, k), Without(order, k);
            && |after| == |nodes| && Linked(after, rest)
            && (forall i :: 0 <= i < |rest| ==> rest[i] < |after|)
            && Objects(after, rest) == Without(Objects(nodes, order), k)
            && (forall i :: 0 <= i < |nodes| ==> after[i].freeNode == nodes[i].freeNode)
  {
    UnlinkedAt(nodes, order, k);
    var after, rest := Unlinked(nodes, order, k), Without(order, k);
    assert forall i :: 0 <= i < |rest| ==> rest[i] == order[if i < k then i else i + 1];
    hide Distinct, Without, Unlinked;
    forall i: nat | i < |rest| ensures LinkedAt(after, rest, i) {
      LinkedSkips(nodes, after, order, rest, k, i);
    }
    ObjectsWithout(nodes, after, order, rest, k);
  }

  lemma LinkedSkips<T>(nodes: seq<Node<T>>, after: seq<Node<T>>, order: seq<nat>, rest: seq<nat>, k: nat, i: nat)
    requires Linked(nodes, order) && k < |order| && |rest| == |order| - 1 && |after| == |nodes|
    requires forall i :: 0 <= i < |order| ==> 0 < order[i] < |nodes|
    requires forall i :: 0 <= i < |rest| ==> rest[i] == order[if i < k then i else i + 1]
    requires forall j :: 0 <= j < |order| && j != k ==>
                 && after[order[j]].prev == (if j == k + 1 then (if k > 0 then order[k - 1] else 0)
                                             else nodes[order[j]].prev)
                 && after[order[j]].next == (if j == k - 1 then (if k + 1 < |order| then order[k + 1] else 0)
                                             else nodes[order[j]].next)
    requires i < |rest|
    ensures LinkedAt(after, rest, i)
  {
    var j := if i < k then i else i + 1;
    assert LinkedAt(nodes, order, j);
    assert rest[i] == order[j];
    if i + 1 < |rest| { assert rest[i + 1] == order[if i + 1 < k then i + 1 else i + 2]; }
    if i > 0 { assert rest[i - 1] == order[if i - 1 < k then i - 1 else i]; }
  }

  lemma ObjectsWithout<T>(nodes: seq<Node<T>>, after: seq<Node<T>>, order: seq<nat>, rest: seq<nat>, k: nat)
    requires k < |order| && |rest| == |order| - 1 && forall i :: 0 <= i < |order| ==> order[i] < |nodes|
    requires forall i :: 0 <= i < |rest| ==>
               rest[i] < |after| && after[rest[i]].obj == nodes[order[if i < k then i else i + 1]].obj
    ensures Objects(after, rest) == Without(Objects(nodes, order), k)
  {}

  lemma PartsErase(order: seq<nat>, freed: seq<nat>, usable: nat, k: nat)
    requires Parts(order, freed, usable) && k < |order|
    ensures Parts(Without(order, k), freed + [order[k]], usable) && Distinct(order)
  {
    var all, after := order + freed, Without(order, k) + (freed + [order[k]]);
    assert forall i :: 0 <= i < |after| ==> after[i] == all[if i < k then i else if i < |all| - 1 then i + 1 else k];
    assert forall i :: 0 <= i < |order| ==> order[i] == all[i];
  }

  lemma PartsPush(order: seq<nat>, freed: seq<nat>, usable: nat)
    requires Parts(order, freed, usable)
    ensures freed == [] ==> Parts(order + [usable + 1], [], usable + 1) && usable + 1 !in order
    ensures freed != [] ==>
              var top := freed[|freed| - 1];
              Parts(order + [top], freed[..|freed| - 1], usable) && top !in order && 1 <= top <= usable
    ensures Distinct(order)
  {
    var all := order + freed;
    assert forall i :: 0 <= i < |order| ==> order[i] == all[i];
    if freed != [] {
      var top := freed[|freed| - 1];
      assert all[|all| - 1] == top;
      var after := order + [top] + freed[..|freed| - 1];
      assert forall i :: 0 <= i < |after| ==>
               after[i] == all[if i < |order| then i else if i == |order| then |all| - 1 else i - 1];
    } else {
      assert order + [usable + 1] + [] == order + [usable + 1];
    }
  }

  lemma PartsRoom(order: seq<nat>, freed: seq<nat>, usable: nat, max: nat)
    requires Parts(order, freed, usable) && usable <= max
    ensures |order| <= max && (freed == [] && usable == max <==> |order| == max)
  {}

  class FastLink<T(0, ==)> {
    var size: nat
    var firstLink: nat
    var freeNodes: nat
    var lastLink: nat
    const maxSize: nat
    var usableIndex: nat
    const nodes: array<Node<T>>
    ghost var order: seq<nat>

    ghost predicate Valid()
      reads this, nodes
    {
      && nodes.Length == maxSize + 1 && usableIndex <= maxSize && freeNodes <= usableIndex
      && Linked(nodes[..], order) && Parts(order, Freed(nodes[..], freeNodes), usableIndex)
      && size == |order|
      && firstLink == (if order == [] then 0 else order[0])
      && lastLink == (if order == [] then 0 else order[|order| - 1])
    }

    ghost function Contents(): seq<T>
      requires Valid()
      reads this, nodes
    {
      Objects(nodes[..], order)
    }

    constructor (maxsize: nat)
      ensures Valid() && fresh(nodes) && Contents() == [] && maxSize == maxsize
    {
      size, firstLink, freeNodes, lastLink, usableIndex := 0, 0, 0, 0, 0;
      maxSize := maxsize;
      nodes := new Node<T>[maxsize + 1];
      order := [];
    }

    method GetFreeIndex() returns (place: nat)
      requires Valid()
      modifies this`freeNodes, this`usableIndex
      ensures place == 0 <==> |order| == maxSize
      ensures place == 0 ==> Valid() && freeNodes == old(freeNodes) && usableIndex == old(usableIndex)
      ensures place != 0 ==>
                && place !in order && place <= usableIndex <= maxSize && freeNodes <= usableIndex
                && Parts(order + [place], Freed(nodes[..], freeNodes), usableIndex)
    {
      ghost var freed := Freed(nodes[..], freeNodes);
      PartsPush(order, freed, usableIndex);
      PartsRoom(order, freed, usableIndex, maxSize);
      if freeNodes != 0 {
        place := nodes[freeNodes].freeNode;
        freeNodes := freeNodes - 1;
        assert Freed(nodes[..], freeNodes) == freed[..|freed| - 1];
      } else if usableIndex >= maxSize {
        place := 0;
      } else {
        usableIndex := usableIndex + 1;
        place := usableIndex;
      }
    }

    /** Fails exactly when the list is full. */
    method PushBack(obj: T) returns (ok: bool)
      requires Valid()
      modifies this, nodes
      ensures Valid() && ok == (|old(Contents())| < maxSize)
      ensures Contents() == if ok then old(Contents()) + [obj] else old(Contents())
    {
      ghost var was, before := nodes[..], order;
      PartsPush(order, Freed(nodes[..], freeNodes), usableIndex);
      var place := GetFreeIndex();
      if place == 0 { return false; }
      LinkedPush(was, before, place, obj);
      PushLinks(place, obj);
      SameFreed(was, nodes[..], freeNodes);
      size := size + 1;
      ok := true;
    }

    method PushLinks(place: nat, obj: T)
      requires nodes.Length == maxSize + 1 && 0 < place <= maxSize && place !in order
      requires Linked(nodes[..], order)
      requires firstLink == (if order == [] then 0 else order[0])
      requires lastLink == (if order == [] then 0 else order[|order| - 1])
      modifies this`firstLink, this`lastLink, this`order, nodes
      ensures nodes[..] == Pushed(old(nodes[..]), old(order), place, obj) && order == old(order) + [place]
      ensures firstLink == order[0] && lastLink == place
    {
      ghost var was := nodes[..];
      nodes[place] := nodes[place].(obj := obj);
      nodes[place] := nodes[place].(next := 0);
      if firstLink == 0 {
        nodes[place] := nodes[place].(prev := 0);
        firstLink, lastLink := place, place;
      } else {
        nodes[place] := nodes[place].(prev := lastLink);
        nodes[lastLink] := nodes[lastLink].(next := place);
        lastLink := place;
      }
      order := order + [place];
    }

    method EraseLinks(index: nat, ghost k: nat)
      requires nodes.Length == maxSize + 1 && k < |order| && index == order[k]
      requires Linked(nodes[..], order) && Distinct(order)
      requires firstLink == order[0] && lastLink == order[|order| - 1]
      modifies this`firstLink, this`lastLink, nodes
      ensures nodes[..] == Unlinked(old(nodes[..]), order, k)
      ensures var rest := Without(order, k);
              && firstLink == (if rest == [] then 0 else rest[0])
              && lastLink == (if rest == [] then 0 else rest[|rest| - 1])
    {
      ghost var was := nodes[..];
      assert LinkedAt(was, order, k);
      assert index == firstLink <==> k == 0;
      assert index == lastLink <==> k == |order| - 1;
      if index == firstLink && index == lastLink {
        firstLink, lastLink := 0, 0;
      } else if index == firstLink {
        firstLink := nodes[index].next;
        nodes[firstLink] := nodes[firstLink].(prev := 0);
      } else if index == lastLink {
        lastLink := nodes[index].prev;
        nodes[lastLink] := nodes[lastLink].(next := 0);
      } else {
        var next, prev := nodes[index].next, nodes[index].prev;
        nodes[next] := nodes[next].(prev := prev);
        nodes[prev] := nodes[prev].(next := next);
      }
    }

    /** Takes a place out of the chain. */
    method Detach(index: nat, ghost k: nat) returns (after: nat)
      requires Valid() && k < |order| && index == order[k]
      modifies this`firstLink, this`lastLink, this`order, nodes
      ensures order == Without(old(order), k) && Linked(nodes[..], order)
      ensures Objects(nodes[..], order) == Without(old(Contents()), k)
      ensures Freed(nodes[..], freeNodes) == old(Freed(nodes[..], freeNodes))
      ensures firstLink == (if order == [] then 0 else order[0])
      ensures lastLink == (if order == [] then 0 else order[|order| - 1])
      ensures after == if k + 1 < |old(order)| then old(order)[k + 1] else 0
    {
      hide Objects, Freed, Parts, Distinct;
      ghost var was, before := nodes[..], order;
      assert Distinct(before) by { PartsErase(before, Freed(was, freeNodes), usableIndex, k); }
      LinkedErase(was, before, k);
      assert LinkedAt(was, before, k);
      assert firstLink == before[0] && lastLink == before[|before| - 1];
      after := nodes[index].next;
      EraseLinks(index, k);
      order := Without(before, k);
      SameFreed(was, nodes[..], freeNodes);
    }

    /** Takes out the object at a place in the list. The result is the place behind it. */
    method Erase(index: nat, ghost k: nat) returns (after: nat)
      requires Valid() && k < |order| && index == order[k]
      modifies this, nodes
      ensures Valid() && Contents() == Without(old(Contents()), k)
      ensures after == if k + 1 < |old(order)| then old(order)[k + 1] else 0
    {
      ghost var before, freed := order, Freed(nodes[..], freeNodes);
      after := Detach(index, k);
      assert Parts(order, freed + [index], usableIndex) by { PartsErase(before, freed, usableIndex, k); }
      assert |order| == |before| - 1;
      hide Distinct, Without, Linked, Objects, Freed;
      PutOnStack(index);
      size := size - 1;
    }

    method PutOnStack(index: nat)
      requires Linked(nodes[..], order) && freeNodes + 1 < nodes.Length
      modifies this`freeNodes, nodes
      ensures freeNodes == old(freeNodes) + 1
      ensures Freed(nodes[..], freeNodes) == old(Freed(nodes[..], freeNodes)) + [index]
      ensures Linked(nodes[..], order) && Objects(nodes[..], order) == old(Objects(nodes[..], order))
    {
      ghost var was := nodes[..];
      FreedMore(was, order, freeNodes, index);
      hide Linked, Freed, Objects;
      freeNodes := freeNodes + 1;
      nodes[freeNodes] := nodes[freeNodes].(freeNode := index);
    }

    /** The objects, from the first place to the last. */
    method Copy() returns (s: seq<T>)
      requires Valid()
      ensures s == Contents()
    {
      s := [];
      var position := firstLink;
      ghost var k := 0;
      while position != 0
        invariant k <= |order| && position == (if k < |order| then order[k] else 0) && s == Contents()[..k]
        decreases |order| - k
      {
        assert LinkedAt(nodes[..], order, k);
        assert Contents()[..k + 1] == Contents()[..k] + [nodes[position].obj];
        s := s + [nodes[position].obj];
        position, k := nodes[position].next, k + 1;
      }
      assert Contents()[..k] == Contents();
    }

    /** Takes out the first object equal to `obj`, if there is one. */
    method Remove(obj: T)
      requires Valid()
      modifies this, nodes
      ensures Valid() && Contents() == Removed(old(Contents()), obj)
    {
      var position := firstLink;
      ghost var k := 0;
      while position != 0
        invariant Valid() && k <= |order| && position == (if k < |order| then order[k] else 0)
        invariant Contents() == old(Contents()) && obj !in Contents()[..k]
        invariant nodes[..] == old(nodes[..]) && order == old(order)
        decreases |order| - k
      {
        assert LinkedAt(nodes[..], order, k);
        if nodes[position].obj == obj {
          RemovedAt(Contents(), obj, k);
          var after := Erase(position, k);
          return;
        }
        assert Contents()[..k + 1] == Contents()[..k] + [nodes[position].obj];
        position, k := nodes[position].next, k + 1;
      }
      assert Contents()[..k] == Contents();
      RemovedNot(Contents(), obj);
    }
  }

  /** The sequence without its first `obj`. */
  function Removed<T(==)>(s: seq<T>, obj: T): seq<T> {
    if s == [] then [] else if s[0] == obj then s[1..] else [s[0]] + Removed(s[1..], obj)
  }

  lemma {:induction false} RemovedAt<T>(s: seq<T>, obj: T, k: nat)
    requires k < |s| && s[k] == obj && obj !in s[..k]
    ensures Removed(s, obj) == Without(s, k)
  {
    if k > 0 {
      assert s[0] in s[..k] && s[1..][..k - 1] == s[..k][1..];
      RemovedAt(s[1..], obj, k - 1);
    }
  }

  lemma {:induction false} RemovedNot<T>(s: seq<T>, obj: T)
    requires obj !in s
    ensures Removed(s, obj) == s
  {
    if s != [] { RemovedNot(s[1..], obj); }
  }

  lemma SameFreed<T>(was: seq<Node<T>>, nodes: seq<Node<T>>, count: nat)
    requires count < |was| == |nodes| && forall i :: 0 <= i < |was| ==> nodes[i].freeNode == was[i].freeNode
    ensures Freed(nodes, count) == Freed(was, count)
  {}

  lemma FreedMore<T>(nodes: seq<Node<T>>, order: seq<nat>, count: nat, index: nat)
    requires count + 1 < |nodes| && Linked(nodes, order)
    ensures var after := nodes[count + 1 := nodes[count + 1].(freeNode := index)];
            && Freed(after, count + 1) == Freed(nodes, count) + [index]
            && Linked(after, order) && Objects(after, order) == Objects(nodes, order)
  {
    var after := nodes[count + 1 := nodes[count + 1].(freeNode := index)];
    forall i: nat | i < |order| ensures LinkedAt(after, order, i) { assert LinkedAt(nodes, order, i); }
  }
}
