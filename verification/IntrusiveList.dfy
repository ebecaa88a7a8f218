/** The doubly linked list whose nodes live inside the tasks it queues. */
module IntrusiveList {

  class Node {
    var next: Node?
    var prev: Node?

    constructor ()
      ensures next == null && prev == null
    {
      next, prev := null, null;
    }
  }

  class List {
    var head: Node?
    var tail: Node?
    var count: nat

    /** The nodes from head to tail. */
    ghost var nodes: seq<Node>

    ghost function At(i: int): Node?
      reads this
    {
      if 0 <= i < |nodes| then nodes[i] else null
    }

    /** Node i points at its neighbours, and at null past either end. */
    ghost predicate LinkedAt(i: nat)
      requires i < |nodes|
      reads this, nodes
    {
      nodes[i].next == At(i + 1) && nodes[i].prev == At(i - 1)
    }

    ghost predicate Valid()
      reads this, nodes
    {
      && head == At(0) && tail == At(|nodes| - 1) && count == |nodes|
      && (forall i, j :: 0 <= i < j < |nodes| ==> nodes[i] != nodes[j])
      && (forall i :: 0 <= i < |nodes| ==> LinkedAt(i))
    }

    constructor ()
      ensures Valid() && nodes == []
    {
      head, tail, count := null, null, 0;
      nodes := [];
    }

    method InsertHead(node: Node)
      requires Valid() && node !in nodes
      modifies this, nodes, node
      ensures Valid() && nodes == [node] + old(nodes)
    {
      node.next := head;
      node.prev := null;
      if head != null {
        assert LinkedAt(0);
        head.prev := node;
      } else {
        tail := node;
      }
      count := count + 1;
      head := node;
      nodes := [node] + nodes;
      forall i | 0 <= i < |nodes| ensures LinkedAt(i) {
        if i > 0 { assert old(LinkedAt(i - 1)); }
      }
    }

    method InsertTail(node: Node)
      requires Valid() && node !in nodes
      modifies this, nodes, node
      ensures Valid() && nodes == old(nodes) + [node]
    {
      node.next := null;
      node.prev := tail;
      if tail != null {
        tail.next := node;
      } else {
        head := node;
      }
      tail := node;
      count := count + 1;
      nodes := nodes + [node];
      forall i | 0 <= i < |nodes| ensures LinkedAt(i) {
        if i < |nodes| - 1 { assert old(LinkedAt(i)); }
      }
    }

    method Remove(node: Node, ghost k: nat)
      requires Valid() && k < |nodes| && node == nodes[k]
      modifies this, nodes
      ensures Valid() && nodes == old(nodes[..k] + nodes[k+1..])
      ensures node !in nodes && node.next == null && node.prev == null
    {
      assert LinkedAt(k);
      if node.prev != null {
        node.prev.next := node.next;
      } else {
        head := node.next;
      }
      if node.next != null {
        node.next.prev := node.prev;
      } else {
        tail := node.prev;
      }
      count := count - 1;
      node.next := null;
      node.prev := null;
      nodes := nodes[..k] + nodes[k+1..];
      forall i | 0 <= i < |nodes| ensures LinkedAt(i) {
        var i' := if i < k then i else i + 1;
        assert old(LinkedAt(i'));
      }
    }

    method RemoveHead() returns (r: Node?)
      requires Valid()
      modifies this, nodes
      ensures Valid() && (r == null <==> old(nodes) == [])
      ensures r == null ==> nodes == old(nodes)
      ensures r != null ==>
                r == old(nodes)[0] && nodes == old(nodes)[1..] && r !in nodes && r.next == null && r.prev == null
    {
      r := head;
      if r == null {
        return;
      }
      assert LinkedAt(0);
      head := r.next;
      if head != null {
        head.prev := null;
      } else {
        tail := null;
      }
      count := count - 1;
      r.next := null;
      r.prev := null;
      nodes := nodes[1..];
      forall i | 0 <= i < |nodes| ensures LinkedAt(i) {
        assert old(LinkedAt(i + 1));
      }
    }

    method RemoveTail() returns (r: Node)
      requires Valid() && nodes != []
      modifies this, nodes
      ensures Valid() && r == old(nodes)[|old(nodes)| - 1] && nodes == old(nodes)[..|old(nodes)| - 1]
      ensures r !in nodes && r.next == null && r.prev == null
    {
      r := tail;
      assert LinkedAt(|nodes| - 1);
      tail := r.prev;
      if tail != null {
        tail.next := null;
      } else {
        head := null;
      }
      count := count - 1;
      r.next := null;
      r.prev := null;
      nodes := nodes[..|nodes| - 1];
      forall i | 0 <= i < |nodes| ensures LinkedAt(i) {
        assert old(LinkedAt(i));
      }
    }
  }
}
