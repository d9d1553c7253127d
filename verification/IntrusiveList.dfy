/**
 * The queue every list of threads in the kernel is made of: a singly linked list
 * through a node embedded in the thread, with head and tail pointers. A node can
 * be on one queue at a time; taking it off leaves its `next` as it was.
 */
module IntrusiveList {

  class Node {
    var next: Node?

    constructor ()
    {
      next := null;
    }
  }

  class List {
    var head: Node?
    var tail: Node?
    ghost var nodes: seq<Node>

    ghost predicate Valid()
      reads this, nodes
    {
      && (forall i, j :: 0 <= i < j < |nodes| ==> nodes[i] != nodes[j])
      && (head == null <==> nodes == []) && (tail == null <==> nodes == [])
      && (nodes != [] ==> head == nodes[0] && tail == nodes[|nodes| - 1] && nodes[|nodes| - 1].next == null)
      && (forall i :: 0 <= i < |nodes| - 1 ==> nodes[i].next == nodes[i + 1])
    }

    constructor ()
      ensures Valid() && nodes == []
    {
      head, tail, nodes := null, null, [];
    }

    /** Add a node that is on no queue at the end. */
    method Enqueue(node: Node)
      requires Valid() && node !in nodes
      modifies this, node, nodes
      ensures Valid() && nodes == old(nodes) + [node]
    {
      node.next := null;
      if tail == null {
        head := node;
      } else {
        tail.next := node;
      }
      tail := node;
      nodes := nodes + [node];
    }

    /** Take the first node off, if there is one. */
    method Dequeue() returns (node: Node?)
      requires Valid()
      modifies this
      ensures Valid() && (node == null <==> old(nodes) == [])
      ensures node == null ==> nodes == []
      ensures node != null ==> old(nodes) == [node] + nodes
    {
      node := head;
      if node == null {
        return;
      }
      ghost var rest := nodes[1..];
      assert forall i :: 0 <= i < |rest| ==> rest[i] == nodes[i + 1];
      assert |nodes| > 1 ==> node.next == nodes[1];
      head := node.next;
      if tail == node {
        tail := null;
      }
      assert nodes == [node] + rest;
      nodes := rest;
    }
  }

  /** All queues of the kernel: a thread is on at most one of them. */
  class Queues {
    const lists: seq<List>
    ghost var queued: set<Node>

    ghost predicate Valid()
      reads this, lists, queued
    {
      && (forall i :: 0 <= i < |lists| ==> (forall n <- lists[i].nodes :: n in queued) && lists[i].Valid())
      && (forall i, j :: 0 <= i < j < |lists| ==> lists[i] != lists[j] && forall n <- lists[i].nodes :: n !in lists[j].nodes)
    }

    /** What is on the queues. */
    ghost function View(): seq<seq<Node>>
      reads this, lists
    {
      seq(|lists|, i requires 0 <= i < |lists| reads lists => lists[i].nodes)
    }

    constructor (n: nat)
      ensures Valid() && View() == seq(n, i => [])
    {
      var made: seq<List> := [];
      for i := 0 to n
        invariant |made| == i && forall j :: 0 <= j < i ==> fresh(made[j]) && made[j].Valid() && made[j].nodes == []
        invariant forall j, k :: 0 <= j < k < i ==> made[j] != made[k]
      {
        var list := new List();
        made := made + [list];
      }
      lists, queued := made, {};
    }

    /** Put a node that is on no queue at the end of the i-th queue; the others keep their contents and order. */
    method Put(i: nat, node: Node)
      requires Valid() && i < |lists| && forall j :: 0 <= j < |lists| ==> node !in lists[j].nodes
      modifies this, lists[i], node, lists[i].nodes
      ensures Valid() && View() == old(View())[i := old(View())[i] + [node]]
    {
      queued := queued + {node};
      lists[i].Enqueue(node);
      forall j | 0 <= j < |lists| && j != i
        ensures lists[j].nodes == old(lists[j].nodes) && lists[j].Valid()
      {
        assert lists[j] != lists[i] && old(lists[j].Valid());
        forall k | 0 <= k < |lists[j].nodes| ensures lists[j].nodes[k].next == old(lists[j].nodes[k].next) {
          assert lists[j].nodes[k] in lists[j].nodes;
          assert lists[j].nodes[k] !in old(lists[i].nodes);
        }
      }
    }

    /** Take the first node of the i-th queue; it is then on no queue. */
    method Take(i: nat) returns (node: Node?)
      requires Valid() && i < |lists|
      modifies lists[i]
      ensures Valid()
      ensures if old(View())[i] == [] then node == null && View() == old(View())
              else node == old(View())[i][0] && View() == old(View())[i := old(View())[i][1..]]
      ensures forall j :: 0 <= j < |lists| ==> node !in lists[j].nodes
    {
      node := lists[i].Dequeue();
    }
  }
}
