/** Doubly linked lists, relinked in place. The kernel's queues are stated on sequences of nodes;
    this class is what carries those sequences. */
module Lists {
  import opened Options

  class Node<T> {
    var data: T
    var prev: Node?<T>
    var next: Node?<T>

    constructor (data: T, prev: Node?<T>, next: Node?<T>)
      ensures this.data == data && this.prev == prev && this.next == next
    {
      this.data, this.prev, this.next := data, prev, next;
    }
  }

  ghost predicate Distinct<T>(nodes: seq<Node<T>>) {
    forall i, j :: 0 <= i < j < |nodes| ==> nodes[i] != nodes[j]
  }

  /** The node at position `i`, or null off either end. */
  ghost function NodeAt<T>(nodes: seq<Node<T>>, i: int): Node?<T> {
    if 0 <= i < |nodes| then nodes[i] else null
  }

  ghost function Data<T>(nodes: seq<Node<T>>): (s: seq<T>)
    reads nodes
    ensures |s| == |nodes| && forall i :: 0 <= i < |s| ==> s[i] == nodes[i].data
  {
    seq(|nodes|, i requires 0 <= i < |nodes| reads nodes => nodes[i].data)
  }

  ghost function Without<T>(s: seq<T>, i: nat): seq<T>
    requires i < |s|
  {
    s[..i] + s[i + 1..]
  }

  ghost predicate LinkedAt<T>(nodes: seq<Node<T>>, i: nat)
    requires i < |nodes|
    reads nodes
  {
    nodes[i].prev == NodeAt(nodes, i - 1) && nodes[i].next == NodeAt(nodes, i + 1)
  }

  /** The links of the node at `k` skip the one at `i`. */
  ghost predicate PastAt<T>(nodes: seq<Node<T>>, k: nat, i: nat)
    requires k < |nodes|
    reads nodes
  {
    && nodes[k].prev == NodeAt(nodes, if k == i + 1 then i - 1 else k - 1)
    && nodes[k].next == NodeAt(nodes, if k + 1 == i then i + 1 else k + 1)
  }

  lemma WithoutLinked<T>(nodes: seq<Node<T>>, i: nat)
    requires i < |nodes| && forall k :: 0 <= k < |nodes| ==> PastAt(nodes, k, i)
    ensures forall k :: 0 <= k < |nodes| - 1 ==> LinkedAt(Without(nodes, i), k)
  {
    forall k | 0 <= k < |nodes| - 1
      ensures LinkedAt(Without(nodes, i), k)
    {
      assert PastAt(nodes, if k < i then k else k + 1, i);
    }
  }

  lemma WithoutNodes<T>(nodes: seq<Node<T>>, i: nat)
    requires Distinct(nodes) && i < |nodes|
    ensures Distinct(Without(nodes, i)) && |Without(nodes, i)| == |nodes| - 1
    ensures forall k :: 0 <= k < |nodes| - 1 ==> Without(nodes, i)[k] == nodes[if k < i then k else k + 1]
    ensures forall x :: x in Without(nodes, i) <==> x in nodes && x != nodes[i]
    ensures Data(Without(nodes, i)) == Without(Data(nodes), i)
  {
    forall x | x in nodes && x != nodes[i]
      ensures x in Without(nodes, i)
    {
      var k :| 0 <= k < |nodes| && nodes[k] == x;
      assert Without(nodes, i)[if k < i then k else k - 1] == x;
    }
  }

  /** A node linked in front of a chain, in a heap that already has the new links. */
  lemma ConsNodes<T>(node: Node<T>, nodes: seq<Node<T>>) returns (all: seq<Node<T>>)
    requires Distinct(nodes) && node !in nodes
    requires node.prev == null && node.next == NodeAt(nodes, 0)
    requires |nodes| > 0 ==> nodes[0].prev == node && nodes[0].next == NodeAt(nodes, 1)
    requires forall k :: 1 <= k < |nodes| ==> LinkedAt(nodes, k)
    ensures all == [node] + nodes && Distinct(all) && Data(all) == [node.data] + Data(nodes)
    ensures forall k :: 0 <= k < |all| ==> LinkedAt(all, k)
  {
    all := [node] + nodes;
    forall k | 0 <= k < |all|
      ensures LinkedAt(all, k)
    {
      assert k >= 2 ==> LinkedAt(nodes, k - 1);
    }
  }

  class List<T> {
    var head: Node?<T>
    var tail: Node?<T>
    var iterator_: Node?<T>
    var size: int
    ghost var nodes: seq<Node<T>>

    ghost predicate Valid()
      reads this`head, this`tail, this`size, this`nodes, nodes
    {
      && Distinct(nodes)
      && head == NodeAt(nodes, 0)
      && tail == NodeAt(nodes, |nodes| - 1)
      && size == |nodes|
      && forall i :: 0 <= i < |nodes| ==> LinkedAt(nodes, i)
    }

    /** The iterator is off the list or on one of its nodes, not on a freed one. */
    ghost predicate Iterable()
      reads this
    {
      iterator_ == null || iterator_ in nodes
    }

    ghost function Contents(): seq<T>
      reads this`nodes, nodes
    {
      Data(nodes)
    }

    constructor ()
      ensures Valid() && Iterable() && nodes == [] && Contents() == []
    {
      head, tail, iterator_, size, nodes := null, null, null, 0, [];
    }

    /** `oom` says whether the heap refuses the new node. */
    method Append(data: T, oom: bool) returns (node: Node?<T>)
      requires Valid()
      modifies this, nodes
      ensures Valid() && (node == null <==> oom) && iterator_ == old(iterator_)
      ensures oom ==> nodes == old(nodes) && Contents() == old(Contents())
      ensures !oom ==> fresh(node) && nodes == old(nodes) + [node] && Contents() == old(Contents()) + [data]
    {
      if oom {
        return null;
      }
      node := new Node(data, tail, null);
      if tail != null {
        tail.next := node;
      }
      tail := node;
      if head == null {
        head := node;
      }
      size := size + 1;
      ghost var was := nodes;
      assert |was| > 0 ==> old(LinkedAt(nodes, |was| - 1));
      nodes := nodes + [node];
      forall k | 0 <= k < |nodes|
        ensures LinkedAt(nodes, k)
      {
        if k < |was| {
          assert old(LinkedAt(nodes, k));
        }
      }
    }

    method Prepend(data: T, oom: bool) returns (node: Node?<T>)
      requires Valid()
      modifies this, nodes
      ensures Valid() && (node == null <==> oom) && iterator_ == old(iterator_)
      ensures oom ==> nodes == old(nodes) && Contents() == old(Contents())
      ensures !oom ==> fresh(node) && nodes == [node] + old(nodes) && Contents() == [data] + old(Contents())
    {
      if oom {
        return null;
      }
      node := new Node(data, null, head);
      LinkFront(node);
      size := size + 1;
      ghost var was := nodes;
      assert Data(was) == old(Data(was));
      nodes := ConsNodes(node, was);
      hide Distinct, Data, LinkedAt;
    }

    /** Makes the first node, or the ends of the list, point at the new `node`. */
    method LinkFront(node: Node<T>)
      requires Valid() && node !in nodes
      modifies this`head, this`tail, nodes
      ensures head == node && tail == if |nodes| == 0 then node else old(tail)
      ensures |nodes| > 0 ==> nodes[0].prev == node && nodes[0].next == NodeAt(nodes, 1)
      ensures forall k :: 1 <= k < |nodes| ==> LinkedAt(nodes, k)
      ensures forall k :: 0 <= k < |nodes| ==> nodes[k].data == old(nodes[k].data)
    {
      assert |nodes| > 0 ==> LinkedAt(nodes, 0);
      if head != null {
        head.prev := node;
      }
      head := node;
      if tail == null {
        tail := node;
      }
      forall k | 1 <= k < |nodes|
        ensures LinkedAt(nodes, k)
      {
        assert old(LinkedAt(nodes, k));
      }
    }

    /** Takes the node at position `i` out; of a null node nothing comes. The iterator is left as it
        is, so it survives exactly when it is not on that node. */
    method Remove(node: Node?<T>, ghost i: nat) returns (data: Option<T>)
      requires Valid() && (node != null ==> i < |nodes| && nodes[i] == node)
      modifies this, nodes
      ensures Valid() && iterator_ == old(iterator_)
      ensures node == null ==> data == None && nodes == old(nodes) && Contents() == old(Contents())
      ensures node != null ==>
                && data == Some(old(node.data)) && nodes == Without(old(nodes), i)
                && Contents() == Without(old(Contents()), i)
                && (old(Iterable()) ==> (Iterable() <==> old(iterator_) != node))
    {
      if node == null {
        return None;
      }
      hide Valid, LinkedAt, Without;
      var taken := TakeOut(node, i);
      data := Some(taken);
    }

    method TakeOut(node: Node<T>, ghost i: nat) returns (data: T)
      requires Valid() && i < |nodes| && nodes[i] == node
      modifies this, nodes
      ensures Valid() && nodes == Without(old(nodes), i) && data == old(node.data)
      ensures Contents() == Without(old(Contents()), i)
      ensures iterator_ == old(iterator_) && (old(Iterable()) ==> (Iterable() <==> old(iterator_) != node))
    {
      Bypass(node, i);
      size := size - 1;
      data := node.data;
      ghost var was := nodes;
      nodes := Without(nodes, i);
      WithoutNodes(was, i);
      WithoutLinked(was, i);
      assert Data(was) == old(Data(was));
      hide Distinct, Without, Data, LinkedAt;
    }

    /** Makes the neighbours of `node`, or the ends of the list, point past it. */
    method Bypass(node: Node<T>, ghost i: nat)
      requires Valid() && i < |nodes| && nodes[i] == node
      modifies this`head, this`tail, nodes
      ensures head == NodeAt(nodes, if i == 0 then 1 else 0)
      ensures tail == NodeAt(nodes, if i == |nodes| - 1 then |nodes| - 2 else |nodes| - 1)
      ensures forall k :: 0 <= k < |nodes| ==> PastAt(nodes, k, i)
      ensures forall k :: 0 <= k < |nodes| ==> nodes[k].data == old(nodes[k].data)
    {
      assert LinkedAt(nodes, i) && (i > 0 ==> LinkedAt(nodes, i - 1)) && (i + 1 < |nodes| ==> LinkedAt(nodes, i + 1));
      if node.prev != null {
        node.prev.next := node.next;
      } else {
        head := node.next;
      }
      if node.next != null {
        node.next.prev := node.prev;
      } else {
        tail := node.prev;
      }
      forall k | 0 <= k < |nodes|
        ensures PastAt(nodes, k, i)
      {
        assert old(LinkedAt(nodes, k));
      }
    }

    method GetFirst() returns (node: Node?<T>)
      requires Valid()
      ensures node == NodeAt(nodes, 0)
    {
      node := head;
    }

    method IsEmpty() returns (empty: bool)
      requires Valid()
      ensures empty <==> Contents() == []
    {
      empty := head == null;
    }

    method Begin()
      requires Valid()
      modifies this`iterator_
      ensures Valid() && Iterable() && iterator_ == NodeAt(nodes, 0)
    {
      iterator_ := head;
    }

    /** From position `i`, whether a call of `Next` will yield an element. */
    method HasNext(ghost i: nat) returns (more: bool)
      requires Valid() && iterator_ == NodeAt(nodes, i)
      ensures more <==> i < |nodes|
    {
      more := iterator_ != null;
    }

    /** Steps the iterator from position `i` and yields the element there, or none at the end. */
    method Next(ghost i: nat) returns (data: Option<T>)
      requires Valid() && iterator_ == NodeAt(nodes, i)
      modifies this`iterator_
      ensures Valid() && Iterable() && iterator_ == NodeAt(nodes, i + 1)
      ensures data == if i < |nodes| then Some(Contents()[i]) else None
    {
      if iterator_ == null {
        return None;
      }
      assert LinkedAt(nodes, i);
      data := Some(iterator_.data);
      iterator_ := iterator_.next;
    }
  }
}
