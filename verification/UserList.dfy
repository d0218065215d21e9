/** The linked list under the user-level mutex and condition variable
    (user/libthread/list.c): heap nodes behind a head and a tail. */
module UserList {
  import opened Collections

  class Node {
    const value: int
    var next: Node?
    var prev: Node?

    constructor (value: int)
      ensures this.value == value && next == null && prev == null
    {
      this.value, next, prev := value, null, null;
    }
  }

  function At(nodes: seq<Node>, i: int): Node? {
    if 0 <= i < |nodes| then nodes[i] else null
  }

  class List {
    var head: Node?
    var tail: Node?
    var size: nat
    ghost var nodes: seq<Node>
    /** The values from head to tail. */
    ghost var contents: seq<int>

    ghost predicate Linked(i: nat)
      requires i < |nodes| == |contents|
      reads this`nodes, this`contents, nodes`next, nodes`prev
    {
      nodes[i].value == contents[i] && nodes[i].next == At(nodes, i + 1) && nodes[i].prev == At(nodes, i - 1)
    }

    ghost predicate Valid()
      reads this, nodes`next, nodes`prev
    {
      && size == |nodes| == |contents|
      && head == At(nodes, 0) && tail == At(nodes, |nodes| - 1)
      && NoDuplicates(nodes)
      && forall i :: 0 <= i < |nodes| ==> Linked(i)
    }

    constructor ()
      ensures Valid() && contents == []
    {
      head, tail, size, nodes, contents := null, null, 0, [], [];
    }

    method AddFirst(value: int)
      requires Valid()
      modifies this, nodes`prev
      ensures Valid() && contents == [value] + old(contents)
    {
      var node := new Node(value);
      size := size + 1;
      if head == null {
        head := node;
        tail := node;
      } else {
        node.next := head;
        head.prev := node;
        head := node;
      }
      nodes, contents := [node] + nodes, [value] + contents;
      forall i | 0 <= i < |nodes|
        ensures Linked(i)
      {
        assert i > 0 ==> nodes[i] == old(nodes)[i - 1] && old(Linked(i - 1));
      }
    }

    method AddLast(value: int)
      requires Valid()
      modifies this, nodes`next
      ensures Valid() && contents == old(contents) + [value]
    {
      var node := new Node(value);
      size := size + 1;
      if head == null {
        head := node;
        tail := node;
      } else {
        node.prev := tail;
        tail.next := node;
        tail := node;
      }
      nodes, contents := nodes + [node], contents + [value];
      forall i | 0 <= i < |nodes|
        ensures Linked(i)
      {
        assert i < |old(nodes)| ==> nodes[i] == old(nodes)[i] && old(Linked(i));
      }
    }

    /** The value at the head, -1 if the list is empty. */
    method RemoveHead() returns (value: int)
      requires Valid()
      modifies this, nodes`prev
      ensures Valid()
      ensures old(contents) == [] ==> value == -1 && contents == []
      ensures old(contents) != [] ==> value == old(contents)[0] && contents == old(contents)[1..]
    {
      if head == null {
        return -1;
      }
      assert Linked(0) && (size > 1 ==> Linked(1));
      value := head.value;
      head := head.next;
      size := size - 1;
      if head == null {
        tail := null;
      } else {
        head.prev := null;
      }
      nodes, contents := nodes[1..], contents[1..];
      forall i | 0 <= i < |nodes|
        ensures Linked(i)
      {
        assert nodes[i] == old(nodes)[i + 1] && old(Linked(i + 1));
      }
    }

    /** The value at the tail, -1 if the list is empty. */
    method RemoveTail() returns (value: int)
      requires Valid()
      modifies this, nodes`next
      ensures Valid()
      ensures old(contents) == [] ==> value == -1 && contents == []
      ensures old(contents) != [] ==> value == old(contents)[|old(contents)| - 1] && contents == old(contents)[..|old(contents)| - 1]
    {
      if tail == null {
        return -1;
      }
      ghost var last := size - 1;
      assert Linked(last) && (last > 0 ==> Linked(last - 1));
      value := tail.value;
      tail := tail.prev;
      size := size - 1;
      if tail == null {
        head := null;
      } else {
        tail.next := null;
      }
      nodes, contents := nodes[..last], contents[..last];
      forall i | 0 <= i < |nodes|
        ensures Linked(i)
      {
        assert nodes[i] == old(nodes)[i] && old(Linked(i));
      }
    }
  }
}
