/** The doubly linked list of LinkedList.c, with its nodes in memory. A list stands for the sequence
    of its nodes. */
module LinkedList {
  import opened Common

  class Node<K(==), V> {
    const uniqueKey: K
    var data: V
    var next: Node?<K, V>
    var prev: Node?<K, V>

    constructor (key: K, data: V)
      ensures uniqueKey == key && this.data == data && next == null && prev == null
    {
      uniqueKey, this.data, next, prev := key, data, null, null;
    }
  }

  /** uniqueKey == NULL matches every node (LinkedList.c:82, LinkedList.c:95). */
  predicate Matches<K(==)>(key: K, wanted: Option<K>)
  {
    wanted.None? || key == wanted.value
  }

  ghost predicate Distinct<T>(s: seq<T>)
  {
    forall i, j {:trigger s[i], s[j]} :: 0 <= i < j < |s| ==> s[i] != s[j]
  }

  class List<K(==), V> {
    var length: int
    var start: Node?<K, V>
    var end: Node?<K, V>
    ghost var nodes: seq<Node<K, V>>

    /** The node at a position, or null past either end. */
    ghost function At(i: int): Node?<K, V>
      reads this
    {
      if 0 <= i < |nodes| then nodes[i] else null
    }

    ghost predicate Linked(i: int)
      reads this, nodes
      requires 0 <= i < |nodes|
    {
      nodes[i].next == At(i + 1) && nodes[i].prev == At(i - 1)
    }

    ghost predicate Valid()
      reads this, nodes
    {
      && length == |nodes| && start == At(0) && end == At(|nodes| - 1)
      && (forall i {:trigger Linked(i)} :: 0 <= i < |nodes| ==> Linked(i))
      && Distinct(nodes)
    }

    constructor ()
      ensures Valid() && nodes == []
    {
      length, start, end, nodes := 0, null, null, [];
    }

    /** LinkedListAdd (LinkedList.c:59-74): a new node at the end. */
    method Add(key: K, data: V) returns (n: Node<K, V>)
      requires Valid()
      modifies this, nodes
      ensures Valid() && fresh(n) && nodes == old(nodes) + [n] && n.uniqueKey == key && n.data == data
      ensures forall x :: x in old(nodes) ==> x.data == old(x.data)
    {
      var last := end;
      n := new Node(key, data);
      end := n;
      if start == null {
        start := n;
      } else {
        last.next := n;
        n.prev := last;
      }
      length := length + 1;
      ghost var was := nodes;
      nodes := was + [n];
      forall i | 0 <= i < |nodes|
        ensures Linked(i)
      {
        if i < |was| {
          assert old(Linked(i));
        }
      }
    }

    /** LinkedListNodeGetNextMatching (LinkedList.c:78-87): the first match at or after a node. */
    method GetNextMatching(from: Node?<K, V>, wanted: Option<K>, ghost i: int) returns (cur: Node?<K, V>, ghost j: int)
      requires Valid() && 0 <= i <= |nodes| && from == At(i)
      ensures i <= j <= |nodes| && cur == At(j)
      ensures j < |nodes| ==> Matches(nodes[j].uniqueKey, wanted)
      ensures forall k :: i <= k < j ==> !Matches(nodes[k].uniqueKey, wanted)
    {
      cur, j := from, i;
      while cur != null
        invariant i <= j <= |nodes| && cur == At(j)
        invariant forall k :: i <= k < j ==> !Matches(nodes[k].uniqueKey, wanted)
        decreases |nodes| - j
      {
        if wanted.None? || cur.uniqueKey == wanted.value {
          return;
        }
        assert Linked(j);
        cur := cur.next;
        j := j + 1;
      }
    }

    /** LinkedListNodeRemoveNextMatching (LinkedList.c:92-114): the first match at or after a node goes;
        the node after it is returned. */
    method RemoveNextMatching(from: Node?<K, V>, wanted: Option<K>, ghost i: int)
      returns (next: Node?<K, V>, ghost j: int)
      requires Valid() && 0 <= i <= |nodes| && from == At(i)
      modifies this, nodes
      ensures Valid() && i <= j <= |old(nodes)|
      ensures forall k :: i <= k < j ==> !Matches(old(nodes)[k].uniqueKey, wanted)
      ensures j < |old(nodes)| ==>
              Matches(old(nodes)[j].uniqueKey, wanted) &&
              nodes == old(nodes)[..j] + old(nodes)[j + 1..] && next == At(j)
      ensures j == |old(nodes)| ==> nodes == old(nodes) && next == null
      ensures forall x :: x in old(nodes) ==> x.data == old(x.data)
    {
      var cur;
      cur, j := GetNextMatching(from, wanted, i);
      if cur == null {
        return null, j;
      }
      assert Linked(j);
      next := Unlink(cur, j);
    }

    /** A node leaves the list. */
    method Unlink(cur: Node<K, V>, ghost j: int) returns (next: Node?<K, V>)
      requires Valid() && 0 <= j < |nodes| && nodes[j] == cur
      modifies this, nodes
      ensures Valid() && nodes == old(nodes)[..j] + old(nodes)[j + 1..] && next == At(j)
      ensures forall x :: x in old(nodes) ==> x.data == old(x.data)
    {
      assert Linked(j);
      length := length - 1;
      if cur.prev == null {
        start := cur.next;
      } else {
        cur.prev.next := cur.next;
      }
      if cur.next == null {
        end := cur.prev;
      } else {
        cur.next.prev := cur.prev;
      }
      next := cur.next;
      ghost var was := nodes;
      nodes := was[..j] + was[j + 1..];
      forall k | 0 <= k < |nodes|
        ensures Linked(k)
      {
        var k' := if k < j then k else k + 1;
        assert nodes[k] == was[k'] && old(Linked(k'));
      }
    }
  }
}
