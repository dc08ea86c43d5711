/**
The doubly linked list of the library (src/common/tbox_dlist.c), pointer by pointer.  Its nodes
are those of the kernel's list, of which it uses only the two pointers; the list head is a node
of the ring itself.  A list means the sequence of its nodes.
*/
module DList {
  import opened Config
  import opened Lists

  class DList {
    const head: ListItem
    ghost var nodes: seq<ListItem>

    ghost predicate Valid()
      reads this, head, nodes
    {
      && head !in nodes && Distinct(nodes)
      && Chain(Trip(head, nodes))
    }

    /** dlist_init() */
    constructor ()
      ensures Valid() && nodes == [] && fresh(head)
    {
      head := new ListItem(0);
      nodes := [];
      new;
      head.next := head;
      head.prev := head;
      assert Trip(head, nodes) == [head, head];
    }

    /** dlist_empty() */
    method Empty() returns (b: bool)
      requires Valid()
      ensures b <==> nodes == []
    {
      Ends();
      b := head.next == head || head.prev == head;
    }

    /** What the pointers of the head say. */
    lemma Ends()
      requires Valid()
      ensures head.next == (if nodes == [] then head else nodes[0])
      ensures head.prev == if nodes == [] then head else nodes[|nodes| - 1]
    {
      var n := Trip(head, nodes);
      assert n[0].next == n[1] && n[|n| - 1].prev == n[|n| - 2];
    }

    /** dlist_add_head() */
    method AddHead(x: ListItem)
      requires Valid() && x != head && x !in nodes
      modifies this, head, nodes, x
      ensures Valid() && nodes == [x] + old(nodes)
    {
      Ends();
      Add(x, head, head.next, 0);
    }

    /** dlist_add_tail() */
    method AddTail(x: ListItem)
      requires Valid() && x != head && x !in nodes
      modifies this, head, nodes, x
      ensures Valid() && nodes == old(nodes) + [x]
    {
      Ends();
      Add(x, head.prev, head, |nodes|);
    }

    /** The four assignments of either insertion. */
    method Add(x: ListItem, before: ListItem, after: ListItem, ghost k: nat)
      requires Valid() && x != head && x !in nodes && k <= |nodes|
      requires before == Trip(head, nodes)[k] && after == Trip(head, nodes)[k + 1]
      modifies this, head, nodes, x
      ensures Valid() && nodes == Splice(old(nodes), k, x)
    {
      ghost var n := Trip(head, nodes);
      TripIsClosed(head, nodes);
      TripInsert(head, Ring(nodes, 0), k, x);
      Link(x, before, after, n, k);
      nodes := Splice(nodes, k, x);
    }

    /** dlist_del_entry(): the pointers of the entry itself are left as they were. */
    method DelEntry(x: ListItem)
      requires Valid() && x in nodes
      modifies this`nodes, head`next, head`prev, nodes`next, nodes`prev
      ensures Valid() && nodes == Dropped(old(nodes), x) && x !in nodes
    {
      ghost var k, n := PositionOf(nodes, x), Trip(head, nodes);
      TripIsClosed(head, nodes);
      TripRemove(head, Ring(nodes, 0), k);
      DroppedMembers(nodes, x);
      assert n[k + 1] == x && x.prev == n[k] && x.next == n[k + 2];
      assert x.prev == (if k == 0 then head else nodes[k - 1]);
      assert x.next == (if k + 1 == |nodes| then head else nodes[k + 1]);
      Unlink(x, x.prev, x.next, n, k + 1);
      nodes := nodes[..k] + nodes[k + 1..];
    }

    /** dlist_pop_first_node() */
    method PopFirst() returns (x: ListItem?)
      requires Valid()
      modifies this`nodes, head`next, head`prev, nodes`next, nodes`prev
      ensures Valid()
      ensures x == (if old(nodes) == [] then null else old(nodes)[0])
      ensures nodes == if old(nodes) == [] then [] else old(nodes)[1..]
    {
      x := null;
      var none := Empty();
      if !none {
        Ends();
        x := head.next;
        DelEntry(head.next);
      }
    }

    /** dlist_count() */
    method Count() returns (count: nat)
      requires Valid()
      ensures count == |nodes|
    {
      Ends();
      count := 0;
      var node := head.next;
      while node != head
        invariant 0 <= count <= |nodes| && node == Trip(head, nodes)[count + 1]
        decreases |nodes| - count
      {
        NodeAt(count);
        count := count + 1;
        node := node.next;
      }
      NodeAt(count);
    }

    /** dlist_has_node() */
    method HasNode(x: ListItem) returns (b: bool)
      requires Valid() && x != head
      ensures b <==> x in nodes
    {
      Ends();
      ghost var i := 0;
      var node := head.next;
      while node != head
        invariant 0 <= i <= |nodes| && node == Trip(head, nodes)[i + 1] && x !in nodes[..i]
        decreases |nodes| - i
      {
        NodeAt(i);
        if node == x {
          return true;
        }
        i := i + 1;
        node := node.next;
      }
      NodeAt(i);
      b := false;
    }

    /** A walk meets the head again only behind the last node. */
    lemma NodeAt(i: int)
      requires Valid() && 0 <= i <= |nodes|
      ensures i < |nodes| ==>
                var n := Trip(head, nodes);
                n[i + 1] == nodes[i] != head && n[i + 1].next == n[i + 2]
      ensures i == |nodes| ==> Trip(head, nodes)[i + 1] == head
    {
      if i < |nodes| {
        var n := Trip(head, nodes);
        assert n[i + 1].next == n[i + 2];
        assert nodes[i] in nodes;
      }
    }
  }
}
