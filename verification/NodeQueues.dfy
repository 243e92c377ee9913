/** The unbounded queue of nodes on an intrusive list: the list inside the bounded queue
    (tests/queue.c), what the pools' blocking queue (aula-05-13a/queue.c) does under its lock, and the
    ready queue of threads that ut_activate appends to. */
module NodeQueues {
  import opened Lists

  class NodeQueue<T(0)> {
    const list: ListEntry<T>
    ghost var nodes: seq<ListEntry<T>>
    ghost var contents: seq<T>  // the items, oldest first
    ghost var Repr: set<object>

    ghost predicate Valid()
      reads this, Repr
    {
      && this in Repr && list in Repr && (forall e :: e in nodes ==> e in Repr)
      && IsRing(list, nodes)
      && |contents| == |nodes|
      && forall i :: 0 <= i < |nodes| ==> nodes[i].item == contents[i]
    }

    constructor ()
      ensures Valid() && fresh(Repr) && contents == []
    {
      var unused: T := *;
      list := new ListEntry<T>.Head(unused);
      nodes, contents := [], [];
      Repr := {this, list};
    }

    /** A new node at the tail. */
    method Append(item: T)
      requires Valid()
      modifies Repr
      ensures Valid() && old(Repr) <= Repr && fresh(Repr - old(Repr))
      ensures contents == old(contents) + [item]
    {
      var node := new ListEntry<T>(item);
      InsertTailList(list, node, nodes);
      nodes, contents := nodes + [node], contents + [item];
      Repr := Repr + {node};
    }

    /** The node at the head leaves the list and gives up its item. */
    method TakeHead() returns (item: T)
      requires Valid() && contents != []
      modifies Repr
      ensures Valid() && Repr == old(Repr)
      ensures [item] + contents == old(contents)
    {
      var node := RemoveHeadList(list, nodes);
      item := node.item;
      nodes, contents := nodes[1..], contents[1..];
    }
  }
}
