/** The two intrusive lists of the preallocated pool (aula-05-13a/tpool2.c): free descriptors and
    submitted ones. A descriptor is linked into one list or the other through the same entry; every
    method here is a section run under the pool's lock. */
module DescriptorLists {
  import opened Lists
  import DescriptorPool

  type Descriptor = ListEntry<nat>

  class DescriptorStore {
    const freeList: Descriptor
    const queueList: Descriptor
    const freepool: array<Descriptor>

    ghost var free: seq<Descriptor>
    ghost var queue: seq<Descriptor>

    ghost predicate Valid()
      reads this, freepool, freeList, queueList, free, queue
    {
      && freeList != queueList
      && (forall i :: 0 <= i < freepool.Length ==>
            freepool[i] != freeList && freepool[i] != queueList && freepool[i].item == i)
      && (forall i :: 0 <= i < |free| ==> Known(free[i]))
      && (forall i :: 0 <= i < |queue| ==> Known(queue[i]))
      && (forall i, j :: 0 <= i < |free| && 0 <= j < |queue| ==> free[i] != queue[j])
      && IsRing(freeList, free) && IsRing(queueList, queue)
    }

    ghost predicate Known(wi: Descriptor)
      reads freepool
    {
      wi.item < freepool.Length && freepool[wi.item] == wi
    }

    /** A descriptor in neither list: in the hands of a submitter or a worker. */
    ghost predicate InHand(wi: Descriptor)
      reads this, freepool
    {
      Known(wi) && wi !in free && wi !in queue
    }

    /** Empty lists over the descriptors embedded in the pool. */
    constructor (freepool: array<Descriptor>)
      requires forall i :: 0 <= i < freepool.Length ==> freepool[i].item == i
      ensures Valid() && this.freepool == freepool && free == queue == []
      ensures fresh(freeList) && fresh(queueList)
    {
      freeList := new ListEntry<nat>.Head(0);
      queueList := new ListEntry<nat>.Head(0);
      this.freepool := freepool;
      free, queue := [], [];
    }

    /** init_wi_pool: links every descriptor into the free list, in order. */
    method InitFree()
      requires Valid() && free == queue == []
      modifies this`free, freeList, set i | 0 <= i < freepool.Length :: freepool[i]
      ensures Valid() && queue == [] && free == freepool[..]
      ensures Ids(free) == DescriptorPool.FirstNumbers(freepool.Length)
    {
      for i := 0 to freepool.Length
        invariant Valid() && queue == [] && free == freepool[..i]
      {
        assert freepool[i] !in free by {
          assert forall k :: 0 <= k < i ==> free[k].item == k;
        }
        InsertTailList(freeList, freepool[i], free);
        free := free + [freepool[i]];
      }
      NumberedInOrder(free);
    }

    /** wi_create: NULL when no descriptor is free. */
    method WiCreate() returns (wi: ListEntry?<nat>)
      requires Valid()
      modifies this`free, freeList, free
      ensures Valid() && queue == old(queue)
      ensures wi == null <==> old(free) == []
      ensures if wi == null then free == old(free) else old(free) == [wi] + free && InHand(wi)
      ensures wi != null ==> Ids(old(free)) == [wi.item] + Ids(free)
    {
      var empty := IsListEmpty(freeList, free);
      if empty {
        return null;
      }
      var entry := RemoveHeadList(freeList, free);
      assert IsRing(queueList, queue);
      free := free[1..];
      IdsMove(free, entry);
      assert old(free) == [entry] + free;
      wi := entry;
    }

    /** wi_destroy. */
    method WiDestroy(wi: Descriptor)
      requires Valid() && InHand(wi)
      modifies this`free, freeList, free, wi
      ensures Valid() && free == [wi] + old(free) && queue == old(queue)
      ensures Ids(free) == [wi.item] + Ids(old(free))
    {
      IdsMove(free, wi);
      InsertHeadList(freeList, wi, free);
      assert IsRing(queueList, queue);
      free := [wi] + free;
    }

    /** The second half of tp_submit. */
    method Enqueue(wi: Descriptor)
      requires Valid() && InHand(wi)
      modifies this`queue, queueList, queue, wi
      ensures Valid() && queue == old(queue) + [wi] && free == old(free)
      ensures Ids(queue) == Ids(old(queue)) + [wi.item]
    {
      IdsMove(queue, wi);
      InsertTailList(queueList, wi, queue);
      assert IsRing(freeList, free);
      queue := queue + [wi];
    }

    /** A worker's turn at the queue, once it is not empty. */
    method Dequeue() returns (wi: Descriptor)
      requires Valid() && queue != []
      modifies this`queue, queueList, queue
      ensures Valid() && [wi] + queue == old(queue) && free == old(free) && InHand(wi)
      ensures Ids(old(queue)) == [wi.item] + Ids(queue)
    {
      wi := RemoveHeadList(queueList, queue);
      assert IsRing(freeList, free);
      queue := queue[1..];
      IdsMove(queue, wi);
      assert old(queue) == [wi] + queue;
    }
  }

  /** The numbers of the descriptors in a list. */
  ghost function Ids(s: seq<Descriptor>): (r: seq<nat>)
    ensures |r| == |s|
  {
    if s == [] then [] else Ids(s[..|s| - 1]) + [s[|s| - 1].item]
  }

  /** Linking a descriptor in at either end moves its number as the protocol does. */
  lemma {:induction false} IdsMove(s: seq<Descriptor>, wi: Descriptor)
    ensures Ids([wi] + s) == [wi.item] + Ids(s) && Ids(s + [wi]) == Ids(s) + [wi.item]
  {
    assert (s + [wi])[..|s|] == s;
    if s == [] {
      assert [wi] + s == [wi];
      assert Ids([wi][..0]) == [];
    } else {
      IdsMove(s[..|s| - 1], wi);
      assert ([wi] + s)[..|s|] == [wi] + s[..|s| - 1];
    }
  }

  lemma {:induction false} NumberedInOrder(s: seq<Descriptor>)
    requires forall i :: 0 <= i < |s| ==> s[i].item == i
    ensures Ids(s) == DescriptorPool.FirstNumbers(|s|)
  {
    if s != [] {
      NumberedInOrder(s[..|s| - 1]);
    }
  }
}
