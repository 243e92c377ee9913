/** The memory behind the ticket ring (ipc/memchannel2/memchan.c): the two counters and the bytes of
    the slots, changed in place. Read slot by slot it is the sequence of values that `TicketRing`
    works on. */
module TicketBuffers {
  import opened Arithmetic
  import opened ByteRing
  import TicketRing

  function SlotOf(ticket: nat, capacity: nat): nat
    requires capacity > 0
  {
    ticket % capacity
  }

  /** No ticket less than a turn of the ring away has the same slot. */
  lemma TicketsApart(ticket: nat, capacity: nat)
    requires capacity > 0
    ensures forall k: nat :: ticket < k + capacity && k != ticket && k < ticket + capacity ==>
              SlotOf(k, capacity) != SlotOf(ticket, capacity)
  {
    forall k: nat | ticket < k + capacity && k != ticket && k < ticket + capacity
      ensures SlotOf(k, capacity) != SlotOf(ticket, capacity)
    {
      if k < ticket {
        TicketRing.SlotsDiffer(k, ticket, capacity);
      } else {
        TicketRing.SlotsDiffer(ticket, k, capacity);
      }
    }
  }

  /** Any `capacity` tickets in a row have all the slots, each exactly once. */
  lemma TurnOfTheRing(first: nat, capacity: nat, slot: nat)
    requires slot < capacity
    ensures exists k: nat :: first <= k < first + capacity && SlotOf(k, capacity) == slot
    ensures forall k: nat, l: nat :: first <= k < l < first + capacity ==> SlotOf(k, capacity) != SlotOf(l, capacity)
  {
    forall k: nat, l: nat | first <= k < l < first + capacity ensures SlotOf(k, capacity) != SlotOf(l, capacity) {
      TicketsApart(k, capacity);
    }
    var turn, at := first / capacity, first % capacity;
    assert first == turn * capacity + at;
    if slot >= at {
      QuotientIs(turn * capacity + slot, capacity, turn, slot);
      assert SlotOf(first + (slot - at), capacity) == slot;
    } else {
      assert (turn + 1) * capacity == turn * capacity + capacity;
      QuotientIs(turn * capacity + capacity + slot, capacity, turn + 1, slot);
      assert SlotOf(first + (slot - at) + capacity, capacity) == slot;
    }
  }

  class TicketChannel {
    const elemSize: nat
    const capacity: nat
    var iput: nat
    var iget: nat
    const buf: array<byte>

    ghost predicate Valid()
    {
      capacity > 0 && buf.Length == capacity * elemSize
    }

    /** The contents, one value for each slot. */
    ghost function Contents(): seq<seq<byte>>
      requires Valid()
      reads buf
    {
      Slots(buf[..], elemSize, capacity)
    }

    /** mc_create. */
    constructor (elemSize: nat, capacity: nat)
      requires capacity > 0
      ensures Valid() && fresh(buf) && iput == iget == 0
      ensures this.elemSize == elemSize && this.capacity == capacity
    {
      this.elemSize, this.capacity := elemSize, capacity;
      iput, iget := 0, 0;
      buf := new byte[capacity * elemSize];
    }

    /** One fetch-and-add on iput, and the slot it gives. */
    method PutTicket() returns (pos: nat)
      requires Valid()
      modifies `iput
      ensures iput == old(iput) + 1 && pos == SlotOf(old(iput), capacity) < capacity
      ensures forall k: nat :: old(iput) < k + capacity && k != old(iput) && k < old(iput) + capacity ==>
                SlotOf(k, capacity) != pos
    {
      TicketsApart(iput, capacity);
      pos := iput % capacity;
      iput := iput + 1;
    }

    method GetTicket() returns (pos: nat)
      requires Valid()
      modifies `iget
      ensures iget == old(iget) + 1 && pos == SlotOf(old(iget), capacity) < capacity
      ensures forall k: nat :: old(iget) < k + capacity && k != old(iget) && k < old(iget) + capacity ==>
                SlotOf(k, capacity) != pos
    {
      TicketsApart(iget, capacity);
      pos := iget % capacity;
      iget := iget + 1;
    }

    /** memcpy into a slot: that value is replaced and no other. */
    method CopyIn(pos: nat, item: seq<byte>)
      requires Valid() && pos < capacity && |item| == elemSize
      modifies buf
      ensures Contents() == old(Contents())[pos := item]
    {
      WriteSlot(buf[..], elemSize, capacity, pos, item);
      Copy(buf, pos * elemSize, item);
    }

    /** memcpy out of a slot. */
    method CopyOut(pos: nat) returns (item: seq<byte>)
      requires Valid() && pos < capacity
      ensures item == Contents()[pos]
    {
      SlotsDisjoint(pos, pos, elemSize, capacity);
      item := buf[pos * elemSize..pos * elemSize + elemSize];
    }
  }
}
