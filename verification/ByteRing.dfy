/** The buffer of the shared-memory channel (ipc/memchannel/memchan.c): fixed-size elements stored as
    bytes in a ring, changed in place by the part of mc_put and mc_get that runs under the lock. */
module ByteRing {

  type byte = b: int | 0 <= b < 256

  /** An index just past the end starts again at 0. */
  function Wrap(i: nat, capacity: nat): nat {
    if i >= capacity then i - capacity else i
  }

  lemma WrapIsModulo(i: nat, capacity: nat)
    requires i < 2 * capacity
    ensures Wrap(i, capacity) == i % capacity
  {
    if i >= capacity {
      assert i == capacity + (i - capacity);
    }
  }

  /** Slots lie inside the buffer and do not overlap. */
  lemma SlotsDisjoint(p: nat, q: nat, elemSize: nat, capacity: nat)
    requires p < capacity && q < capacity
    ensures 0 <= p * elemSize <= (p + 1) * elemSize == p * elemSize + elemSize <= capacity * elemSize
    ensures p < q ==> (p + 1) * elemSize <= q * elemSize
    ensures q < p ==> (q + 1) * elemSize <= p * elemSize
  {
    Monotone(0, p, elemSize);
    Monotone(p + 1, capacity, elemSize);
    if p < q {
      Monotone(p + 1, q, elemSize);
    } else if q < p {
      Monotone(q + 1, p, elemSize);
    }
  }

  lemma Monotone(a: nat, b: nat, e: nat)
    requires a <= b
    ensures a * e <= b * e
  {
  }

  // ----- a buffer as a sequence of slots -----------------------------------------------------------

  function SlotAt(buf: seq<byte>, elemSize: nat, capacity: nat, p: nat): (s: seq<byte>)
    requires |buf| == capacity * elemSize && p < capacity
    ensures |s| == elemSize
  {
    SlotsDisjoint(p, p, elemSize, capacity);
    buf[p * elemSize..p * elemSize + elemSize]
  }

  function Slots(buf: seq<byte>, elemSize: nat, capacity: nat): (r: seq<seq<byte>>)
    requires |buf| == capacity * elemSize
    ensures |r| == capacity
    ensures forall p :: 0 <= p < capacity ==> r[p] == SlotAt(buf, elemSize, capacity, p)
  {
    seq(capacity, p requires 0 <= p < capacity => SlotAt(buf, elemSize, capacity, p))
  }

  /** The buffer with `item` written from byte `at` on. */
  function Written(buf: seq<byte>, at: nat, item: seq<byte>): (r: seq<byte>)
    requires at + |item| <= |buf|
    ensures |r| == |buf|
  {
    buf[..at] + item + buf[at + |item|..]
  }

  lemma WrittenThere(buf: seq<byte>, at: nat, item: seq<byte>)
    requires at + |item| <= |buf|
    ensures Written(buf, at, item)[at..at + |item|] == item
  {
  }

  lemma WrittenElsewhere(buf: seq<byte>, at: nat, item: seq<byte>, lo: nat, hi: nat)
    requires at + |item| <= |buf| && lo <= hi <= |buf| && (hi <= at || at + |item| <= lo)
    ensures Written(buf, at, item)[lo..hi] == buf[lo..hi]
  {
  }

  /** Writing an item at a slot's offset replaces that slot and no other. */
  lemma WriteSlot(buf: seq<byte>, elemSize: nat, capacity: nat, p: nat, item: seq<byte>)
    requires |buf| == capacity * elemSize && p < capacity && |item| == elemSize
    ensures p * elemSize + elemSize <= |buf|
    ensures Slots(Written(buf, p * elemSize, item), elemSize, capacity) == Slots(buf, elemSize, capacity)[p := item]
  {
    SlotsDisjoint(p, p, elemSize, capacity);
    var at := p * elemSize;
    forall q: nat | q < capacity
      ensures SlotAt(Written(buf, at, item), elemSize, capacity, q)
           == if q == p then item else SlotAt(buf, elemSize, capacity, q)
    {
      WriteOneSlot(buf, elemSize, capacity, p, item, q);
    }
  }

  lemma WriteOneSlot(buf: seq<byte>, elemSize: nat, capacity: nat, p: nat, item: seq<byte>, q: nat)
    requires |buf| == capacity * elemSize && p < capacity && q < capacity && |item| == elemSize
    requires p * elemSize + elemSize <= |buf|
    ensures SlotAt(Written(buf, p * elemSize, item), elemSize, capacity, q)
         == if q == p then item else SlotAt(buf, elemSize, capacity, q)
  {
    SlotsDisjoint(p, q, elemSize, capacity);
    SlotsDisjoint(q, p, elemSize, capacity);
    var at, lo := p * elemSize, q * elemSize;
    if q == p {
      WrittenThere(buf, at, item);
    } else {
      WrittenElsewhere(buf, at, item, lo, lo + elemSize);
    }
  }

  /** memcpy into the buffer. */
  method Copy(buf: array<byte>, at: nat, item: seq<byte>)
    requires at + |item| <= buf.Length
    modifies buf
    ensures buf[..] == Written(old(buf[..]), at, item)
  {
    forall i | 0 <= i < |item| {
      buf[at + i] := item[i];
    }
  }

  // ----- the ring ----------------------------------------------------------------------------------

  /** The channel's memory as a value. */
  datatype Ring = Ring(elemSize: nat, capacity: nat, buf: seq<byte>, iput: nat, iget: nat, size: nat)

  predicate WellSized(r: Ring) {
    && r.capacity >= 1 && |r.buf| == r.capacity * r.elemSize
    && r.iput < r.capacity && r.iget < r.capacity && r.size <= r.capacity
  }

  function Cells(r: Ring): seq<seq<byte>>
    requires WellSized(r)
  {
    Slots(r.buf, r.elemSize, r.capacity)
  }

  /** What the locked part of mc_put does when there is space. */
  function PutBytes(r: Ring, item: seq<byte>): Ring
    requires WellSized(r) && |item| == r.elemSize
  {
    SlotsDisjoint(r.iput, r.iput, r.elemSize, r.capacity);
    r.(buf := Written(r.buf, r.iput * r.elemSize, item), iput := Wrap(r.iput + 1, r.capacity), size := r.size + 1)
  }

  /** What the locked part of mc_get copies out when there is an element, and what it leaves. */
  function GetBytes(r: Ring): seq<byte>
    requires WellSized(r)
  {
    Cells(r)[r.iget]
  }

  function AfterGet(r: Ring): Ring
    requires WellSized(r) && r.size > 0
  {
    r.(iget := Wrap(r.iget + 1, r.capacity), size := r.size - 1)
  }

  /** The elements in the ring, oldest first, are exactly `contents`. */
  ghost predicate Holds(r: Ring, contents: seq<seq<byte>>) {
    && WellSized(r) && r.iput == Wrap(r.iget + r.size, r.capacity)
    && |contents| == r.size
    && forall j :: 0 <= j < r.size ==> contents[j] == Cells(r)[Wrap(r.iget + j, r.capacity)]
  }

  /** A put adds exactly the item's bytes at the end. */
  lemma PutHolds(r: Ring, contents: seq<seq<byte>>, item: seq<byte>)
    requires Holds(r, contents) && r.size < r.capacity && |item| == r.elemSize
    ensures Holds(PutBytes(r, item), contents + [item])
  {
    WriteSlot(r.buf, r.elemSize, r.capacity, r.iput, item);
    var r' := PutBytes(r, item);
    assert Cells(r') == Cells(r)[r.iput := item];
    forall j | 0 <= j < r'.size ensures (contents + [item])[j] == Cells(r')[Wrap(r'.iget + j, r'.capacity)] {
      assert j < r.size ==> Wrap(r.iget + j, r.capacity) != r.iput;
    }
  }

  /** A get copies out exactly the bytes of the oldest element and removes it. */
  lemma GetHolds(r: Ring, contents: seq<seq<byte>>)
    requires Holds(r, contents) && r.size > 0
    ensures GetBytes(r) == contents[0] && Holds(AfterGet(r), contents[1..])
  {
    var r' := AfterGet(r);
    assert Wrap(r.iget + 0, r.capacity) == r.iget;
    forall j | 0 <= j < r'.size ensures contents[1..][j] == Cells(r')[Wrap(r'.iget + j, r'.capacity)] {
      assert Wrap(r'.iget + j, r.capacity) == Wrap(r.iget + (j + 1), r.capacity);
      assert contents[j + 1] == Cells(r)[Wrap(r.iget + (j + 1), r.capacity)];
    }
  }

  lemma PutKeepsAll(r: Ring, item: seq<byte>)
    requires WellSized(r) && r.size < r.capacity && |item| == r.elemSize
    ensures forall contents :: Holds(r, contents) ==> Holds(PutBytes(r, item), contents + [item])
  {
    forall contents | Holds(r, contents) ensures Holds(PutBytes(r, item), contents + [item]) {
      PutHolds(r, contents, item);
    }
  }

  lemma GetKeepsAll(r: Ring)
    requires WellSized(r) && r.size > 0
    ensures forall contents :: Holds(r, contents) ==>
              contents != [] && GetBytes(r) == contents[0] && Holds(AfterGet(r), contents[1..])
  {
    forall contents | Holds(r, contents)
      ensures contents != [] && GetBytes(r) == contents[0] && Holds(AfterGet(r), contents[1..])
    {
      GetHolds(r, contents);
    }
  }

  class MemChannel {
    const elemSize: nat
    const capacity: nat
    var iput: nat
    var iget: nat
    var size: nat
    const buf: array<byte>

    ghost function Value(): Ring
      reads this, buf
    {
      Ring(elemSize, capacity, buf[..], iput, iget, size)
    }

    ghost predicate Valid()
      reads this, buf
    {
      WellSized(Value())
    }

    /** mc_create. */
    constructor (elemSize: nat, capacity: nat)
      requires capacity >= 1
      ensures Valid() && Holds(Value(), []) && fresh(buf)
      ensures this.elemSize == elemSize && this.capacity == capacity
    {
      this.elemSize, this.capacity := elemSize, capacity;
      iput, iget, size := 0, 0, 0;
      buf := new byte[capacity * elemSize];
    }

    /** The locked part of mc_put, reached when there is space. */
    method Put(item: seq<byte>)
      requires Valid() && size < capacity && |item| == elemSize
      modifies this, buf
      ensures Valid() && Value() == PutBytes(old(Value()), item)
      ensures forall contents :: old(Holds(Value(), contents)) ==> Holds(Value(), contents + [item])
    {
      ghost var was := Value();
      SlotsDisjoint(iput, iput, elemSize, capacity);
      Copy(buf, iput * elemSize, item);
      iput := iput + 1;
      if iput == capacity {
        iput := 0;
      }
      size := size + 1;
      assert Value() == PutBytes(was, item);
      PutKeepsAll(was, item);
    }

    /** The locked part of mc_get, reached when there is an element. */
    method Get() returns (item: seq<byte>)
      requires Valid() && size > 0
      modifies this
      ensures Valid() && item == GetBytes(old(Value())) && Value() == AfterGet(old(Value()))
      ensures forall contents :: old(Holds(Value(), contents)) ==>
                contents != [] && item == contents[0] && Holds(Value(), contents[1..])
    {
      ghost var was := Value();
      SlotsDisjoint(iget, iget, elemSize, capacity);
      item := buf[iget * elemSize..iget * elemSize + elemSize];
      iget := iget + 1;
      if iget == capacity {
        iget := 0;
      }
      size := size - 1;
      assert Value() == AfterGet(was);
      GetKeepsAll(was);
    }
  }
}
