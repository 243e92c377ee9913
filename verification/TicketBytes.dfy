/** The whole of ipc/memchannel2/memchan.c: the step system of `TicketRing` with the bytes of the slots.
    A put copies its item into the buffer at the offset of its ticket's slot, a get copies the bytes at
    its own ticket's slot out. */
module TicketBytes {
  import opened Runs
  import opened ByteRing
  import R = TicketRing

  type Bytes = seq<byte>

  datatype State = State(
    ring: R.State<Bytes>,
    elemSize: nat,
    buf: seq<byte>,
    got: map<nat, Bytes>)  // the bytes that the get with ticket k has copied out

  predicate SizedItem(pc: R.PC<Bytes>, elemSize: nat) {
    (pc.PutTicketing? || pc.PutCopying? ==> |pc.v| == elemSize)
  }

  /** Callers pass items of the channel's element size. */
  predicate Enabled(s: State, a: R.Action<Bytes>) {
    && R.Enabled(s.ring, a) && |s.buf| == s.ring.capacity * s.elemSize
    && (a.StartPut? ==> |a.v| == s.elemSize)
    && (a.Go? ==> SizedItem(s.ring.pcs[a.t], s.elemSize))
  }

  function BufferAfter(s: State, a: R.Action<Bytes>): seq<byte>
    requires Enabled(s, a)
  {
    if a.Go? && s.ring.pcs[a.t].PutCopying? then
      var slot := s.ring.pcs[a.t].k % s.ring.capacity;
      SlotsDisjoint(slot, slot, s.elemSize, s.ring.capacity);
      Written(s.buf, slot * s.elemSize, s.ring.pcs[a.t].v)
    else s.buf
  }

  function GotAfter(s: State, a: R.Action<Bytes>): map<nat, Bytes>
    requires Enabled(s, a)
  {
    if a.Go? && s.ring.pcs[a.t].GetCopying? then
      var k := s.ring.pcs[a.t].k;
      s.got[k := SlotAt(s.buf, s.elemSize, s.ring.capacity, k % s.ring.capacity)]
    else s.got
  }

  function Do(s: State, a: R.Action<Bytes>): State
    requires Enabled(s, a)
  {
    State(R.Do(s.ring, a), s.elemSize, BufferAfter(s, a), GotAfter(s, a))
  }

  ghost predicate Reads(s: State) {
    && |s.buf| == s.ring.capacity * s.elemSize
    && Slots(s.buf, s.elemSize, s.ring.capacity) == s.ring.buffer
  }

  ghost predicate Init(s: State) {
    R.Init(s.ring) && Reads(s) && s.got == map[]
  }

  ghost predicate Step(s: State, s': State) {
    exists a :: Enabled(s, a) && s' == Do(s, a)
  }

  ghost predicate Inv(s: State) {
    && R.Inv(s.ring) && Reads(s) && s.got == s.ring.read
    && forall t :: 0 <= t < |s.ring.pcs| ==> SizedItem(s.ring.pcs[t], s.elemSize)
  }

  lemma InitInv(s: State)
    requires Init(s)
    ensures Inv(s)
  {
    R.InitCounts(s.ring);
    R.InitContents(s.ring);
  }

  /** The bytes, read slot by slot, follow the values of the step system. */
  lemma BytesFollow(s: State, a: R.Action<Bytes>)
    requires Enabled(s, a) && Reads(s) && s.got == s.ring.read
    ensures Reads(Do(s, a)) && Do(s, a).got == Do(s, a).ring.read
  {
    if a.Go? && s.ring.pcs[a.t].PutCopying? {
      var slot := s.ring.pcs[a.t].k % s.ring.capacity;
      WriteSlot(s.buf, s.elemSize, s.ring.capacity, slot, s.ring.pcs[a.t].v);
    }
  }

  lemma ItemsStaySized(q: R.State<Bytes>, a: R.Action<Bytes>, elemSize: nat)
    requires R.Enabled(q, a) && (a.StartPut? ==> |a.v| == elemSize)
    requires forall t :: 0 <= t < |q.pcs| ==> SizedItem(q.pcs[t], elemSize)
    ensures forall t :: 0 <= t < |R.Do(q, a).pcs| ==> SizedItem(R.Do(q, a).pcs[t], elemSize)
  {
  }

  lemma StepKeepsInv(s: State, s': State)
    requires Inv(s) && Step(s, s')
    ensures Inv(s')
    ensures R.Step(s.ring, s'.ring)
  {
    var a :| Enabled(s, a) && s' == Do(s, a);
    assert R.Enabled(s.ring, a);
    R.StepKeepsInv(s.ring, s'.ring);
    BytesFollow(s, a);
    ItemsStaySized(s.ring, a, s.elemSize);
  }

  lemma RunInv(run: seq<State>, k: nat)
    requires IsRun(Init, Step, run) && k < |run|
    ensures Inv(run[k])
  {
    forall s | Init(s) ensures Inv(s) { InitInv(s); }
    forall s, s' | Inv(s) && Step(s, s') ensures Inv(s') { StepKeepsInv(s, s'); }
    Always(Init, Step, Inv, run, k);
  }

  lemma {:induction false} DisciplineFixed(run: seq<State>, k: nat)
    requires IsRun(Init, Step, run) && k < |run|
    ensures R.Disciplined(run[k].ring) == R.Disciplined(run[0].ring)
  {
    if k > 0 {
      DisciplineFixed(run, k - 1);
      RunInv(run, k - 1);
      StepAt(Init, Step, run, k);
      StepKeepsInv(run[k - 1], run[k]);
      R.ConfigFixed(run[k - 1].ring, run[k].ring);
    }
  }

  /** Under the discipline, in every run, for every element size and capacity: every get has returned
      exactly the bytes that the put with the same ticket was given. */
  lemma EveryGetReturnsItsBytes(run: seq<State>, k: nat)
    requires IsRun(Init, Step, run) && k < |run| && R.Disciplined(run[0].ring)
    ensures var s := run[k];
            forall ticket :: ticket in s.got ==>
              ticket < |s.ring.putLog| && s.got[ticket] == s.ring.putLog[ticket]
  {
    RunInv(run, k);
    DisciplineFixed(run, k);
  }

  predicate Apart(p: nat, q: nat, elemSize: nat) {
    p * elemSize + elemSize <= q * elemSize || q * elemSize + elemSize <= p * elemSize
  }

  lemma OtherSlotApart(p: nat, q: nat, elemSize: nat, capacity: nat)
    requires p < capacity && q < capacity && p != q
    ensures Apart(p, q, elemSize)
  {
    SlotsDisjoint(p, q, elemSize, capacity);
    SlotsDisjoint(q, p, elemSize, capacity);
  }

  lemma OtherSlot(q: R.State<Bytes>, t: nat, u: nat)
    requires R.Counts(q) && R.OneEach(q) && R.Contents(q)
    requires t < |q.pcs| && u < |q.pcs| && q.pcs[t].GetCopying? && q.pcs[u].PutCopying?
    ensures q.pcs[t].k % q.capacity != q.pcs[u].k % q.capacity
  {
    R.GetReadsItem(q, t);
  }

  /** And while a get copies its bytes out no put is copying into them. */
  lemma CopiesApart(run: seq<State>, k: nat, t: nat, u: nat)
    requires IsRun(Init, Step, run) && k < |run| && R.Disciplined(run[0].ring)
    requires var pcs := run[k].ring.pcs; t < |pcs| && u < |pcs| && pcs[t].GetCopying? && pcs[u].PutCopying?
    ensures var q := run[k].ring;
            q.capacity > 0 && Apart(q.pcs[t].k % q.capacity, q.pcs[u].k % q.capacity, run[k].elemSize)
  {
    RunInv(run, k);
    DisciplineFixed(run, k);
    var q := run[k].ring;
    R.DisciplinedOneEach(q);
    OtherSlot(q, t, u);
    OtherSlotApart(q.pcs[t].k % q.capacity, q.pcs[u].k % q.capacity, run[k].elemSize, q.capacity);
  }
}
