/** The whole shared-memory channel (ipc/memchannel/memchan.c): the byte ring of `ByteRing` changed by
    any number of threads inside the monitor of `ChannelMonitor`. The wait loops test the ring's own
    size; the bytes that a get copies out are recorded. */
module ByteChannel {
  import opened Runs
  import opened ByteRing
  import M = ChannelMonitor

  type Bytes = seq<byte>

  datatype State = State(
    m: M.State<Bytes>,
    ring: Ring,
    taken: seq<Bytes>)  // what mc_get has returned, call after call

  predicate Puts(s: State, a: M.Action<Bytes>) {
    a.Go? && a.t < |s.m.pcs| && s.m.pcs[a.t].PutChecking? && s.ring.size != s.ring.capacity
  }

  predicate Gets(s: State, a: M.Action<Bytes>) {
    a.Go? && a.t < |s.m.pcs| && s.m.pcs[a.t].GetChecking? && s.ring.size != 0
  }

  /** Callers pass items of the channel's element size. */
  predicate Enabled(s: State, a: M.Action<Bytes>) {
    && M.Enabled(s.m, a)
    && (a.StartPut? ==> |a.v| == s.ring.elemSize)
    && WellSized(s.ring) && (Puts(s, a) ==> |s.m.pcs[a.t].v| == s.ring.elemSize)
  }

  function Do(s: State, a: M.Action<Bytes>): State
    requires Enabled(s, a)
  {
    State(M.Do(s.m, a),
          if Puts(s, a) then PutBytes(s.ring, s.m.pcs[a.t].v) else if Gets(s, a) then AfterGet(s.ring) else s.ring,
          if Gets(s, a) then s.taken + [GetBytes(s.ring)] else s.taken)
  }

  ghost predicate Init(s: State) {
    && M.Init(s.m) && s.m.capacity == M.Bounded(s.ring.capacity)
    && Holds(s.ring, []) && s.taken == []
  }

  ghost predicate Step(s: State, s': State) {
    exists a :: Enabled(s, a) && s' == Do(s, a)
  }

  /** An item on its way into the channel. */
  predicate Carries(pc: M.PC<Bytes>, elemSize: nat) {
    match pc
    case PutWantsLock(v) => |v| == elemSize
    case PutChecking(v) => |v| == elemSize
    case PutWaiting(v) => |v| == elemSize
    case PutWoken(v) => |v| == elemSize
    case _ => true
  }

  ghost predicate Inv(s: State) {
    && M.Inv(s.m) && s.m.capacity == M.Bounded(s.ring.capacity)
    && Holds(s.ring, s.m.queue) && s.taken == s.m.got
    && forall t :: 0 <= t < |s.m.pcs| ==> Carries(s.m.pcs[t], s.ring.elemSize)
  }

  lemma InitInv(s: State)
    requires Init(s)
    ensures Inv(s)
  {
    M.InitInv(s.m);
  }

  lemma ItemsKept(q: M.State<Bytes>, a: M.Action<Bytes>, elemSize: nat)
    requires M.Enabled(q, a) && (a.StartPut? ==> |a.v| == elemSize)
    requires forall t :: 0 <= t < |q.pcs| ==> Carries(q.pcs[t], elemSize)
    ensures forall t :: 0 <= t < |M.Do(q, a).pcs| ==> Carries(M.Do(q, a).pcs[t], elemSize)
  {
  }

  /** The ring holds what the monitor's queue is, before and after every action. */
  lemma RingFollows(s: State, a: M.Action<Bytes>)
    requires Enabled(s, a) && s.m.capacity == M.Bounded(s.ring.capacity)
    requires Holds(s.ring, s.m.queue) && s.taken == s.m.got
    ensures var s' := Do(s, a);
            && s'.m.capacity == s.m.capacity && s'.ring.capacity == s.ring.capacity
            && s'.ring.elemSize == s.ring.elemSize
            && Holds(s'.ring, s'.m.queue) && s'.taken == s'.m.got
  {
    if Puts(s, a) {
      PutHolds(s.ring, s.m.queue, s.m.pcs[a.t].v);
    } else if Gets(s, a) {
      GetHolds(s.ring, s.m.queue);
    }
  }

  lemma StepKeepsInv(s: State, s': State)
    requires Inv(s) && Step(s, s')
    ensures Inv(s')
  {
    var a :| Enabled(s, a) && s' == Do(s, a);
    assert M.Step(s.m, s'.m);
    M.StepKeepsInv(s.m, s'.m);
    RingFollows(s, a);
    ItemsKept(s.m, a, s.ring.elemSize);
  }

  lemma RunInv(run: seq<State>, k: nat)
    requires IsRun(Init, Step, run) && k < |run|
    ensures Inv(run[k])
  {
    forall s | Init(s) ensures Inv(s) { InitInv(s); }
    forall s, s' | Inv(s) && Step(s, s') ensures Inv(s') { StepKeepsInv(s, s'); }
    Always(Init, Step, Inv, run, k);
  }

  /** In every run of any number of threads, for every element size and capacity: the byte strings that
      mc_get has returned, followed by those that the ring holds, are the ones that mc_put was given,
      in order. */
  lemma EveryGetReturnsOldest(run: seq<State>, k: nat)
    requires IsRun(Init, Step, run) && k < |run|
    ensures var s := run[k];
            s.taken <= s.m.put && Holds(s.ring, s.m.put[|s.taken|..])
  {
    RunInv(run, k);
    var s := run[k];
    assert s.m.put == s.taken + s.m.queue;
    assert s.m.put[|s.taken|..] == s.m.queue;
  }

  /** So each get that takes an element returns exactly the bytes of the oldest put not yet taken, and
      no caller's item is of the wrong size when it is copied. */
  lemma NextGet(run: seq<State>, k: nat, t: nat, w: nat)
    requires IsRun(Init, Step, run) && k < |run| && M.Enabled(run[k].m, M.Go(t, w))
    ensures Enabled(run[k], M.Go(t, w))
    ensures Gets(run[k], M.Go(t, w)) ==>
              && |run[k].taken| < |run[k].m.put|
              && Do(run[k], M.Go(t, w)).taken == run[k].taken + [run[k].m.put[|run[k].taken|]]
  {
    RunInv(run, k);
    var s := run[k];
    assert Carries(s.m.pcs[t], s.ring.elemSize);
    assert s.m.put == s.taken + s.m.queue;
    if Gets(s, M.Go(t, w)) {
      GetHolds(s.ring, s.m.queue);
    }
  }

  /** The wait loops test the size of the ring: while a getter sleeps and the ring is not empty, or a
      putter sleeps and it is not full, some thread can act without waking for no reason. */
  lemma NoLostWakeup(run: seq<State>, k: nat)
    requires IsRun(Init, Step, run) && k < |run|
    ensures var s := run[k];
            || (Count(s.m.pcs, M.IsGetWaiting) > 0 && s.ring.size > 0)
            || (Count(s.m.pcs, M.IsPutWaiting) > 0 && s.ring.size < s.ring.capacity) ==>
              exists t, w :: Enabled(s, M.Go(t, w))
  {
    RunInv(run, k);
    var s := run[k];
    if || (Count(s.m.pcs, M.IsGetWaiting) > 0 && s.ring.size > 0)
       || (Count(s.m.pcs, M.IsPutWaiting) > 0 && s.ring.size < s.ring.capacity)
    {
      M.SleepersServed(s.m);
      var t, w :| M.Enabled(s.m, M.Go(t, w));
      NextGet(run, k, t, w);
    }
  }
}
