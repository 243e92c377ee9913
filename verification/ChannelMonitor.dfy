/** A blocking queue made of a mutex and condition variables, shared by any number of threads. It is
    the synchronization of mc_put and mc_get (ipc/memchannel/memchan.c), which signal after unlocking,
    of its earlier version, which signals before, and, with no capacity, of the thread pools' queue
    (aula-05-13a/queue.c). A signal wakes one thread inside pthread_cond_wait, if there is one; a
    thread there may also wake up for no reason. */
module ChannelMonitor {
  import opened Runs

  datatype Capacity = Unbounded | Bounded(n: nat)

  datatype PC<T> =
    | Idle
    | PutWantsLock(v: T) | PutChecking(v: T) | PutWaiting(v: T) | PutWoken(v: T)
    | PutDone        // item in, lock held, signal to come
    | PutSignalling  // unlocked, signal to come
    | GetWantsLock | GetChecking | GetWaiting | GetWoken
    | GetDone | GetSignalling
    | Unlocking      // signalled, lock held

  datatype Holder = Free | By(t: nat)

  datatype State<T> = State(
    capacity: Capacity,
    signalFirst: bool,  // signal before unlocking
    queue: seq<T>,
    lock: Holder,
    pcs: seq<PC<T>>,
    put: seq<T>, got: seq<T>)

  /** `woken` is the thread that a signal picks. */
  datatype Action<T> = StartPut(t: nat, v: T) | StartGet(t: nat) | Go(t: nat, woken: nat) | Spurious(t: nat)

  predicate Full<T>(s: State<T>) { s.capacity.Bounded? && |s.queue| == s.capacity.n }
  predicate IsPutWaiting<T>(p: PC<T>) { p.PutWaiting? }
  predicate IsGetWaiting<T>(p: PC<T>) { p.GetWaiting? }
  predicate HoldsLock<T>(p: PC<T>) {
    p.PutChecking? || p.PutDone? || p.GetChecking? || p.GetDone? || p.Unlocking?
  }
  /** The thread's next action is to signal that there is an item, or a space. */
  predicate SignalsItem<T>(s: State<T>, p: PC<T>) { p.PutSignalling? || (s.signalFirst && p.PutDone?) }
  predicate SignalsSpace<T>(s: State<T>, p: PC<T>) {
    p.GetSignalling? || (s.signalFirst && s.capacity.Bounded? && p.GetDone?)
  }

  predicate Enabled<T>(s: State<T>, a: Action<T>) {
    && a.t < |s.pcs|
    && match a
       case StartPut(t, _) => s.pcs[t].Idle?
       case StartGet(t) => s.pcs[t].Idle?
       case Spurious(t) => s.pcs[t].PutWaiting? || s.pcs[t].GetWaiting?
       case Go(t, w) =>
         var p := s.pcs[t];
         && !p.Idle? && !p.PutWaiting? && !p.GetWaiting?
         && (p.PutWantsLock? || p.PutWoken? || p.GetWantsLock? || p.GetWoken? ==> s.lock.Free?)
         // a signal picks a waiting thread if there is one
         && (SignalsItem(s, p) && Count(s.pcs, IsGetWaiting) > 0 ==>
               w < |s.pcs| && s.pcs[w].GetWaiting?)
         && (SignalsSpace(s, p) && Count(s.pcs, IsPutWaiting) > 0 ==>
               w < |s.pcs| && s.pcs[w].PutWaiting?)
  }

  function WakeGetter<T>(pcs: seq<PC<T>>, w: nat): seq<PC<T>> {
    if w < |pcs| && pcs[w].GetWaiting? then pcs[w := GetWoken] else pcs
  }

  function WakePutter<T>(pcs: seq<PC<T>>, w: nat): seq<PC<T>> {
    if w < |pcs| && pcs[w].PutWaiting? then pcs[w := PutWoken(pcs[w].v)] else pcs
  }

  function Locked<T>(s: State<T>, t: nat, p: PC<T>): State<T>
    requires t < |s.pcs|
  {
    s.(pcs := s.pcs[t := p], lock := By(t))
  }

  function Unlocked<T>(s: State<T>, t: nat, p: PC<T>): State<T>
    requires t < |s.pcs|
  {
    s.(pcs := s.pcs[t := p], lock := Free)
  }

  function DoGo<T>(s: State<T>, t: nat, w: nat): State<T>
    requires Enabled(s, Go(t, w))
  {
    match s.pcs[t]
    case PutWantsLock(v) => Locked(s, t, PutChecking(v))
    case PutWoken(v) => Locked(s, t, PutChecking(v))
    case PutChecking(v) =>
      if Full(s) then Unlocked(s, t, PutWaiting(v))
      else s.(pcs := s.pcs[t := PutDone], queue := s.queue + [v], put := s.put + [v])
    case PutDone =>
      if s.signalFirst then s.(pcs := WakeGetter(s.pcs[t := Unlocking], w))
      else Unlocked(s, t, PutSignalling)
    case PutSignalling => s.(pcs := WakeGetter(s.pcs[t := Idle], w))
    case GetWantsLock => Locked(s, t, GetChecking)
    case GetWoken => Locked(s, t, GetChecking)
    case GetChecking =>
      if s.queue == [] then Unlocked(s, t, GetWaiting)
      else s.(pcs := s.pcs[t := GetDone], queue := s.queue[1..], got := s.got + [s.queue[0]])
    case GetDone =>
      if s.capacity.Unbounded? then Unlocked(s, t, Idle)  // nobody ever waits for space
      else if s.signalFirst then s.(pcs := WakePutter(s.pcs[t := Unlocking], w))
      else Unlocked(s, t, GetSignalling)
    case GetSignalling => s.(pcs := WakePutter(s.pcs[t := Idle], w))
    case Unlocking => Unlocked(s, t, Idle)
  }

  function Do<T>(s: State<T>, a: Action<T>): State<T>
    requires Enabled(s, a)
  {
    match a
    case StartPut(t, v) => s.(pcs := s.pcs[t := PutWantsLock(v)])
    case StartGet(t) => s.(pcs := s.pcs[t := GetWantsLock])
    case Spurious(t) => s.(pcs := s.pcs[t := if s.pcs[t].PutWaiting? then PutWoken(s.pcs[t].v) else GetWoken])
    case Go(t, w) => DoGo(s, t, w)
  }

  ghost predicate Init<T>(s: State<T>) {
    && s.capacity != Bounded(0)
    && s.queue == s.put == s.got == [] && s.lock.Free?
    && forall t :: 0 <= t < |s.pcs| ==> s.pcs[t].Idle?
  }

  ghost predicate Step<T(!new)>(s: State<T>, s': State<T>) {
    exists a :: Enabled(s, a) && s' == Do(s, a)
  }

  /** A getter that will look at the queue again before it sleeps. */
  predicate GetterAlert<T>(p: PC<T>) { p.GetWoken? || p.GetChecking? }
  predicate PutterAlert<T>(p: PC<T>) { p.PutWoken? || p.PutChecking? }
  /** A thread that still has to signal that it has put, or has taken, an item. */
  predicate OwesItemSignal<T>(p: PC<T>) { p.PutDone? || p.PutSignalling? }
  predicate OwesSpaceSignal<T>(p: PC<T>) { p.GetDone? || p.GetSignalling? }

  ghost predicate LockInv<T>(s: State<T>) {
    && (forall t :: 0 <= t < |s.pcs| ==> (HoldsLock(s.pcs[t]) <==> s.lock == By(t)))
    && (s.lock.By? ==> s.lock.t < |s.pcs|)
  }

  ghost predicate QueueInv<T>(s: State<T>) {
    && (s.capacity.Bounded? ==> s.capacity.n > 0 && |s.queue| <= s.capacity.n)
    && s.put == s.got + s.queue
  }

  /** While a getter sleeps, every item in the queue has an alert getter or a signal on its way; while
      a putter sleeps, every free place has. */
  ghost predicate WakeInv<T>(s: State<T>) {
    && (Count(s.pcs, IsGetWaiting) > 0 ==>
          |s.queue| <= Count(s.pcs, GetterAlert) + Count(s.pcs, OwesItemSignal))
    && (Count(s.pcs, IsPutWaiting) > 0 ==>
          && s.capacity.Bounded?
          && s.capacity.n - |s.queue| <= Count(s.pcs, PutterAlert) + Count(s.pcs, OwesSpaceSignal))
  }

  ghost predicate Inv<T>(s: State<T>) {
    LockInv(s) && QueueInv(s) && WakeInv(s)
  }

  lemma InitInv<T>(s: State<T>)
    requires Init(s)
    ensures Inv(s)
  {
    CountNone(s.pcs, IsGetWaiting);
    CountNone(s.pcs, IsPutWaiting);
  }

  predicate Signals<T>(s: State<T>, p: PC<T>) { SignalsItem(s, p) || SignalsSpace(s, p) }

  lemma SignalKeepsLock<T>(s: State<T>, t: nat, w: nat)
    requires LockInv(s) && Enabled(s, Go(t, w)) && Signals(s, s.pcs[t])
    ensures LockInv(DoGo(s, t, w))
  {
  }

  lemma QuietKeepsLock<T>(s: State<T>, t: nat, w: nat)
    requires LockInv(s) && Enabled(s, Go(t, w)) && !Signals(s, s.pcs[t])
    ensures LockInv(DoGo(s, t, w))
  {
    var p := DoGo(s, t, w).pcs[t];
    assert DoGo(s, t, w).pcs == s.pcs[t := p];
    assert HoldsLock(p) <==> DoGo(s, t, w).lock == By(t);
  }

  lemma LockKept<T>(s: State<T>, a: Action<T>)
    requires LockInv(s) && Enabled(s, a)
    ensures LockInv(Do(s, a))
  {
    if a.Go? {
      if Signals(s, s.pcs[a.t]) {
        SignalKeepsLock(s, a.t, a.woken);
      } else {
        QuietKeepsLock(s, a.t, a.woken);
      }
    }
  }

  lemma QueueKept<T>(s: State<T>, a: Action<T>)
    requires QueueInv(s) && Enabled(s, a)
    ensures QueueInv(Do(s, a))
  {
    assert s.queue != [] ==> s.got + s.queue == s.got + [s.queue[0]] + s.queue[1..];
  }

  function One(b: bool): int { if b then 1 else 0 }

  /** The counts after thread t moves to p. */
  lemma CountsMove<T>(pcs: seq<PC<T>>, t: nat, p: PC<T>)
    requires t < |pcs|
    ensures var pcs' := pcs[t := p];
            && Count(pcs', IsGetWaiting) == Count(pcs, IsGetWaiting) - One(pcs[t].GetWaiting?) + One(p.GetWaiting?)
            && Count(pcs', IsPutWaiting) == Count(pcs, IsPutWaiting) - One(pcs[t].PutWaiting?) + One(p.PutWaiting?)
            && Count(pcs', GetterAlert) == Count(pcs, GetterAlert) - One(GetterAlert(pcs[t])) + One(GetterAlert(p))
            && Count(pcs', PutterAlert) == Count(pcs, PutterAlert) - One(PutterAlert(pcs[t])) + One(PutterAlert(p))
            && Count(pcs', OwesItemSignal)
               == Count(pcs, OwesItemSignal) - One(OwesItemSignal(pcs[t])) + One(OwesItemSignal(p))
            && Count(pcs', OwesSpaceSignal)
               == Count(pcs, OwesSpaceSignal) - One(OwesSpaceSignal(pcs[t])) + One(OwesSpaceSignal(p))
  {
    CountUpdate(pcs, t, p, IsGetWaiting);
    CountUpdate(pcs, t, p, IsPutWaiting);
    CountUpdate(pcs, t, p, GetterAlert);
    CountUpdate(pcs, t, p, PutterAlert);
    CountUpdate(pcs, t, p, OwesItemSignal);
    CountUpdate(pcs, t, p, OwesSpaceSignal);
  }

  /** A signal after a put: the thread's debt becomes the alertness of the getter it wakes. */
  lemma ItemSignalKeepsWake<T>(s: State<T>, t: nat, w: nat)
    requires QueueInv(s) && WakeInv(s) && Enabled(s, Go(t, w)) && SignalsItem(s, s.pcs[t])
    ensures WakeInv(DoGo(s, t, w))
  {
    var next := if s.pcs[t].PutDone? || s.pcs[t].GetDone? then Unlocking else Idle;
    var mid := s.pcs[t := next];
    CountsMove(s.pcs, t, next);
    if w < |mid| && mid[w].GetWaiting? {
      CountsMove(mid, w, GetWoken);
    }
  }

  lemma SpaceSignalKeepsWake<T>(s: State<T>, t: nat, w: nat)
    requires QueueInv(s) && WakeInv(s) && Enabled(s, Go(t, w)) && SignalsSpace(s, s.pcs[t])
    ensures WakeInv(DoGo(s, t, w))
  {
    var next := if s.pcs[t].PutDone? || s.pcs[t].GetDone? then Unlocking else Idle;
    var mid := s.pcs[t := next];
    CountsMove(s.pcs, t, next);
    if w < |mid| && mid[w].PutWaiting? {
      CountsMove(mid, w, PutWoken(mid[w].v));
    }
  }

  lemma CheckKeepsWake<T>(s: State<T>, t: nat, w: nat)
    requires QueueInv(s) && WakeInv(s) && Enabled(s, Go(t, w)) && (s.pcs[t].PutChecking? || s.pcs[t].GetChecking?)
    ensures WakeInv(DoGo(s, t, w))
  {
    CountsMove(s.pcs, t, DoGo(s, t, w).pcs[t]);
  }

  lemma GoKeepsWake<T>(s: State<T>, t: nat, w: nat)
    requires QueueInv(s) && WakeInv(s) && Enabled(s, Go(t, w))
    ensures WakeInv(DoGo(s, t, w))
  {
    if SignalsItem(s, s.pcs[t]) {
      ItemSignalKeepsWake(s, t, w);
    } else if SignalsSpace(s, s.pcs[t]) {
      SpaceSignalKeepsWake(s, t, w);
    } else if s.pcs[t].PutChecking? || s.pcs[t].GetChecking? {
      CheckKeepsWake(s, t, w);
    } else {
      CountsMove(s.pcs, t, DoGo(s, t, w).pcs[t]);
    }
  }

  lemma StepKeepsInv<T(!new)>(s: State<T>, s': State<T>)
    requires Inv(s) && Step(s, s')
    ensures Inv(s')
  {
    var a :| Enabled(s, a) && s' == Do(s, a);
    if a.Go? {
      GoKeepsWake(s, a.t, a.woken);
    } else {
      CountsMove(s.pcs, a.t, s'.pcs[a.t]);
    }
    LockKept(s, a);
    QueueKept(s, a);
  }

  lemma RunInv<T(!new)>(run: seq<State<T>>, k: nat)
    requires IsRun(Init, Step, run) && k < |run|
    ensures Inv(run[k])
  {
    forall s: State<T> | Init(s) ensures Inv(s) { InitInv(s); }
    forall s: State<T>, s' | Inv(s) && Step(s, s') ensures Inv(s') { StepKeepsInv(s, s'); }
    Always(Init, Step, Inv, run, k);
  }

  /** Items leave in the order in which they entered and the capacity is never exceeded. */
  lemma EveryRunFifo<T(!new)>(run: seq<State<T>>, k: nat)
    requires IsRun(Init, Step, run) && k < |run|
    ensures var s := run[k];
            && s.put == s.got + s.queue
            && (s.capacity.Bounded? ==> |s.queue| <= s.capacity.n)
  {
    RunInv(run, k);
  }

  /** A thread in the middle of a call, not asleep, can act or waits for a lock whose holder can. */
  lemma SomeoneActs<T>(s: State<T>, t: nat)
    requires LockInv(s) && t < |s.pcs| && !s.pcs[t].Idle? && !s.pcs[t].PutWaiting? && !s.pcs[t].GetWaiting?
    ensures exists u, w :: Enabled(s, Go(u, w))
  {
    var u := if s.lock.By? then s.lock.t else t;
    var w := 0;
    if SignalsItem(s, s.pcs[u]) && Count(s.pcs, IsGetWaiting) > 0 {
      w := CountWitness(s.pcs, IsGetWaiting);
    } else if SignalsSpace(s, s.pcs[u]) && Count(s.pcs, IsPutWaiting) > 0 {
      w := CountWitness(s.pcs, IsPutWaiting);
    }
    assert Enabled(s, Go(u, w));
  }

  lemma SleepersServed<T>(s: State<T>)
    requires Inv(s)
    ensures (Count(s.pcs, IsGetWaiting) > 0 && s.queue != []) || (Count(s.pcs, IsPutWaiting) > 0 && !Full(s)) ==>
              exists u, w :: Enabled(s, Go(u, w))
  {
    if Count(s.pcs, IsGetWaiting) > 0 && s.queue != [] {
      var t: nat;
      if Count(s.pcs, GetterAlert) > 0 {
        t := CountWitness(s.pcs, GetterAlert);
      } else {
        t := CountWitness(s.pcs, OwesItemSignal);
      }
      SomeoneActs(s, t);
    } else if Count(s.pcs, IsPutWaiting) > 0 && !Full(s) {
      var t: nat;
      if Count(s.pcs, PutterAlert) > 0 {
        t := CountWitness(s.pcs, PutterAlert);
      } else {
        t := CountWitness(s.pcs, OwesSpaceSignal);
      }
      SomeoneActs(s, t);
    }
  }

  /** No lost wakeup. In every reachable state, while a getter sleeps and there is an item, some thread
      has been woken or still owes a signal, and some thread can act without a spurious wakeup; the
      same while a putter sleeps and there is space. */
  lemma NoLostWakeup<T(!new)>(run: seq<State<T>>, k: nat)
    requires IsRun(Init, Step, run) && k < |run|
    ensures WakeInv(run[k])
    ensures var s := run[k];
            (Count(s.pcs, IsGetWaiting) > 0 && s.queue != []) || (Count(s.pcs, IsPutWaiting) > 0 && !Full(s)) ==>
              exists u, w :: Enabled(s, Go(u, w))
  {
    RunInv(run, k);
    SleepersServed(run[k]);
  }

  /** When no call can advance, the threads inside calls are all asleep for cause: getters because the
      queue is empty or putters because it is full, never both. */
  lemma StuckOnlyForCause<T(!new)>(run: seq<State<T>>, k: nat)
    requires IsRun(Init, Step, run) && k < |run|
    requires forall u, w :: !Enabled(run[k], Go(u, w))
    ensures var s := run[k];
            && (forall t :: 0 <= t < |s.pcs| ==> s.pcs[t].Idle? || s.pcs[t].PutWaiting? || s.pcs[t].GetWaiting?)
            && ((exists t :: 0 <= t < |s.pcs| && s.pcs[t].GetWaiting?) ==> s.queue == [])
            && ((exists t :: 0 <= t < |s.pcs| && s.pcs[t].PutWaiting?) ==> Full(s) && s.queue != [])
  {
    RunInv(run, k);
    var s := run[k];
    NoLostWakeup(run, k);
    forall t | 0 <= t < |s.pcs|
      ensures s.pcs[t].Idle? || s.pcs[t].PutWaiting? || s.pcs[t].GetWaiting?
    {
      if !s.pcs[t].Idle? && !s.pcs[t].PutWaiting? && !s.pcs[t].GetWaiting? {
        SomeoneActs(s, t);
      }
    }
    if t :| 0 <= t < |s.pcs| && s.pcs[t].GetWaiting? {
      CountAtLeast(s.pcs, t, IsGetWaiting);
    }
    if t :| 0 <= t < |s.pcs| && s.pcs[t].PutWaiting? {
      CountAtLeast(s.pcs, t, IsPutWaiting);
    }
  }
}
