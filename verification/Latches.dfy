/** The countdown latch whose counter is kept under its lock (aula-05-13a/cdl.c), used by any number
    of signallers and waiters. A broadcast wakes every thread inside pthread_cond_wait, which may
    also wake up for no reason. */
module LockedLatch {
  import opened Runs

  datatype Holder = Free | BySignaller(i: nat) | ByWaiter(j: nat)

  datatype Signaller = Entering | Decrementing | Broadcasting | Unlocking | Left

  datatype Waiter = WantsLock | Checking | Waiting | Unlocks | Passed

  datatype State = State(
    initial: int, counter: int, lock: Holder, signallers: seq<Signaller>, waiters: seq<Waiter>)

  datatype Action = Signal(i: nat) | Wait(j: nat) | SpuriousWakeup(j: nat)

  predicate Enabled(s: State, a: Action) {
    match a
    case Signal(i) =>
      i < |s.signallers| && !s.signallers[i].Left? && (s.signallers[i].Entering? ==> s.lock.Free?)
    case Wait(j) =>
      && j < |s.waiters| && !s.waiters[j].Waiting? && !s.waiters[j].Passed?
      && (s.waiters[j].WantsLock? ==> s.lock.Free?)
    case SpuriousWakeup(j) => j < |s.waiters| && s.waiters[j].Waiting?
  }

  function Woken(waiters: seq<Waiter>): (r: seq<Waiter>)
    ensures |r| == |waiters|
    ensures forall j :: 0 <= j < |r| ==> r[j] == if waiters[j].Waiting? then WantsLock else waiters[j]
  {
    seq(|waiters|, j requires 0 <= j < |waiters| => if waiters[j].Waiting? then WantsLock else waiters[j])
  }

  function Do(s: State, a: Action): State
    requires Enabled(s, a)
  {
    match a
    case Signal(i) =>
      (match s.signallers[i]
       case Entering => s.(signallers := s.signallers[i := Decrementing], lock := BySignaller(i))
       case Decrementing =>
         s.(counter := s.counter - 1,
            signallers := s.signallers[i := if s.counter - 1 == 0 then Broadcasting else Unlocking])
       case Broadcasting => s.(waiters := Woken(s.waiters), signallers := s.signallers[i := Unlocking])
       case Unlocking => s.(signallers := s.signallers[i := Left], lock := Free))
    case Wait(j) =>
      (match s.waiters[j]
       case WantsLock => s.(waiters := s.waiters[j := Checking], lock := ByWaiter(j))
       case Checking =>
         if s.counter > 0 then s.(waiters := s.waiters[j := Waiting], lock := Free)
         else s.(waiters := s.waiters[j := Unlocks])
       case Unlocks => s.(waiters := s.waiters[j := Passed], lock := Free))
    case SpuriousWakeup(j) => s.(waiters := s.waiters[j := WantsLock])
  }

  ghost predicate Init(s: State) {
    && s.counter == s.initial && s.lock.Free?
    && (forall i :: 0 <= i < |s.signallers| ==> s.signallers[i].Entering?)
    && (forall j :: 0 <= j < |s.waiters| ==> s.waiters[j].WantsLock?)
  }

  ghost predicate Step(s: State, s': State) {
    exists a :: Enabled(s, a) && s' == Do(s, a)
  }

  predicate Inside(p: Signaller) { p.Decrementing? || p.Broadcasting? || p.Unlocking? }
  predicate StillToCount(p: Signaller) { p.Entering? || p.Decrementing? }

  ghost predicate Inv(s: State) {
    && (forall i :: 0 <= i < |s.signallers| ==> (Inside(s.signallers[i]) <==> s.lock == BySignaller(i)))
    && (s.lock.BySignaller? ==> s.lock.i < |s.signallers|)
    && (forall j :: 0 <= j < |s.waiters| ==>
          (s.waiters[j].Checking? || s.waiters[j].Unlocks? <==> s.lock == ByWaiter(j)))
    && (s.lock.ByWaiter? ==> s.lock.j < |s.waiters|)
    && s.counter == s.initial - |s.signallers| + Count(s.signallers, StillToCount)
    // the broadcast comes with the last count, and only then
    && (forall i :: 0 <= i < |s.signallers| && s.signallers[i].Broadcasting? ==> s.counter == 0)
    // a waiter is asleep only while there is something to count or its wake-up is on the way
    && (forall j :: 0 <= j < |s.waiters| && s.waiters[j].Waiting? ==>
          s.counter > 0 || (s.lock.BySignaller? && s.signallers[s.lock.i].Broadcasting?))
    && (forall j :: 0 <= j < |s.waiters| && (s.waiters[j].Unlocks? || s.waiters[j].Passed?) ==>
          // and once it has been let through, no signaller is left inside
          s.counter <= 0 && (s.initial >= |s.signallers| ==> !s.lock.BySignaller?))
  }

  lemma InitInv(s: State)
    requires Init(s)
    ensures Inv(s)
  {
    CountMost(s.signallers, StillToCount);
  }

  lemma SignalKeepsInv(s: State, i: nat)
    requires Inv(s) && Enabled(s, Signal(i))
    ensures Inv(Do(s, Signal(i)))
  {
    CountUpdate(s.signallers, i, Do(s, Signal(i)).signallers[i], StillToCount);
    if s.signallers[i].Entering? {
      CountAtLeast(s.signallers, i, StillToCount);
    }
  }

  lemma StepKeepsInv(s: State, s': State)
    requires Inv(s) && Step(s, s')
    ensures Inv(s')
  {
    var a :| Enabled(s, a) && s' == Do(s, a);
    if a.Signal? {
      SignalKeepsInv(s, a.i);
    }
  }

  lemma RunInv(run: seq<State>, k: nat)
    requires IsRun(Init, Step, run) && k < |run|
    ensures Inv(run[k])
  {
    forall s | Init(s) ensures Inv(s) { InitInv(s); }
    forall s, s' | Inv(s) && Step(s, s') ensures Inv(s') { StepKeepsInv(s, s'); }
    Always(Init, Step, Inv, run, k);
  }

  /** Nobody broadcasts but the signaller of the last count. */
  lemma BroadcastAtZero(run: seq<State>, k: nat, i: nat)
    requires IsRun(Init, Step, run) && k < |run| && i < |run[k].signallers| && run[k].signallers[i].Broadcasting?
    ensures run[k].counter == 0
  {
    RunInv(run, k);
  }

  /** With no more signallers than counts, a waiter that has been let through knows that every
      signaller has come and gone: it may destroy the latch. */
  lemma PassedMeansSignallersGone(run: seq<State>, k: nat, j: nat)
    requires IsRun(Init, Step, run) && k < |run| && run[k].initial >= |run[k].signallers|
    requires j < |run[k].waiters| && (run[k].waiters[j].Unlocks? || run[k].waiters[j].Passed?)
    ensures forall i :: 0 <= i < |run[k].signallers| ==> run[k].signallers[i].Left?
  {
    RunInv(run, k);
    var s := run[k];
    forall i | 0 <= i < |s.signallers| ensures s.signallers[i].Left? {
      if StillToCount(s.signallers[i]) {
        CountAtLeast(s.signallers, i, StillToCount);
      }
    }
  }

  /** A waiter has passed and a signaller has not left: destroying the latch now would be too soon. */
  ghost predicate TooSoon(s: State) {
    && (exists j :: 0 <= j < |s.waiters| && s.waiters[j].Passed?)
    && (exists i :: 0 <= i < |s.signallers| && !s.signallers[i].Left?)
  }

  lemma {:induction false} SizesFixed(run: seq<State>, k: nat)
    requires IsRun(Init, Step, run) && k < |run|
    ensures run[k].initial == run[0].initial
    ensures |run[k].signallers| == |run[0].signallers| && |run[k].waiters| == |run[0].waiters|
  {
    if k > 0 {
      SizesFixed(run, k - 1);
      StepAt(Init, Step, run, k);
    }
  }

  lemma Act(run: seq<State>, a: Action) returns (longer: seq<State>)
    requires IsRun(Init, Step, run) && Enabled(run[|run| - 1], a)
    ensures IsRun(Init, Step, longer) && longer == run + [Do(run[|run| - 1], a)]
  {
    assert Step(run[|run| - 1], Do(run[|run| - 1], a));
    longer := Extend(Init, Step, run, Do(run[|run| - 1], a));
  }

  /** The first k signallers have come and gone; nobody else has moved. */
  function Gone(s: State, k: nat): State
    requires k <= |s.signallers|
  {
    s.(counter := s.counter - k,
       signallers := seq(|s.signallers|, i requires 0 <= i < |s.signallers| => if i < k then Left else s.signallers[i]))
  }

  lemma ComeAndGo(s: State, k: nat) returns (run: seq<State>)
    requires Init(s) && k <= |s.signallers|
    ensures IsRun(Init, Step, run) && run[0] == s && run[|run| - 1] == Gone(s, k)
  {
    if k == 0 {
      run := [s];
      assert Gone(s, 0).signallers == s.signallers;
    } else {
      run := ComeAndGo(s, k - 1);
      run := Act(run, Signal(k - 1));
      run := Act(run, Signal(k - 1));
      if run[|run| - 1].signallers[k - 1].Broadcasting? {
        assert Woken(s.waiters) == s.waiters;
        run := Act(run, Signal(k - 1));
      }
      run := Act(run, Signal(k - 1));
      assert run[|run| - 1].signallers == Gone(s, k).signallers;
    }
  }

  /** Exactly when this latch may be destroyed after waiting: some run lets a waiter pass before every
      signaller has left if and only if there is a waiter and there are more signallers than counts. */
  lemma TooSoonIff(s: State)
    requires Init(s)
    ensures (exists run: seq<State> :: IsRun(Init, Step, run) && run[0] == s && TooSoon(run[|run| - 1])) <==>
            |s.waiters| > 0 && |s.signallers| > 0 && s.initial < |s.signallers|
  {
    if |s.waiters| > 0 && |s.signallers| > 0 && s.initial < |s.signallers| {
      var k := if s.initial > 0 then s.initial else 0;
      var run := ComeAndGo(s, k);
      run := Act(run, Wait(0));
      run := Act(run, Wait(0));
      run := Act(run, Wait(0));
      assert run[|run| - 1].waiters[0].Passed? && run[|run| - 1].signallers[k].Entering?;
    } else {
      forall run: seq<State> | IsRun(Init, Step, run) && run[0] == s ensures !TooSoon(run[|run| - 1]) {
        var k := |run| - 1;
        SizesFixed(run, k);
        if j :| 0 <= j < |run[k].waiters| && run[k].waiters[j].Passed? && s.initial >= |s.signallers| {
          PassedMeansSignallersGone(run, k, j);
        }
      }
    }
  }

  lemma HolderCanAct(s: State)
    requires Inv(s)
    ensures s.lock.Free? || exists a :: Enabled(s, a) && !a.SpuriousWakeup?
  {
    if s.lock.BySignaller? {
      assert Enabled(s, Signal(s.lock.i));
    } else if s.lock.ByWaiter? {
      assert Enabled(s, Wait(s.lock.j));
    }
  }

  /** Whatever the initial count, no thread is stranded: when none can act, every signaller has left,
      and a waiter is still asleep only if there were fewer signallers than counts. */
  lemma NobodyStranded(run: seq<State>, k: nat)
    requires IsRun(Init, Step, run) && k < |run|
    requires forall a :: Enabled(run[k], a) ==> a.SpuriousWakeup?
    ensures var s := run[k];
            && s.lock.Free?
            && (forall i :: 0 <= i < |s.signallers| ==> s.signallers[i].Left?)
            && (forall j :: 0 <= j < |s.waiters| ==>
                  if s.initial <= |s.signallers| then s.waiters[j].Passed? else s.waiters[j].Waiting?)
  {
    RunInv(run, k);
    var s := run[k];
    HolderCanAct(s);
    assert forall i :: 0 <= i < |s.signallers| && !s.signallers[i].Left? ==> Enabled(s, Signal(i));
    assert forall j :: 0 <= j < |s.waiters| && !s.waiters[j].Waiting? && !s.waiters[j].Passed? ==>
                         Enabled(s, Wait(j));
    CountNone(s.signallers, StillToCount);
  }
}

/** The earlier latch, whose counter is atomic and decremented outside the lock (aula-05-13/cdl.c). */
module AtomicLatch {
  import opened Runs

  datatype Holder = Free | BySignaller(i: nat) | ByWaiter(j: nat)

  datatype Signaller = Entering | WantsLock | Broadcasting | Unlocking | Left

  /** A waiter reads the counter holding the lock; only then does it give the lock up to sleep. */
  datatype Waiter = Arriving | Checking | AboutToWait | Waiting | Unlocks | Passed

  datatype State = State(
    initial: int, counter: int, lock: Holder, signallers: seq<Signaller>, waiters: seq<Waiter>)

  datatype Action = Signal(i: nat) | Wait(j: nat) | SpuriousWakeup(j: nat)

  predicate Enabled(s: State, a: Action) {
    match a
    case Signal(i) =>
      i < |s.signallers| && !s.signallers[i].Left? && (s.signallers[i].WantsLock? ==> s.lock.Free?)
    case Wait(j) =>
      && j < |s.waiters| && !s.waiters[j].Waiting? && !s.waiters[j].Passed?
      && (s.waiters[j].Arriving? ==> s.lock.Free?)
    case SpuriousWakeup(j) => j < |s.waiters| && s.waiters[j].Waiting?
  }

  function Woken(waiters: seq<Waiter>): (r: seq<Waiter>)
    ensures |r| == |waiters|
    ensures forall j :: 0 <= j < |r| ==> r[j] == if waiters[j].Waiting? then Arriving else waiters[j]
  {
    seq(|waiters|, j requires 0 <= j < |waiters| => if waiters[j].Waiting? then Arriving else waiters[j])
  }

  function Do(s: State, a: Action): State
    requires Enabled(s, a)
  {
    match a
    case Signal(i) =>
      (match s.signallers[i]
       case Entering =>
         s.(counter := s.counter - 1, signallers := s.signallers[i := if s.counter > 1 then Left else WantsLock])
       case WantsLock => s.(signallers := s.signallers[i := Broadcasting], lock := BySignaller(i))
       case Broadcasting => s.(waiters := Woken(s.waiters), signallers := s.signallers[i := Unlocking])
       case Unlocking => s.(signallers := s.signallers[i := Left], lock := Free))
    case Wait(j) =>
      (match s.waiters[j]
       case Arriving => s.(waiters := s.waiters[j := Checking], lock := ByWaiter(j))
       case Checking => s.(waiters := s.waiters[j := if s.counter > 0 then AboutToWait else Unlocks])
       case AboutToWait => s.(waiters := s.waiters[j := Waiting], lock := Free)
       case Unlocks => s.(waiters := s.waiters[j := Passed], lock := Free))
    case SpuriousWakeup(j) => s.(waiters := s.waiters[j := Arriving])
  }

  ghost predicate Init(s: State) {
    && s.counter == s.initial && s.lock.Free?
    && (forall i :: 0 <= i < |s.signallers| ==> s.signallers[i].Entering?)
    && (forall j :: 0 <= j < |s.waiters| ==> s.waiters[j].Arriving?)
  }

  ghost predicate Step(s: State, s': State) {
    exists a :: Enabled(s, a) && s' == Do(s, a)
  }

  predicate Inside(p: Signaller) { p.Broadcasting? || p.Unlocking? }
  predicate StillToCount(p: Signaller) { p.Entering? }
  predicate WillBroadcast(p: Signaller) { p.WantsLock? || p.Broadcasting? }

  ghost predicate Inv(s: State) {
    && (forall i :: 0 <= i < |s.signallers| ==> (Inside(s.signallers[i]) <==> s.lock == BySignaller(i)))
    && (s.lock.BySignaller? ==> s.lock.i < |s.signallers|)
    && (forall j :: 0 <= j < |s.waiters| ==>
          (s.waiters[j].Checking? || s.waiters[j].AboutToWait? || s.waiters[j].Unlocks? <==> s.lock == ByWaiter(j)))
    && (s.lock.ByWaiter? ==> s.lock.j < |s.waiters|)
    && s.counter == s.initial - |s.signallers| + Count(s.signallers, StillToCount)
    // no signaller goes for the lock before the last count
    && (forall i :: 0 <= i < |s.signallers| && s.counter > 0 ==> s.signallers[i].Entering? || s.signallers[i].Left?)
    // a waiter asleep or falling asleep after the last count has a broadcast coming
    && (forall j :: 0 <= j < |s.waiters| && (s.waiters[j].Waiting? || s.waiters[j].AboutToWait?) ==>
          s.counter > 0 || exists i :: 0 <= i < |s.signallers| && WillBroadcast(s.signallers[i]))
    && (forall j :: 0 <= j < |s.waiters| && (s.waiters[j].Unlocks? || s.waiters[j].Passed?) ==> s.counter <= 0)
  }

  lemma InitInv(s: State)
    requires Init(s)
    ensures Inv(s)
  {
    CountMost(s.signallers, StillToCount);
  }

  lemma SignalKeepsInv(s: State, i: nat)
    requires Inv(s) && Enabled(s, Signal(i))
    ensures Inv(Do(s, Signal(i)))
  {
    var s' := Do(s, Signal(i));
    CountUpdate(s.signallers, i, s'.signallers[i], StillToCount);
    if s.signallers[i].Entering? && s'.counter <= 0 {
      assert WillBroadcast(s'.signallers[i]);
    } else if s.signallers[i].WantsLock? {
      assert WillBroadcast(s'.signallers[i]);
    } else {
      forall j | 0 <= j < |s'.waiters| && (s'.waiters[j].Waiting? || s'.waiters[j].AboutToWait?)
        ensures s'.counter > 0 || exists i' :: 0 <= i' < |s'.signallers| && WillBroadcast(s'.signallers[i'])
      {
        if s.counter <= 0 {
          var i' :| 0 <= i' < |s.signallers| && WillBroadcast(s.signallers[i']);
          assert s'.signallers[i'] == s.signallers[i'];
        }
      }
    }
  }

  lemma StepKeepsInv(s: State, s': State)
    requires Inv(s) && Step(s, s')
    ensures Inv(s')
  {
    var a :| Enabled(s, a) && s' == Do(s, a);
    if a.Signal? {
      SignalKeepsInv(s, a.i);
    }
  }

  lemma RunInv(run: seq<State>, k: nat)
    requires IsRun(Init, Step, run) && k < |run|
    ensures Inv(run[k])
  {
    forall s | Init(s) ensures Inv(s) { InitInv(s); }
    forall s, s' | Inv(s) && Step(s, s') ensures Inv(s') { StepKeepsInv(s, s'); }
    Always(Init, Step, Inv, run, k);
  }

  /** Until the last count the signallers leave the lock alone: they come and go with one atomic step. */
  lemma NoLockBeforeLast(run: seq<State>, k: nat)
    requires IsRun(Init, Step, run) && k < |run| && run[k].counter > 0
    ensures forall i :: 0 <= i < |run[k].signallers| ==>
              run[k].signallers[i].Entering? || run[k].signallers[i].Left?
    ensures !run[k].lock.BySignaller?
  {
    RunInv(run, k);
  }

  lemma HolderCanAct(s: State)
    requires Inv(s)
    ensures s.lock.Free? || exists a :: Enabled(s, a) && !a.SpuriousWakeup?
  {
    if s.lock.BySignaller? {
      assert Enabled(s, Signal(s.lock.i));
    } else if s.lock.ByWaiter? {
      assert Enabled(s, Wait(s.lock.j));
    }
  }

  /** This version strands nobody either, although a count may reach zero between a waiter's look
      at the counter and its falling asleep. */
  lemma NobodyStranded(run: seq<State>, k: nat)
    requires IsRun(Init, Step, run) && k < |run|
    requires forall a :: Enabled(run[k], a) ==> a.SpuriousWakeup?
    ensures var s := run[k];
            && s.lock.Free?
            && (forall i :: 0 <= i < |s.signallers| ==> s.signallers[i].Left?)
            && (forall j :: 0 <= j < |s.waiters| ==>
                  if s.initial <= |s.signallers| then s.waiters[j].Passed? else s.waiters[j].Waiting?)
  {
    RunInv(run, k);
    var s := run[k];
    HolderCanAct(s);
    assert forall i :: 0 <= i < |s.signallers| && !s.signallers[i].Left? ==> Enabled(s, Signal(i));
    assert forall j :: 0 <= j < |s.waiters| && !s.waiters[j].Waiting? && !s.waiters[j].Passed? ==>
                         Enabled(s, Wait(j));
    CountNone(s.signallers, StillToCount);
  }

  /** A waiter has passed and a signaller has not left: destroying the latch now would be too soon. */
  ghost predicate TooSoon(s: State) {
    && (exists j :: 0 <= j < |s.waiters| && s.waiters[j].Passed?)
    && (exists i :: 0 <= i < |s.signallers| && !s.signallers[i].Left?)
  }

  lemma {:induction false} SizesFixed(run: seq<State>, k: nat)
    requires IsRun(Init, Step, run) && k < |run|
    ensures run[k].initial == run[0].initial
    ensures |run[k].signallers| == |run[0].signallers| && |run[k].waiters| == |run[0].waiters|
  {
    if k > 0 {
      SizesFixed(run, k - 1);
      StepAt(Init, Step, run, k);
    }
  }

  lemma Act(run: seq<State>, a: Action) returns (longer: seq<State>)
    requires IsRun(Init, Step, run) && Enabled(run[|run| - 1], a)
    ensures IsRun(Init, Step, longer) && longer == run + [Do(run[|run| - 1], a)]
  {
    assert Step(run[|run| - 1], Do(run[|run| - 1], a));
    longer := Extend(Init, Step, run, Do(run[|run| - 1], a));
  }

  /** The first k signallers have counted, and the one that found the last count goes for the lock. */
  function Counted(s: State, k: nat): State
    requires k <= |s.signallers|
  {
    s.(counter := s.counter - k,
       signallers := seq(|s.signallers|, i requires 0 <= i < |s.signallers| =>
         if i >= k then s.signallers[i] else if i < s.initial - 1 then Left else WantsLock))
  }

  lemma CountInTurn(s: State, k: nat) returns (run: seq<State>)
    requires Init(s) && k <= |s.signallers|
    ensures IsRun(Init, Step, run) && run[0] == s && run[|run| - 1] == Counted(s, k)
  {
    if k == 0 {
      run := [s];
      assert Counted(s, 0).signallers == s.signallers;
    } else {
      run := CountInTurn(s, k - 1);
      run := Act(run, Signal(k - 1));
      assert run[|run| - 1].signallers == Counted(s, k).signallers;
    }
  }

  /** What this version does not give: with no fewer signallers than counts, a waiter can pass while a
      signaller is still to lock the latch, or to count. */
  lemma PassedWhileLatchInUse(s: State) returns (run: seq<State>)
    requires Init(s) && |s.waiters| > 0 && |s.signallers| > 0 && s.initial <= |s.signallers|
    ensures IsRun(Init, Step, run) && run[0] == s && TooSoon(run[|run| - 1])
    ensures var t := run[|run| - 1];
            s.initial > 0 ==> s.initial <= |t.signallers| && t.signallers[s.initial - 1].WantsLock?
  {
    var k := if s.initial > 0 then s.initial else 0;
    run := CountInTurn(s, k);
    run := Act(run, Wait(0));
    run := Act(run, Wait(0));
    run := Act(run, Wait(0));
    assert run[|run| - 1].waiters[0].Passed?;
    assert !run[|run| - 1].signallers[if k > 0 then k - 1 else 0].Left?;
  }

  /** Exactly when this latch may be destroyed after waiting: some run lets a waiter pass before every
      signaller has left if and only if there is a waiter and there are as many signallers as counts,
      or more. The locked latch differs just in the case that matters, as many as counts. */
  lemma TooSoonIff(s: State)
    requires Init(s)
    ensures (exists run: seq<State> :: IsRun(Init, Step, run) && run[0] == s && TooSoon(run[|run| - 1])) <==>
            |s.waiters| > 0 && |s.signallers| > 0 && s.initial <= |s.signallers|
  {
    if |s.waiters| > 0 && |s.signallers| > 0 && s.initial <= |s.signallers| {
      var run := PassedWhileLatchInUse(s);
    } else {
      forall run: seq<State> | IsRun(Init, Step, run) && run[0] == s ensures !TooSoon(run[|run| - 1]) {
        SizesFixed(run, |run| - 1);
        RunInv(run, |run| - 1);
      }
    }
  }
}
