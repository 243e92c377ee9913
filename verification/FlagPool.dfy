/** The earlier thread pool, which shuts down with a flag and pills together (aula-05-13/tpool.c):
    workers look at the flag before every get, and tp_destroy holds the pool's lock from setting the
    flag until it has joined the workers. Work items do not themselves submit. */
module FlagPool {
  import opened Runs
  import D = PoolDrain

  datatype Holder = Free | BySubmitter(thread: nat) | ByDestroyer

  datatype Submitter = Locking | Checking | Putting | Unlocking(ok: bool) | Returned(ok: bool)

  datatype Destroyer = WantsLock | Flagging | Pilling(i: nat) | Joining(j: nat) | Releasing | Ended

  datatype Worker = Testing | Getting | Running(id: nat) | Stopped(byPill: bool)

  datatype State = State(
    queue: seq<D.Entry>,
    terminated: bool,
    lock: Holder,
    submitters: seq<Submitter>,
    destroyer: Destroyer,
    workers: seq<Worker>,
    late: seq<nat>,  // per worker, queue elements it has removed since the flag was set
    ran: seq<nat>,
    accepted: seq<nat>,  // submissions that have put their item, in order
    taken: seq<nat>)     // items that workers have taken, in order

  datatype Action = Submit(thread: nat) | Destroy | Serve(worker: nat)

  predicate Enabled(s: State, a: Action) {
    match a
    case Submit(t) =>
      t < |s.submitters| && !s.submitters[t].Returned? && (s.submitters[t].Locking? ==> s.lock.Free?)
    case Destroy =>
      && !s.destroyer.Ended?
      && (s.destroyer.WantsLock? ==> s.lock.Free?)
      && (s.destroyer.Joining? && s.destroyer.j < |s.workers| ==> s.workers[s.destroyer.j].Stopped?)
    case Serve(w) =>
      && w < |s.workers| == |s.late| && !s.workers[w].Stopped?
      && (s.workers[w].Getting? ==> s.queue != [])
  }

  function DoSubmit(s: State, t: nat): State
    requires Enabled(s, Submit(t))
  {
    match s.submitters[t]
    case Locking => s.(submitters := s.submitters[t := Checking], lock := BySubmitter(t))
    case Checking => s.(submitters := s.submitters[t := if s.terminated then Unlocking(false) else Putting])
    case Putting =>
      s.(submitters := s.submitters[t := Unlocking(true)],
         queue := s.queue + [D.Work(t)], accepted := s.accepted + [t])
    case Unlocking(ok) => s.(submitters := s.submitters[t := Returned(ok)], lock := Free)
  }

  function DoDestroy(s: State): State
    requires Enabled(s, Destroy)
  {
    match s.destroyer
    case WantsLock => s.(destroyer := Flagging, lock := ByDestroyer)
    case Flagging => s.(destroyer := if s.terminated then Releasing else Pilling(0), terminated := true)
    case Pilling(i) =>
      if i < |s.workers| then s.(destroyer := Pilling(i + 1), queue := s.queue + [D.Pill])
      else s.(destroyer := Joining(0))
    case Joining(j) => s.(destroyer := if j < |s.workers| then Joining(j + 1) else Releasing)
    case Releasing => s.(destroyer := Ended, lock := Free)
  }

  function DoServe(s: State, w: nat): State
    requires Enabled(s, Serve(w))
  {
    match s.workers[w]
    case Testing => s.(workers := s.workers[w := if s.terminated then Stopped(false) else Getting])
    case Getting =>
      s.(queue := s.queue[1..],
         workers := s.workers[w := if s.queue[0].Pill? then Stopped(true) else Running(s.queue[0].id)],
         late := if s.terminated then s.late[w := s.late[w] + 1] else s.late,
         taken := if s.queue[0].Pill? then s.taken else s.taken + [s.queue[0].id])
    case Running(id) => s.(workers := s.workers[w := Testing], ran := s.ran + [id])
  }

  function Do(s: State, a: Action): State
    requires Enabled(s, a)
  {
    match a
    case Submit(t) => DoSubmit(s, t)
    case Destroy => DoDestroy(s)
    case Serve(w) => DoServe(s, w)
  }

  ghost predicate Init(s: State) {
    && s.queue == [] && !s.terminated && s.lock.Free? && s.destroyer.WantsLock?
    && (forall t :: 0 <= t < |s.submitters| ==> s.submitters[t].Locking?)
    && (forall w :: 0 <= w < |s.workers| ==> s.workers[w].Testing?)
    && |s.late| == |s.workers| && (forall w :: 0 <= w < |s.late| ==> s.late[w] == 0)
    && s.ran == s.accepted == s.taken == []
  }

  ghost predicate Step(s: State, s': State) {
    exists a :: Enabled(s, a) && s' == Do(s, a)
  }

  function IsRunning(id: nat): Worker -> bool { (w: Worker) => w == Running(id) }
  predicate IsGetting(w: Worker) { w.Getting? }
  predicate TookPill(w: Worker) { w == Stopped(true) }
  predicate HoldsLock(p: Submitter) { p.Checking? || p.Putting? || p.Unlocking? }

  predicate IsRejected(p: Submitter) { p == Unlocking(false) || p == Returned(false) }

  /** Submission t has been turned down. */
  predicate Rejected(s: State, t: nat) {
    t < |s.submitters| && IsRejected(s.submitters[t])
  }

  function PillsPut(d: Destroyer, n: nat): nat {
    match d
    case WantsLock => 0
    case Flagging => 0
    case Pilling(i) => i
    case _ => n
  }

  function Occurrences(s: State, id: nat): nat {
    Count(s.queue, D.IsWork(id)) + Count(s.workers, IsRunning(id)) + Count(s.ran, D.Is(id))
  }

  predicate Accepted(s: State, id: nat) {
    id < |s.submitters| && s.submitters[id] in {Unlocking(true), Returned(true)}
  }

  ghost predicate ControlInv(s: State) {
    && |s.late| == |s.workers|
    && (forall t :: 0 <= t < |s.submitters| ==> (HoldsLock(s.submitters[t]) <==> s.lock == BySubmitter(t)))
    && (s.lock.BySubmitter? ==> s.lock.thread < |s.submitters|)
    && (s.lock.ByDestroyer? <==> !s.destroyer.WantsLock? && !s.destroyer.Ended?)
    && (s.terminated <==> !s.destroyer.WantsLock? && !s.destroyer.Flagging?)
    && (s.terminated ==> forall t :: 0 <= t < |s.submitters| ==> !s.submitters[t].Putting?)
    // only a pool that has been destroyed turns submissions down
    && (forall t :: 0 <= t < |s.submitters| && IsRejected(s.submitters[t]) ==> s.terminated && s.destroyer.Ended?)
    && (s.destroyer.Pilling? ==> s.destroyer.i <= |s.workers|)
    && (s.destroyer.Joining? ==>
          && s.destroyer.j <= |s.workers|
          && forall w :: 0 <= w < s.destroyer.j ==> s.workers[w].Stopped?)
    && (s.destroyer.Releasing? || s.destroyer.Ended? ==> forall w :: 0 <= w < |s.workers| ==> s.workers[w].Stopped?)
    // after the flag a worker takes at most one more element: it tests the flag before the next get
    && (forall w :: 0 <= w < |s.workers| ==>
          s.late[w] <= if s.terminated && !s.workers[w].Getting? then 1 else 0)
  }

  ghost predicate QueueInv(s: State) {
    && D.PillsLast(s.queue)
    // every pill put is still queued or has stopped one worker
    && Count(s.queue, D.IsPill) + Count(s.workers, TookPill) == PillsPut(s.destroyer, |s.workers|)
    // there is an element, present or to come, for every worker that is still going to get one
    && (s.terminated ==>
          |s.queue| + (|s.workers| - PillsPut(s.destroyer, |s.workers|)) >= Count(s.workers, IsGetting))
  }

  ghost predicate ItemsInv(s: State) {
    forall id: nat :: Occurrences(s, id) == if Accepted(s, id) then 1 else 0
  }

  /** Items are taken in the order in which they were accepted. */
  ghost predicate OrderInv(s: State) {
    && s.accepted == s.taken + D.Ids(s.queue)
    && forall id: nat :: Count(s.accepted, D.Is(id)) == if Accepted(s, id) then 1 else 0
  }

  ghost predicate Inv(s: State) {
    ControlInv(s) && QueueInv(s) && ItemsInv(s) && OrderInv(s)
  }

  lemma InitInv(s: State)
    requires Init(s)
    ensures Inv(s)
  {
    CountNone(s.workers, TookPill);
    forall id: nat ensures Occurrences(s, id) == 0 {
      CountNone(s.workers, IsRunning(id));
    }
  }

  lemma ControlKept(s: State, a: Action)
    requires ControlInv(s) && Enabled(s, a)
    ensures ControlInv(Do(s, a))
  {
  }

  /** Until the flag is set there are only work items in the queue. */
  lemma AllWorkYet(s: State)
    requires ControlInv(s) && QueueInv(s) && !s.terminated
    ensures forall i :: 0 <= i < |s.queue| ==> s.queue[i].Work?
  {
    forall i | 0 <= i < |s.queue| ensures s.queue[i].Work? {
      if s.queue[i].Pill? {
        CountAtLeast(s.queue, i, D.IsPill);
      }
    }
  }

  lemma SubmitKeepsQueue(s: State, t: nat)
    requires ControlInv(s) && QueueInv(s) && Enabled(s, Submit(t))
    ensures QueueInv(DoSubmit(s, t))
  {
    if s.submitters[t].Putting? {
      AllWorkYet(s);
      WorkAtEnd(s.queue, t);
    }
  }

  lemma WorkAtEnd(queue: seq<D.Entry>, id: nat)
    requires forall i :: 0 <= i < |queue| ==> queue[i].Work?
    ensures D.PillsLast(queue + [D.Work(id)])
    ensures Count(queue + [D.Work(id)], D.IsPill) == Count(queue, D.IsPill)
  {
    CountPush(queue, D.Work(id), D.IsPill);
    assert forall i :: 0 <= i <= |queue| ==> (queue + [D.Work(id)])[i].Work?;
  }

  /** Setting the flag: every worker inside queue_get has a pill to come. */
  lemma FlagKeepsQueue(s: State)
    requires ControlInv(s) && QueueInv(s) && Enabled(s, Destroy) && !s.destroyer.Pilling?
    ensures QueueInv(DoDestroy(s))
  {
    CountMost(s.workers, IsGetting);
  }

  lemma PillKeepsQueue(s: State)
    requires ControlInv(s) && QueueInv(s) && Enabled(s, Destroy) && s.destroyer.Pilling?
    ensures QueueInv(DoDestroy(s))
  {
    if s.destroyer.i < |s.workers| {
      D.PillAtEnd(s.queue, 0, Count(s.queue, D.IsPill));
    }
  }

  lemma ServeKeepsQueue(s: State, w: nat)
    requires QueueInv(s) && Enabled(s, Serve(w))
    ensures QueueInv(DoServe(s, w))
  {
    var x := DoServe(s, w).workers[w];
    CountUpdate(s.workers, w, x, TookPill);
    CountUpdate(s.workers, w, x, IsGetting);
    if s.workers[w].Getting? {
      CountPop(s.queue, D.IsPill);
    }
  }

  lemma SubmitOccurs(s: State, t: nat, id: nat)
    requires Enabled(s, Submit(t))
    ensures Occurrences(DoSubmit(s, t), id)
         == Occurrences(s, id) + if s.submitters[t].Putting? && id == t then 1 else 0
  {
    CountPush(s.queue, D.Work(t), D.IsWork(id));
  }

  /** A submission is accepted when it puts its item, not before and not twice. */
  lemma SubmitAccepts(s: State, t: nat, id: nat)
    requires Enabled(s, Submit(t))
    ensures Accepted(DoSubmit(s, t), id) <==> Accepted(s, id) || (s.submitters[t].Putting? && id == t)
    ensures s.submitters[t].Putting? ==> !Accepted(s, t)
  {
  }

  lemma SubmitKeepsItem(s: State, t: nat, id: nat)
    requires Enabled(s, Submit(t)) && Occurrences(s, id) == if Accepted(s, id) then 1 else 0
    ensures var s' := DoSubmit(s, t); Occurrences(s', id) == if Accepted(s', id) then 1 else 0
  {
    SubmitOccurs(s, t, id);
    SubmitAccepts(s, t, id);
  }

  lemma DestroyKeepsItem(s: State, id: nat)
    requires Enabled(s, Destroy)
    ensures Occurrences(DoDestroy(s), id) == Occurrences(s, id)
  {
    CountPush(s.queue, D.Pill, D.IsWork(id));
  }

  lemma ServeKeepsItem(s: State, w: nat, id: nat)
    requires Enabled(s, Serve(w))
    ensures Occurrences(DoServe(s, w), id) == Occurrences(s, id)
  {
    CountUpdate(s.workers, w, DoServe(s, w).workers[w], IsRunning(id));
    match s.workers[w]
    case Getting => CountPop(s.queue, D.IsWork(id));
    case Running(i) => CountPush(s.ran, i, D.Is(id));
    case _ =>
  }

  lemma QueueKept(s: State, a: Action)
    requires ControlInv(s) && QueueInv(s) && Enabled(s, a)
    ensures QueueInv(Do(s, a))
  {
    match a
    case Submit(t) => SubmitKeepsQueue(s, t);
    case Destroy => if s.destroyer.Pilling? { PillKeepsQueue(s); } else { FlagKeepsQueue(s); }
    case Serve(w) => ServeKeepsQueue(s, w);
  }

  lemma ItemsKept(s: State, a: Action)
    requires ItemsInv(s) && Enabled(s, a)
    ensures ItemsInv(Do(s, a))
  {
    var s' := Do(s, a);
    forall id: nat ensures Occurrences(s', id) == if Accepted(s', id) then 1 else 0 {
      assert Occurrences(s, id) == if Accepted(s, id) then 1 else 0;
      match a
      case Submit(t) => SubmitKeepsItem(s, t, id);
      case Destroy => DestroyKeepsItem(s, id);
      case Serve(w) => ServeKeepsItem(s, w, id);
    }
  }

  lemma SubmitKeepsOrder(s: State, t: nat)
    requires OrderInv(s) && Enabled(s, Submit(t))
    ensures OrderInv(DoSubmit(s, t))
  {
    D.IdsPush(s.queue, D.Work(t));
    forall id: nat
      ensures Count(DoSubmit(s, t).accepted, D.Is(id)) == if Accepted(DoSubmit(s, t), id) then 1 else 0
    {
      SubmitAccepts(s, t, id);
      CountPush<nat>(s.accepted, t, D.Is(id));
    }
  }

  lemma NoneAccepted(s: State, s': State)
    requires OrderInv(s) && s'.accepted == s.accepted && s'.submitters == s.submitters
    requires s'.taken + D.Ids(s'.queue) == s.taken + D.Ids(s.queue)
    ensures OrderInv(s')
  {
    forall id: nat ensures Count(s'.accepted, D.Is(id)) == if Accepted(s', id) then 1 else 0 {
      assert Accepted(s', id) <==> Accepted(s, id);
    }
  }

  lemma DestroyKeepsOrder(s: State)
    requires OrderInv(s) && Enabled(s, Destroy)
    ensures OrderInv(DoDestroy(s))
  {
    D.IdsPush(s.queue, D.Pill);
    assert D.Ids(DoDestroy(s).queue) == D.Ids(s.queue);
    NoneAccepted(s, DoDestroy(s));
  }

  lemma ServeKeepsOrder(s: State, w: nat)
    requires OrderInv(s) && Enabled(s, Serve(w))
    ensures OrderInv(DoServe(s, w))
  {
    if s.workers[w].Getting? {
      D.TakesOldest(s.taken, s.queue);
    }
    NoneAccepted(s, DoServe(s, w));
  }

  lemma OrderKept(s: State, a: Action)
    requires OrderInv(s) && Enabled(s, a)
    ensures OrderInv(Do(s, a))
  {
    match a
    case Submit(t) => SubmitKeepsOrder(s, t);
    case Destroy => DestroyKeepsOrder(s);
    case Serve(w) => ServeKeepsOrder(s, w);
  }

  lemma StepKeepsInv(s: State, s': State)
    requires Inv(s) && Step(s, s')
    ensures Inv(s')
  {
    var a :| Enabled(s, a) && s' == Do(s, a);
    ControlKept(s, a);
    QueueKept(s, a);
    ItemsKept(s, a);
    OrderKept(s, a);
  }

  lemma RunInv(run: seq<State>, k: nat)
    requires IsRun(Init, Step, run) && k < |run|
    ensures Inv(run[k])
  {
    forall s | Init(s) ensures Inv(s) { InitInv(s); }
    forall s, s' | Inv(s) && Step(s, s') ensures Inv(s') { StepKeepsInv(s, s'); }
    Always(Init, Step, Inv, run, k);
  }

  function SubmitterWork(p: Submitter): nat {
    match p
    case Locking => 7
    case Checking => 6
    case Putting => 5
    case Unlocking(_) => 1
    case Returned(_) => 0
  }

  function WorkerWork(w: Worker): nat {
    match w
    case Running(_) => 3
    case Testing => 2
    case Getting => 1
    case Stopped(_) => 0
  }

  function EntryWork(e: D.Entry): nat { if e.Work? then 3 else 1 }

  function DestroyerWork(d: Destroyer, n: nat): int {
    match d
    case WantsLock => 3 * n + 6
    case Flagging => 3 * n + 5
    case Pilling(i) => 2 * (n - i) + n + 4
    case Joining(j) => n + 2 - j
    case Releasing => 1
    case Ended => 0
  }

  function Rank(s: State): nat {
    var d := DestroyerWork(s.destroyer, |s.workers|);
    Sum(s.submitters, SubmitterWork) + Sum(s.workers, WorkerWork) + Sum(s.queue, EntryWork)
    + if d < 0 then 0 else d
  }

  lemma SubmitLowersRank(s: State, t: nat)
    requires Enabled(s, Submit(t))
    ensures Rank(DoSubmit(s, t)) < Rank(s)
  {
    SumUpdate(s.submitters, t, DoSubmit(s, t).submitters[t], SubmitterWork);
    SumPush(s.queue, D.Work(t), EntryWork);
  }

  lemma DestroyLowersRank(s: State)
    requires ControlInv(s) && Enabled(s, Destroy)
    ensures Rank(DoDestroy(s)) < Rank(s)
  {
    SumPush(s.queue, D.Pill, EntryWork);
  }

  lemma ServeLowersRank(s: State, w: nat)
    requires Enabled(s, Serve(w))
    ensures Rank(DoServe(s, w)) < Rank(s)
  {
    SumUpdate(s.workers, w, DoServe(s, w).workers[w], WorkerWork);
    if s.queue != [] {
      SumPop(s.queue, EntryWork);
    }
  }

  lemma StepLowersRank(s: State, s': State)
    requires Inv(s) && Step(s, s')
    ensures Rank(s') < Rank(s)
  {
    var a :| Enabled(s, a) && s' == Do(s, a);
    match a
    case Submit(t) => SubmitLowersRank(s, t);
    case Destroy => DestroyLowersRank(s);
    case Serve(w) => ServeLowersRank(s, w);
  }

  predicate AllEnded(s: State) {
    && s.destroyer.Ended?
    && (forall t :: 0 <= t < |s.submitters| ==> s.submitters[t].Returned?)
    && (forall w :: 0 <= w < |s.workers| ==> s.workers[w].Stopped?)
  }

  /** The join of a worker never waits for ever. */
  lemma ServedWhileJoining(s: State, w: nat)
    requires ControlInv(s) && QueueInv(s) && s.destroyer.Joining?
    requires w < |s.workers| && !s.workers[w].Stopped?
    ensures Enabled(s, Serve(w))
  {
    if s.workers[w].Getting? {
      CountAtLeast(s.workers, w, IsGetting);
    }
  }

  lemma NeverStuck(s: State)
    requires Inv(s) && !AllEnded(s)
    ensures exists a :: Enabled(s, a)
  {
    if t :| 0 <= t < |s.submitters| && !s.submitters[t].Returned? && !s.submitters[t].Locking? {
      assert Enabled(s, Submit(t));
    } else if s.destroyer.Joining? && s.destroyer.j < |s.workers| && !s.workers[s.destroyer.j].Stopped? {
      ServedWhileJoining(s, s.destroyer.j);
    } else if !s.destroyer.Ended? {
      assert Enabled(s, Destroy);
    } else {
      var t :| 0 <= t < |s.submitters| && s.submitters[t].Locking?;
      assert Enabled(s, Submit(t));
    }
  }

  /** Nothing is turned down before the flag is set, nor until the workers have stopped: tp_destroy
      holds the lock all the while. */
  lemma ReturnedAccepted(s: State)
    requires ControlInv(s) && ItemsInv(s)
    ensures forall t: nat :: Rejected(s, t) ==>
              s.terminated && forall w :: 0 <= w < |s.workers| ==> s.workers[w].Stopped?
    ensures !s.terminated ==> forall t :: 0 <= t < |s.submitters| && s.submitters[t].Returned? ==>
              Accepted(s, t) && Occurrences(s, t) == 1
  {
    forall t: nat | !s.terminated && t < |s.submitters| && s.submitters[t].Returned? ensures Accepted(s, t) {
      assert !IsRejected(s.submitters[t]);
    }
  }

  lemma RanOnceOrLeft(s: State)
    requires ControlInv(s) && ItemsInv(s) && s.destroyer.Ended?
    ensures forall id: nat ::
              Count(s.ran, D.Is(id)) + Count(s.queue, D.IsWork(id)) == if Accepted(s, id) then 1 else 0
  {
    forall id: nat
      ensures Count(s.ran, D.Is(id)) + Count(s.queue, D.IsWork(id)) == if Accepted(s, id) then 1 else 0
    {
      CountNone(s.workers, IsRunning(id));
      assert Occurrences(s, id) == if Accepted(s, id) then 1 else 0;
    }
  }

  lemma RunBounded(run: seq<State>)
    requires IsRun(Init, Step, run)
    ensures |run| <= Rank(run[0]) + 1
  {
    forall s | Init(s) ensures Inv(s) { InitInv(s); }
    forall s, s' | Inv(s) && Step(s, s') ensures Inv(s') && Rank(s') < Rank(s) {
      StepKeepsInv(s, s');
      StepLowersRank(s, s');
    }
    Bounded(Init, Step, Inv, Rank, run, |run| - 1);
  }

  lemma NobodyLeft(s: State)
    requires Inv(s)
    ensures (forall a :: !Enabled(s, a)) ==> AllEnded(s)
  {
    if !AllEnded(s) {
      NeverStuck(s);
    }
  }

  /** Every run is finite and cannot end before every thread has; meanwhile every item accepted is in
      exactly one place, so it runs at most once; no worker takes more than one queue element after
      the flag is set; items are taken in the order in which they were accepted; nothing is turned down
      before the flag is set and the workers have stopped; and the pills put are those still queued and
      those that stopped a worker. */
  lemma PoolCorrect(run: seq<State>)
    requires IsRun(Init, Step, run)
    ensures |run| <= Rank(run[0]) + 1
    ensures var s := run[|run| - 1];
            && (forall id: nat :: Occurrences(s, id) == if Accepted(s, id) then 1 else 0)
            && s.accepted == s.taken + D.Ids(s.queue)
            && (forall t: nat :: Rejected(s, t) ==>
                  s.terminated && forall w :: 0 <= w < |s.workers| ==> s.workers[w].Stopped?)
            && (!s.terminated ==> forall t :: 0 <= t < |s.submitters| && s.submitters[t].Returned? ==>
                  Accepted(s, t) && Occurrences(s, t) == 1)
            && |s.late| == |s.workers|
            && (forall w :: 0 <= w < |s.workers| ==> s.late[w] <= 1)
            && Count(s.queue, D.IsPill) + Count(s.workers, TookPill) == PillsPut(s.destroyer, |s.workers|)
            && ((forall a :: !Enabled(s, a)) ==> AllEnded(s))
            && (s.destroyer.Ended? ==> forall id: nat ::
                  Count(s.ran, D.Is(id)) + Count(s.queue, D.IsWork(id)) == if Accepted(s, id) then 1 else 0)
  {
    var k := |run| - 1;
    RunInv(run, k);
    var s := run[k];
    ReturnedAccepted(s);
    NobodyLeft(s);
    if s.destroyer.Ended? {
      RanOnceOrLeft(s);
    }
    RunBounded(run);
  }

  // ----- what the flag leaves in the queue --------------------------------------------------------

  /** The work items of a queue, in order. */
  function Works(queue: seq<D.Entry>): (r: seq<D.Entry>)
    ensures |r| <= |queue|
  {
    if queue == [] then []
    else (if queue[0].Work? then [queue[0]] else []) + Works(queue[1..])
  }

  lemma {:induction false} IdsOfWorks(queue: seq<D.Entry>)
    ensures D.Ids(Works(queue)) == D.Ids(queue)
  {
    if queue != [] {
      IdsOfWorks(queue[1..]);
      if queue[0].Work? {
        assert Works(queue)[1..] == Works(queue[1..]);
      } else {
        assert Works(queue) == Works(queue[1..]);
      }
    }
  }

  lemma {:induction false} WorksPush(queue: seq<D.Entry>)
    ensures Works(queue + [D.Pill]) == Works(queue)
  {
    if queue == [] {
      assert ([] + [D.Pill])[1..] == [];
    } else {
      assert (queue + [D.Pill])[1..] == queue[1..] + [D.Pill];
      WorksPush(queue[1..]);
    }
  }

  lemma {:induction false} WorksOfPills(queue: seq<D.Entry>)
    requires D.OnlyPills(queue)
    ensures Works(queue) == []
  {
    if queue != [] {
      WorksOfPills(queue[1..]);
    }
  }

  lemma {:induction false} WorksOfWork(queue: seq<D.Entry>)
    requires forall i :: 0 <= i < |queue| ==> queue[i].Work?
    ensures Works(queue) == queue
  {
    if queue != [] {
      WorksOfWork(queue[1..]);
    }
  }

  lemma {:induction false} CountWorks(queue: seq<D.Entry>, id: nat)
    ensures Count(Works(queue), D.IsWork(id)) == Count(queue, D.IsWork(id))
  {
    if queue != [] {
      CountWorks(queue[1..], id);
      CountPop(queue, D.IsWork(id));
      if queue[0].Work? {
        assert Works(queue)[1..] == Works(queue[1..]);
        CountPop(Works(queue), D.IsWork(id));
      } else {
        assert Works(queue) == Works(queue[1..]);
      }
    }
  }

  /** All but the first n elements. */
  function Beyond(queue: seq<D.Entry>, n: nat): seq<D.Entry> {
    if n <= |queue| then queue[n..] else []
  }

  lemma BeyondFirst(queue: seq<D.Entry>, n: nat)
    requires queue != [] && n > 0
    ensures Beyond(queue, n) == Beyond(queue[1..], n - 1)
  {
  }

  /** The work items for which no worker will come once the flag is set: each worker inside queue_get
      takes one element more, the others none. */
  function LeftBehind(s: State): seq<D.Entry> {
    Beyond(Works(s.queue), Count(s.workers, IsGetting))
  }

  /** One element taken by one of g getters leaves the same items behind. */
  lemma TakeOne(queue: seq<D.Entry>, g: nat)
    requires queue != [] && g > 0 && D.PillsLast(queue)
    ensures Beyond(Works(queue[1..]), g - 1) == Beyond(Works(queue), g)
  {
    if queue[0].Pill? {
      assert D.OnlyPills(queue);
      WorksOfPills(queue);
      WorksOfPills(queue[1..]);
    } else {
      assert Works(queue)[1..] == Works(queue[1..]);
      BeyondFirst(Works(queue), g);
    }
  }

  lemma ServeKeepsLeftBehind(s: State, w: nat)
    requires D.PillsLast(s.queue) && s.terminated && Enabled(s, Serve(w))
    ensures LeftBehind(DoServe(s, w)) == LeftBehind(s)
  {
    CountUpdate(s.workers, w, DoServe(s, w).workers[w], IsGetting);
    if s.workers[w].Getting? {
      CountAtLeast(s.workers, w, IsGetting);
      TakeOne(s.queue, Count(s.workers, IsGetting));
    }
  }

  lemma StepKeepsLeftBehind(s: State, s': State)
    requires ControlInv(s) && QueueInv(s) && s.terminated && Step(s, s')
    ensures s'.terminated && LeftBehind(s') == LeftBehind(s)
  {
    var a :| Enabled(s, a) && s' == Do(s, a);
    match a
    case Submit(t) =>
    case Destroy => WorksPush(s.queue);
    case Serve(w) => ServeKeepsLeftBehind(s, w);
  }

  lemma StepOfRun(run: seq<State>, k: nat)
    requires IsRun(Init, Step, run) && 0 < k < |run|
    ensures ControlInv(run[k - 1]) && QueueInv(run[k - 1]) && Step(run[k - 1], run[k])
  {
    RunInv(run, k - 1);
    StepAt(Init, Step, run, k);
  }

  lemma {:induction false} LeftBehindFixed(run: seq<State>, f: nat, k: nat)
    requires IsRun(Init, Step, run) && f <= k < |run| && run[f].terminated
    ensures run[k].terminated && LeftBehind(run[k]) == LeftBehind(run[f])
    decreases k
  {
    if f < k {
      LeftBehindFixed(run, f, k - 1);
      StepOfRun(run, k);
      StepKeepsLeftBehind(run[k - 1], run[k]);
    }
  }

  /** The step that sets the flag. */
  ghost predicate SetsFlag(run: seq<State>, f: nat) {
    f + 1 < |run| && !run[f].terminated && run[f + 1].terminated
  }

  /** The items in the queue when the flag is set, but for as many of the oldest as there are workers
      inside queue_get at that moment. */
  function Unserved(s: State): (r: seq<D.Entry>) {
    Beyond(s.queue, Count(s.workers, IsGetting))
  }

  lemma FlagStep(s: State, s': State)
    requires ControlInv(s) && QueueInv(s) && Step(s, s') && !s.terminated && s'.terminated
    ensures LeftBehind(s') == Unserved(s) && forall e :: e in Unserved(s) ==> e.Work?
  {
    AllWorkYet(s);
    WorksOfWork(s.queue);
  }

  lemma NobodyGetting(s: State)
    requires ControlInv(s) && s.destroyer.Ended?
    ensures LeftBehind(s) == Works(s.queue)
  {
    CountNone(s.workers, IsGetting);
  }

  /** Some step sets the flag in every run in which tp_destroy ends. */
  lemma {:induction false} FlagMoment(run: seq<State>, k: nat) returns (f: nat)
    requires IsRun(Init, Step, run) && k < |run| && run[k].terminated
    ensures SetsFlag(run, f) && f < k
  {
    if !run[k - 1].terminated {
      f := k - 1;
    } else {
      f := FlagMoment(run, k - 1);
    }
  }

  lemma UnservedAtFlag(run: seq<State>, f: nat)
    requires IsRun(Init, Step, run) && SetsFlag(run, f)
    ensures LeftBehind(run[f + 1]) == Unserved(run[f])
    ensures forall e :: e in Unserved(run[f]) ==> e.Work?
  {
    StepOfRun(run, f + 1);
    FlagStep(run[f], run[f + 1]);
  }

  lemma LeftAtEnd(run: seq<State>)
    requires IsRun(Init, Step, run) && run[|run| - 1].destroyer.Ended?
    ensures LeftBehind(run[|run| - 1]) == Works(run[|run| - 1].queue)
  {
    RunInv(run, |run| - 1);
    NobodyGetting(run[|run| - 1]);
  }

  lemma LeftFrom(run: seq<State>, f: nat, left: seq<D.Entry>)
    requires IsRun(Init, Step, run) && f < |run| && run[f].terminated && LeftBehind(run[f]) == left
    requires run[|run| - 1].destroyer.Ended?
    ensures Works(run[|run| - 1].queue) == left
  {
    LeftBehindFixed(run, f, |run| - 1);
    LeftAtEnd(run);
  }

  lemma UnservedStay(run: seq<State>, f: nat)
    requires IsRun(Init, Step, run) && SetsFlag(run, f) && run[|run| - 1].destroyer.Ended?
    ensures Works(run[|run| - 1].queue) == Unserved(run[f])
    ensures forall e :: e in Unserved(run[f]) ==> e.Work?
  {
    UnservedAtFlag(run, f);
    LeftFrom(run, f + 1, Unserved(run[f]));
  }

  /** At the end, the items that have not run are those still in the queue, which were accepted last. */
  lemma EndExact(s: State, left: seq<D.Entry>)
    requires ControlInv(s) && ItemsInv(s) && OrderInv(s) && s.destroyer.Ended?
    requires Works(s.queue) == left && forall e :: e in left ==> e.Work?
    ensures s.accepted == s.taken + D.Ids(left)
    ensures forall id: nat :: Count(s.ran, D.Is(id)) == if Accepted(s, id) && D.Work(id) !in left then 1 else 0
    ensures (forall id: nat :: Accepted(s, id) ==> Count(s.ran, D.Is(id)) == 1) <==> left == []
  {
    IdsOfWorks(s.queue);
    forall id: nat
      ensures Count(s.ran, D.Is(id)) == if Accepted(s, id) && D.Work(id) !in left then 1 else 0
      ensures D.Work(id) in left ==> Accepted(s, id)
    {
      RanOrLeft(s, id);
    }
    if left != [] {
      var id := left[0].id;
      assert left[0] in left && left[0] == D.Work(id);
      assert Accepted(s, id) && Count(s.ran, D.Is(id)) == 0;
    }
  }

  /** Exactly which items are never run: those left unserved when the flag is set, which are the last
      ones accepted; so every accepted item has run if and only if there were no more items in the
      queue than workers inside queue_get. */
  lemma LeftoversExact(run: seq<State>, f: nat)
    requires IsRun(Init, Step, run) && SetsFlag(run, f) && run[|run| - 1].destroyer.Ended?
    ensures var s, left := run[|run| - 1], Unserved(run[f]);
            && Works(s.queue) == left && s.accepted == s.taken + D.Ids(left)
            && (forall id: nat :: Count(s.ran, D.Is(id)) == if Accepted(s, id) && D.Work(id) !in left then 1 else 0)
            && ((forall id: nat :: Accepted(s, id) ==> Count(s.ran, D.Is(id)) == 1) <==>
                |run[f].queue| <= Count(run[f].workers, IsGetting))
  {
    UnservedStay(run, f);
    RunInv(run, |run| - 1);
    EndExact(run[|run| - 1], Unserved(run[f]));
  }

  /** At the end an accepted item has run once or is in the queue. */
  lemma RanOrLeft(s: State, id: nat)
    requires ControlInv(s) && ItemsInv(s) && s.destroyer.Ended?
    ensures var left := Works(s.queue);
            && Count(s.ran, D.Is(id)) == (if Accepted(s, id) && D.Work(id) !in left then 1 else 0)
            && (D.Work(id) in left ==> Accepted(s, id))
  {
    var left := Works(s.queue);
    CountNone(s.workers, IsRunning(id));
    CountWorks(s.queue, id);
    assert Occurrences(s, id) == Count(left, D.IsWork(id)) + Count(s.ran, D.Is(id));
    if D.Work(id) in left {
      var i :| 0 <= i < |left| && left[i] == D.Work(id);
      CountAtLeast(left, i, D.IsWork(id));
    } else {
      CountNone(left, D.IsWork(id));
    }
  }

  lemma Act(run: seq<State>, a: Action) returns (longer: seq<State>)
    requires IsRun(Init, Step, run) && Enabled(run[|run| - 1], a)
    ensures IsRun(Init, Step, longer) && longer == run + [Do(run[|run| - 1], a)]
  {
    assert Step(run[|run| - 1], Do(run[|run| - 1], a));
    longer := Extend(Init, Step, run, Do(run[|run| - 1], a));
  }

  /** Every run goes on to one in which all have ended. */
  lemma Complete(run: seq<State>) returns (longer: seq<State>)
    requires IsRun(Init, Step, run)
    ensures IsRun(Init, Step, longer) && run <= longer && AllEnded(longer[|longer| - 1])
    decreases Rank(run[|run| - 1])
  {
    var s := run[|run| - 1];
    if AllEnded(s) {
      longer := run;
    } else {
      RunInv(run, |run| - 1);
      NeverStuck(s);
      var a :| Enabled(s, a);
      assert Step(s, Do(s, a));
      StepLowersRank(s, Do(s, a));
      longer := Act(run, a);
      longer := Complete(longer);
    }
  }

  /** One submission has got in, no worker has looked at the flag, and the destroyer is about to set it. */
  ghost predicate OneIn(s: State) {
    && Enabled(s, Destroy) && s.destroyer.Flagging? && !s.terminated
    && s.queue == [D.Work(0)] && Count(s.workers, IsGetting) == 0
  }

  lemma OneSubmitted(s: State) returns (run: seq<State>)
    requires Init(s) && |s.submitters| > 0
    ensures IsRun(Init, Step, run) && run[0] == s && OneIn(run[|run| - 1])
  {
    run := [s];
    run := Act(run, Submit(0));
    run := Act(run, Submit(0));
    run := Act(run, Submit(0));
    run := Act(run, Submit(0));
    run := Act(run, Destroy);
    assert run[|run| - 1].workers == s.workers;
    CountNone(s.workers, IsGetting);
  }

  lemma SetFlag(run: seq<State>) returns (longer: seq<State>)
    requires IsRun(Init, Step, run) && OneIn(run[|run| - 1])
    ensures IsRun(Init, Step, longer) && longer[0] == run[0] && AllEnded(longer[|longer| - 1])
    ensures SetsFlag(longer, |run| - 1) && longer[|run| - 1] == run[|run| - 1]
  {
    var flagged := Act(run, Destroy);
    longer := Complete(flagged);
  }

  /** Unlike the pool with pills alone, this one may end with an accepted item that has not run, for
      every number of workers and submitters: one submission gets in before the flag, and no worker
      has gone on to queue_get when the flag is set. */
  lemma AcceptedItemMayNotRun(s: State) returns (run: seq<State>)
    requires Init(s) && |s.submitters| > 0
    ensures IsRun(Init, Step, run) && run[0] == s
    ensures var s' := run[|run| - 1]; AllEnded(s') && Accepted(s', 0) && Count(s'.ran, D.Is(0)) == 0
  {
    var before := OneSubmitted(s);
    run := SetFlag(before);
    var f := |before| - 1;
    UnservedStay(run, f);
    assert Unserved(run[f]) == [D.Work(0)];
    RunInv(run, |run| - 1);
    RanOrLeft(run[|run| - 1], 0);
  }

  /** From a fresh pool some complete run leaves an accepted item unrun if and only if anything is
      submitted at all. */
  lemma ItemsLeftIff(s: State)
    requires Init(s)
    ensures (exists run: seq<State>, id: nat :: IsRun(Init, Step, run) && run[0] == s && LostItem(run, id)) <==>
            |s.submitters| > 0
  {
    if |s.submitters| > 0 {
      var run := AcceptedItemMayNotRun(s);
      assert LostItem(run, 0);
    } else {
      forall run: seq<State>, id: nat | IsRun(Init, Step, run) && run[0] == s ensures !LostItem(run, id) {
        SubmittersFixed(run, |run| - 1);
      }
    }
  }

  /** The run is over and item `id`, although accepted, has not been run. */
  ghost predicate LostItem(run: seq<State>, id: nat) {
    |run| > 0 && AllEnded(run[|run| - 1]) && Accepted(run[|run| - 1], id) && Count(run[|run| - 1].ran, D.Is(id)) == 0
  }

  lemma {:induction false} SubmittersFixed(run: seq<State>, k: nat)
    requires IsRun(Init, Step, run) && k < |run|
    ensures |run[k].submitters| == |run[0].submitters|
  {
    if k > 0 {
      SubmittersFixed(run, k - 1);
      StepAt(Init, Step, run, k);
    }
  }
}
