/** The thread pool that shuts down with poison pills (aula-05-13a/tpool.c): N workers, any number
    of concurrent tp_submit calls, one tp_destroy. Every action below is one atomic operation: an
    atomic load, a lock or unlock, one queue_put or queue_get of the blocking queue, one work item. */
module PoolDrain {
  import opened Runs

  /** A queue entry: the work item of submission `id`, or the NULL that stops one worker. */
  datatype Entry = Work(id: nat) | Pill

  datatype Holder = Free | BySubmitter(thread: nat) | ByDestroyer

  /** tp_submit: load flag, lock, load flag again, put, unlock. `ok` tells whether it put an item. */
  datatype Submitter = Entering | Locking | Checking | Putting | Unlocking(ok: bool) | Returned(ok: bool)

  /** tp_destroy: set the flag, lock, put N pills, unlock, join the N workers one by one. */
  datatype Destroyer = Starting | WantsLock | Pilling(i: nat) | Releasing | Joining(j: nat) | Ended

  datatype Worker = Getting | Running(id: nat) | Stopped

  datatype State = State(
    queue: seq<Entry>,
    destroying: bool,
    lock: Holder,
    submitters: seq<Submitter>,
    destroyer: Destroyer,
    workers: seq<Worker>,
    ran: seq<nat>,       // items whose execution is over, in order
    accepted: seq<nat>,  // submissions that have put their item, in order
    taken: seq<nat>)     // items that workers have taken, in order

  datatype Action = Submit(thread: nat) | Destroy | Serve(worker: nat)

  predicate Enabled(s: State, a: Action) {
    match a
    case Submit(t) =>
      && t < |s.submitters|
      && !s.submitters[t].Returned?
      && (s.submitters[t].Locking? ==> s.lock.Free?)
    case Destroy =>
      && !s.destroyer.Ended?
      && (s.destroyer.WantsLock? ==> s.lock.Free?)
      && (s.destroyer.Joining? && s.destroyer.j < |s.workers| ==> s.workers[s.destroyer.j].Stopped?)
    case Serve(w) =>
      && w < |s.workers|
      && !s.workers[w].Stopped?
      && (s.workers[w].Getting? ==> s.queue != [])
  }

  function DoSubmit(s: State, t: nat): State
    requires Enabled(s, Submit(t))
  {
    match s.submitters[t]
    case Entering =>
      s.(submitters := s.submitters[t := if s.destroying then Returned(false) else Locking])
    case Locking =>
      s.(submitters := s.submitters[t := Checking], lock := BySubmitter(t))
    case Checking =>
      s.(submitters := s.submitters[t := if s.destroying then Unlocking(false) else Putting])
    case Putting =>
      s.(submitters := s.submitters[t := Unlocking(true)],
         queue := s.queue + [Work(t)], accepted := s.accepted + [t])
    case Unlocking(ok) =>
      s.(submitters := s.submitters[t := Returned(ok)], lock := Free)
  }

  function DoDestroy(s: State): State
    requires Enabled(s, Destroy)
  {
    match s.destroyer
    case Starting => s.(destroyer := WantsLock, destroying := true)
    case WantsLock => s.(destroyer := Pilling(0), lock := ByDestroyer)
    case Pilling(i) =>
      if i < |s.workers| then s.(destroyer := Pilling(i + 1), queue := s.queue + [Pill])
      else s.(destroyer := Releasing)
    case Releasing => s.(destroyer := Joining(0), lock := Free)
    case Joining(j) => s.(destroyer := if j < |s.workers| then Joining(j + 1) else Ended)
  }

  function DoServe(s: State, w: nat): State
    requires Enabled(s, Serve(w))
  {
    match s.workers[w]
    case Getting =>
      s.(queue := s.queue[1..],
         workers := s.workers[w := if s.queue[0].Pill? then Stopped else Running(s.queue[0].id)],
         taken := if s.queue[0].Pill? then s.taken else s.taken + [s.queue[0].id])
    case Running(id) =>
      s.(workers := s.workers[w := Getting], ran := s.ran + [id])
  }

  function Do(s: State, a: Action): State
    requires Enabled(s, a)
  {
    match a
    case Submit(t) => DoSubmit(s, t)
    case Destroy => DoDestroy(s)
    case Serve(w) => DoServe(s, w)
  }

  ghost predicate Init(s: State) {
    && s.queue == [] && !s.destroying && s.lock.Free? && s.destroyer.Starting?
    && (forall t :: 0 <= t < |s.submitters| ==> s.submitters[t].Entering?)
    && |s.workers| > 0 && (forall w :: 0 <= w < |s.workers| ==> s.workers[w].Getting?)
    && s.ran == s.accepted == s.taken == []
  }

  ghost predicate Step(s: State, s': State) {
    exists a :: Enabled(s, a) && s' == Do(s, a)
  }

  predicate IsPill(e: Entry) { e.Pill? }
  predicate IsStopped(w: Worker) { w.Stopped? }

  function IsWork(id: nat): Entry -> bool { (e: Entry) => e == Work(id) }
  function IsRunning(id: nat): Worker -> bool { (w: Worker) => w == Running(id) }
  function Is(id: nat): nat -> bool { (i: nat) => i == id }

  /** Where the item of submission `id` is to be found, counting every occurrence. */
  function Occurrences(s: State, id: nat): nat {
    Count(s.queue, IsWork(id)) + Count(s.workers, IsRunning(id)) + Count(s.ran, Is(id))
  }

  /** Submission `id` has put its item. */
  predicate Accepted(s: State, id: nat) {
    id < |s.submitters| && s.submitters[id] in {Unlocking(true), Returned(true)}
  }

  predicate IsRejected(p: Submitter) { p == Unlocking(false) || p == Returned(false) }

  /** Submission t has been turned down. */
  predicate Rejected(s: State, t: nat) {
    t < |s.submitters| && IsRejected(s.submitters[t])
  }

  function IdOf(e: Entry): seq<nat> {
    if e.Work? then [e.id] else []
  }

  /** The items of a queue, oldest first. */
  function Ids(queue: seq<Entry>): seq<nat> {
    if queue == [] then [] else IdOf(queue[0]) + Ids(queue[1..])
  }

  lemma {:induction false} IdsPush(queue: seq<Entry>, e: Entry)
    ensures Ids(queue + [e]) == Ids(queue) + IdOf(e)
  {
    if queue == [] {
      assert ([] + [e])[1..] == [];
      assert Ids([e]) == IdOf(e) + [];
    } else {
      var rest := queue[1..];
      assert (queue + [e])[1..] == rest + [e];
      IdsPush(rest, e);
      assert IdOf(queue[0]) + (Ids(rest) + IdOf(e)) == (IdOf(queue[0]) + Ids(rest)) + IdOf(e);
    }
  }

  /** Pills put so far. */
  function PillsPut(d: Destroyer, n: nat): nat {
    match d
    case Starting => 0
    case WantsLock => 0
    case Pilling(i) => i
    case _ => n
  }

  predicate HoldsLock(p: Submitter) {
    p.Checking? || p.Putting? || p.Unlocking?
  }

  /** The lock, the flag and the destroyer's progress. */
  ghost predicate ControlInv(s: State) {
    && |s.workers| > 0
    && (forall t :: 0 <= t < |s.submitters| ==> (HoldsLock(s.submitters[t]) <==> s.lock == BySubmitter(t)))
    && (s.lock.BySubmitter? ==> s.lock.thread < |s.submitters|)
    && (s.lock.ByDestroyer? <==> s.destroyer.Pilling? || s.destroyer.Releasing?)
    && (s.destroying <==> !s.destroyer.Starting?)
    // only a pool that is being destroyed turns submissions down
    && (forall t :: 0 <= t < |s.submitters| && IsRejected(s.submitters[t]) ==> s.destroying)
    // once past the lock, the destroyer never meets a submitter about to put
    && (forall t :: 0 <= t < |s.submitters| && s.submitters[t].Putting? ==>
          s.destroyer.Starting? || s.destroyer.WantsLock?)
    && (s.destroyer.Pilling? ==> s.destroyer.i <= |s.workers|)
    && (s.destroyer.Joining? ==>
          && s.destroyer.j <= |s.workers|
          && forall w :: 0 <= w < s.destroyer.j ==> s.workers[w].Stopped?)
    && (s.destroyer.Ended? ==> forall w :: 0 <= w < |s.workers| ==> s.workers[w].Stopped?)
  }

  /** Pills are never overtaken: no work item sits behind one. */
  ghost predicate PillsLast(queue: seq<Entry>) {
    forall i, j :: 0 <= i < j < |queue| && queue[i].Pill? ==> queue[j].Pill?
  }

  ghost predicate OnlyPills(queue: seq<Entry>) {
    forall i :: 0 <= i < |queue| ==> queue[i].Pill?
  }

  ghost predicate QueueOk(queue: seq<Entry>, stopped: nat, put: nat) {
    && PillsLast(queue)
    // every pill put is in the queue or has stopped exactly one worker
    && Count(queue, IsPill) + stopped == put
    // once a worker has stopped only pills are left
    && (stopped > 0 ==> OnlyPills(queue))
  }

  ghost predicate QueueInv(s: State) {
    QueueOk(s.queue, Count(s.workers, IsStopped), PillsPut(s.destroyer, |s.workers|))
  }

  /** Nothing accepted is lost or duplicated, and nothing else is in the pool. */
  ghost predicate ItemsInv(s: State) {
    forall id: nat :: Occurrences(s, id) == if Accepted(s, id) then 1 else 0
  }

  /** Items are taken in the order in which they were accepted. */
  ghost predicate OrderInv(s: State) {
    && s.accepted == s.taken + Ids(s.queue)
    && forall id: nat :: Count(s.accepted, Is(id)) == if Accepted(s, id) then 1 else 0
  }

  ghost predicate Inv(s: State) {
    ControlInv(s) && QueueInv(s) && ItemsInv(s) && OrderInv(s)
  }

  lemma InitInv(s: State)
    requires Init(s)
    ensures Inv(s)
  {
    CountNone(s.workers, IsStopped);
    forall id: nat ensures Occurrences(s, id) == 0 {
      CountNone(s.workers, IsRunning(id));
    }
  }

  lemma ControlKept(s: State, a: Action)
    requires ControlInv(s) && Enabled(s, a)
    ensures ControlInv(Do(s, a))
  {
  }

  /** While a submitter may still put, there is no pill and no stopped worker. */
  lemma NoPillsYet(s: State)
    requires QueueInv(s) && PillsPut(s.destroyer, |s.workers|) == 0
    ensures forall i :: 0 <= i < |s.queue| ==> s.queue[i].Work?
    ensures Count(s.workers, IsStopped) == 0
  {
    forall i | 0 <= i < |s.queue| ensures s.queue[i].Work? {
      if s.queue[i].Pill? {
        CountAtLeast(s.queue, i, IsPill);
      }
    }
  }

  lemma SubmitKeepsQueue(s: State, t: nat)
    requires ControlInv(s) && QueueInv(s) && Enabled(s, Submit(t))
    ensures QueueInv(DoSubmit(s, t))
  {
    if s.submitters[t].Putting? {
      CountPush(s.queue, Work(t), IsPill);
      NoPillsYet(s);
    }
  }

  lemma PillAtEnd(queue: seq<Entry>, stopped: nat, put: nat)
    requires QueueOk(queue, stopped, put)
    ensures QueueOk(queue + [Pill], stopped, put + 1)
  {
    CountPush(queue, Pill, IsPill);
  }

  lemma DestroyKeepsQueue(s: State)
    requires ControlInv(s) && QueueInv(s) && Enabled(s, Destroy)
    ensures QueueInv(DoDestroy(s))
  {
    if s.destroyer.Pilling? && s.destroyer.i < |s.workers| {
      PillAtEnd(s.queue, Count(s.workers, IsStopped), PillsPut(s.destroyer, |s.workers|));
    }
  }

  lemma ServeKeepsQueue(s: State, w: nat)
    requires QueueInv(s) && Enabled(s, Serve(w))
    ensures QueueInv(DoServe(s, w))
  {
    CountUpdate(s.workers, w, DoServe(s, w).workers[w], IsStopped);
    if s.workers[w].Getting? {
      CountPop(s.queue, IsPill);
    }
  }

  lemma SubmitOccurs(s: State, t: nat, id: nat)
    requires Enabled(s, Submit(t))
    ensures Occurrences(DoSubmit(s, t), id)
         == Occurrences(s, id) + if s.submitters[t].Putting? && id == t then 1 else 0
  {
    CountPush(s.queue, Work(t), IsWork(id));
  }

  /** A submission is accepted when it puts its item, not before and not twice. */
  lemma SubmitAccepts(s: State, t: nat, id: nat)
    requires Enabled(s, Submit(t))
    ensures Accepted(DoSubmit(s, t), id) <==> Accepted(s, id) || (s.submitters[t].Putting? && id == t)
    ensures s.submitters[t].Putting? ==> !Accepted(s, t)
  {
  }

  lemma SubmitKeepsItem(s: State, t: nat, id: nat)
    requires Enabled(s, Submit(t)) && Occurrences(s, id) == if Accepted(s, id) then 1 else 0
    ensures var s' := DoSubmit(s, t); Occurrences(s', id) == if Accepted(s', id) then 1 else 0
  {
    SubmitOccurs(s, t, id);
    SubmitAccepts(s, t, id);
  }

  lemma DestroyKeepsItem(s: State, id: nat)
    requires Enabled(s, Destroy)
    ensures Occurrences(DoDestroy(s), id) == Occurrences(s, id)
  {
    CountPush(s.queue, Pill, IsWork(id));
  }

  lemma ServeKeepsItem(s: State, w: nat, id: nat)
    requires Enabled(s, Serve(w))
    ensures Occurrences(DoServe(s, w), id) == Occurrences(s, id)
  {
    CountUpdate(s.workers, w, DoServe(s, w).workers[w], IsRunning(id));
    if s.workers[w].Getting? {
      CountPop(s.queue, IsWork(id));
    } else {
      CountPush(s.ran, s.workers[w].id, Is(id));
    }
  }

  lemma SubmitKeepsOrder(s: State, t: nat)
    requires OrderInv(s) && Enabled(s, Submit(t))
    ensures OrderInv(DoSubmit(s, t))
  {
    IdsPush(s.queue, Work(t));
    forall id: nat
      ensures Count(DoSubmit(s, t).accepted, Is(id)) == if Accepted(DoSubmit(s, t), id) then 1 else 0
    {
      SubmitAccepts(s, t, id);
      CountPush<nat>(s.accepted, t, Is(id));
    }
  }

  lemma NoneAccepted(s: State, s': State)
    requires OrderInv(s) && s'.accepted == s.accepted && s'.submitters == s.submitters
    requires s'.taken + Ids(s'.queue) == s.taken + Ids(s.queue)
    ensures OrderInv(s')
  {
    forall id: nat ensures Count(s'.accepted, Is(id)) == if Accepted(s', id) then 1 else 0 {
      assert Accepted(s', id) <==> Accepted(s, id);
    }
  }

  lemma DestroyKeepsOrder(s: State)
    requires OrderInv(s) && Enabled(s, Destroy)
    ensures OrderInv(DoDestroy(s))
  {
    IdsPush(s.queue, Pill);
    assert Ids(DoDestroy(s).queue) == Ids(s.queue);
    NoneAccepted(s, DoDestroy(s));
  }

  lemma ServeKeepsOrder(s: State, w: nat)
    requires OrderInv(s) && Enabled(s, Serve(w))
    ensures OrderInv(DoServe(s, w))
  {
    if s.workers[w].Getting? {
      TakesOldest(s.taken, s.queue);
    }
    NoneAccepted(s, DoServe(s, w));
  }

  lemma TakesOldest(taken: seq<nat>, queue: seq<Entry>)
    requires queue != []
    ensures (taken + IdOf(queue[0])) + Ids(queue[1..]) == taken + Ids(queue)
  {
    assert (taken + IdOf(queue[0])) + Ids(queue[1..]) == taken + (IdOf(queue[0]) + Ids(queue[1..]));
  }

  lemma OrderKept(s: State, a: Action)
    requires OrderInv(s) && Enabled(s, a)
    ensures OrderInv(Do(s, a))
  {
    match a
    case Submit(t) => SubmitKeepsOrder(s, t);
    case Destroy => DestroyKeepsOrder(s);
    case Serve(w) => ServeKeepsOrder(s, w);
  }

  lemma StepKeepsInv(s: State, s': State)
    requires Inv(s) && Step(s, s')
    ensures Inv(s')
  {
    var a :| Enabled(s, a) && s' == Do(s, a);
    ControlKept(s, a);
    OrderKept(s, a);
    match a {
      case Submit(t) => SubmitKeepsQueue(s, t);
      case Destroy => DestroyKeepsQueue(s);
      case Serve(w) => ServeKeepsQueue(s, w);
    }
    forall id: nat ensures Occurrences(s', id) == if Accepted(s', id) then 1 else 0 {
      match a
      case Submit(t) => SubmitKeepsItem(s, t, id);
      case Destroy => DestroyKeepsItem(s, id);
      case Serve(w) => ServeKeepsItem(s, w, id);
    }
  }

  lemma RunInv(run: seq<State>, k: nat)
    requires IsRun(Init, Step, run) && k < |run|
    ensures Inv(run[k])
  {
    forall s | Init(s) ensures Inv(s) { InitInv(s); }
    forall s, s' | Inv(s) && Step(s, s') ensures Inv(s') { StepKeepsInv(s, s'); }
    Always(Init, Step, Inv, run, k);
  }

  function SubmitterWork(p: Submitter): nat {
    match p
    case Entering => 7
    case Locking => 6
    case Checking => 5
    case Putting => 4
    case Unlocking(_) => 1
    case Returned(_) => 0
  }

  function WorkerWork(w: Worker): nat { if w.Running? then 1 else 0 }

  function EntryWork(e: Entry): nat { if e.Work? then 2 else 1 }

  function DestroyerWork(d: Destroyer, n: nat): int {
    match d
    case Starting => 3 * n + 5
    case WantsLock => 3 * n + 4
    case Pilling(i) => 2 * (n - i) + n + 3
    case Releasing => n + 2
    case Joining(j) => n + 1 - j
    case Ended => 0
  }

  function Rank(s: State): nat {
    var d := DestroyerWork(s.destroyer, |s.workers|);
    Sum(s.submitters, SubmitterWork) + Sum(s.workers, WorkerWork) + Sum(s.queue, EntryWork)
    + if d < 0 then 0 else d
  }

  lemma SubmitLowersRank(s: State, t: nat)
    requires Enabled(s, Submit(t))
    ensures Rank(DoSubmit(s, t)) < Rank(s)
  {
    SumUpdate(s.submitters, t, DoSubmit(s, t).submitters[t], SubmitterWork);
    SumPush(s.queue, Work(t), EntryWork);
  }

  lemma DestroyLowersRank(s: State)
    requires ControlInv(s) && Enabled(s, Destroy)
    ensures Rank(DoDestroy(s)) < Rank(s)
  {
    SumPush(s.queue, Pill, EntryWork);
  }

  lemma ServeLowersRank(s: State, w: nat)
    requires Enabled(s, Serve(w))
    ensures Rank(DoServe(s, w)) < Rank(s)
  {
    SumUpdate(s.workers, w, DoServe(s, w).workers[w], WorkerWork);
    if s.queue != [] {
      SumPop(s.queue, EntryWork);
    }
  }

  /** Every action is progress, so no run is infinite. */
  lemma StepLowersRank(s: State, s': State)
    requires Inv(s) && Step(s, s')
    ensures Rank(s') < Rank(s)
  {
    var a :| Enabled(s, a) && s' == Do(s, a);
    match a
    case Submit(t) => SubmitLowersRank(s, t);
    case Destroy => DestroyLowersRank(s);
    case Serve(w) => ServeLowersRank(s, w);
  }

  predicate AllEnded(s: State) {
    && s.destroyer.Ended?
    && (forall t :: 0 <= t < |s.submitters| ==> s.submitters[t].Returned?)
    && (forall w :: 0 <= w < |s.workers| ==> s.workers[w].Stopped?)
  }

  /** A worker that has not stopped has a pill or a work item coming. */
  lemma ServedWhileJoining(s: State, w: nat)
    requires QueueInv(s) && w < |s.workers| && !s.workers[w].Stopped?
    requires PillsPut(s.destroyer, |s.workers|) == |s.workers|
    ensures Enabled(s, Serve(w))
  {
    CountUpdate(s.workers, w, Stopped, IsStopped);
    CountMost(s.workers[w := Stopped], IsStopped);
  }

  /** Some thread can act until all have ended: neither the joins nor any get waits for ever. */
  lemma NeverStuck(s: State)
    requires Inv(s) && !AllEnded(s)
    ensures exists a :: Enabled(s, a)
  {
    if t :| 0 <= t < |s.submitters| && !s.submitters[t].Returned? && !s.submitters[t].Locking? {
      assert Enabled(s, Submit(t));
    } else if s.lock.ByDestroyer? || s.destroyer.Starting? || s.destroyer.WantsLock? {
      assert Enabled(s, Destroy);
    } else if t :| 0 <= t < |s.submitters| && s.submitters[t].Locking? {
      assert Enabled(s, Submit(t));
    } else if s.destroyer.Joining? && s.destroyer.j < |s.workers| && !s.workers[s.destroyer.j].Stopped? {
      ServedWhileJoining(s, s.destroyer.j);
    } else {
      assert Enabled(s, Destroy);
    }
  }

  /** When tp_destroy has joined the workers: the queue is empty, each worker has taken exactly one
      pill, and the items that have run are exactly the accepted ones, each once. */
  lemma DrainedWhenEnded(s: State)
    requires Inv(s) && s.destroyer.Ended?
    ensures s.queue == [] && Count(s.workers, IsStopped) == |s.workers|
    ensures forall id: nat :: Count(s.ran, Is(id)) == if Accepted(s, id) then 1 else 0
  {
    CountMost(s.workers, IsStopped);
    CountMost(s.queue, IsPill);
    forall id: nat ensures Count(s.ran, Is(id)) == if Accepted(s, id) then 1 else 0 {
      CountNone(s.workers, IsRunning(id));
      assert Occurrences(s, id) == Count(s.ran, Is(id));
    }
  }

  /** Once tp_destroy has begun, a tp_submit that is only entering returns at once without the lock. */
  lemma TurnedDownAtOnce(s: State, t: nat)
    requires ControlInv(s) && t < |s.submitters| && s.submitters[t].Entering? && !s.destroyer.Starting?
    ensures Enabled(s, Submit(t)) && Do(s, Submit(t)) == s.(submitters := s.submitters[t := Returned(false)])
  {
  }

  /** The joins hold no lock: a submitter that wants it waits for no one but other submitters, who can
      all go on. */
  lemma JoinsHoldNoLock(s: State, t: nat)
    requires ControlInv(s) && s.destroyer.Joining? && t < |s.submitters| && !s.submitters[t].Returned?
    ensures Enabled(s, Submit(t)) || (s.lock.BySubmitter? && Enabled(s, Submit(s.lock.thread)))
  {
  }

  /** Before tp_destroy begins nothing is turned down. */
  lemma ReturnedAccepted(s: State)
    requires ControlInv(s) && ItemsInv(s)
    ensures forall t: nat :: Rejected(s, t) ==> !s.destroyer.Starting?
    ensures s.destroyer.Starting? ==> forall t :: 0 <= t < |s.submitters| && s.submitters[t].Returned? ==>
              Accepted(s, t) && Occurrences(s, t) == 1
  {
    forall t: nat | s.destroyer.Starting? && t < |s.submitters| && s.submitters[t].Returned?
      ensures Accepted(s, t)
    {
      assert !IsRejected(s.submitters[t]);
    }
  }

  lemma RunBounded(run: seq<State>)
    requires IsRun(Init, Step, run)
    ensures |run| <= Rank(run[0]) + 1
  {
    forall s | Init(s) ensures Inv(s) { InitInv(s); }
    forall s, s' | Inv(s) && Step(s, s') ensures Inv(s') && Rank(s') < Rank(s) {
      StepKeepsInv(s, s');
      StepLowersRank(s, s');
    }
    Bounded(Init, Step, Inv, Rank, run, |run| - 1);
  }

  /** Every run: no item is behind a pill and none is lost or run twice, at any time; the pills put are
      those still queued and one for each worker that has stopped; items are taken in the order in which
      they were accepted; a submission is turned down only once tp_destroy has begun, so before that
      every submission that has returned was accepted, and its item is in exactly one place; the run is
      finite; when no thread can act any more all have ended; and when tp_destroy returns the pool is drained. */
  lemma PoolCorrect(run: seq<State>)
    requires IsRun(Init, Step, run)
    ensures |run| <= Rank(run[0]) + 1
    ensures var s := run[|run| - 1];
            && PillsLast(s.queue)
            && Count(s.queue, IsPill) + Count(s.workers, IsStopped) == PillsPut(s.destroyer, |s.workers|)
            && (forall id: nat :: Occurrences(s, id) == if Accepted(s, id) then 1 else 0)
            && s.accepted == s.taken + Ids(s.queue)
            && (forall t: nat :: Rejected(s, t) ==> !s.destroyer.Starting?)
            && (s.destroyer.Starting? ==> forall t :: 0 <= t < |s.submitters| && s.submitters[t].Returned? ==>
                  Accepted(s, t) && Occurrences(s, t) == 1)
            && ((forall a :: !Enabled(s, a)) ==> AllEnded(s))
            && (s.destroyer.Ended? ==>
                  && s.queue == [] && Count(s.workers, IsStopped) == |s.workers|
                  && forall id: nat :: Count(s.ran, Is(id)) == if Accepted(s, id) then 1 else 0)
  {
    var k := |run| - 1;
    RunInv(run, k);
    ReturnedAccepted(run[k]);
    if !AllEnded(run[k]) {
      NeverStuck(run[k]);
    }
    if run[k].destroyer.Ended? {
      DrainedWhenEnded(run[k]);
    }
    RunBounded(run);
  }
}
