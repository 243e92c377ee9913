/** The pill-driven thread pool (aula-05-13a/tpool.c) on top of its real queue (aula-05-13a/queue.c):
    every queue_put and queue_get is the monitor's whole protocol of locking, waiting, signalling and
    waking for no reason, and any thread may run between any two of its steps.
    The pool's own state moves at the step of a queue call that changes the list. */
module MonitoredPool {
  import opened Runs
  import D = PoolDrain
  import M = ChannelMonitor

  datatype State = State(pool: D.State, q: M.State<D.Entry>)

  /** Threads are numbered workers first, then submitters, then the one destroyer. A thread is known
      in the pool by the action it performs there. */
  function ThreadOf(p: D.State, u: nat): D.Action {
    if u < |p.workers| then D.Serve(u)
    else if u < |p.workers| + |p.submitters| then D.Submit(u - |p.workers|)
    else D.Destroy
  }

  function NumberOf(p: D.State, a: D.Action): nat {
    match a
    case Serve(w) => w
    case Submit(t) => |p.workers| + t
    case Destroy => |p.workers| + |p.submitters|
  }

  function ThreadCount(p: D.State): nat { |p.workers| + |p.submitters| + 1 }

  /** The thread has come to a call of queue_put. */
  predicate AtPut(p: D.State, a: D.Action) {
    match a
    case Submit(t) => t < |p.submitters| && p.submitters[t].Putting?
    case Destroy => p.destroyer.Pilling? && p.destroyer.i < |p.workers|
    case Serve(_) => false
  }

  /** The thread has come to a call of queue_get. */
  predicate AtGet(p: D.State, a: D.Action) {
    a.Serve? && a.worker < |p.workers| && p.workers[a.worker].Getting?
  }

  function Item(a: D.Action): D.Entry {
    if a.Submit? then D.Work(a.thread) else D.Pill
  }

  datatype Action =
    | Call(u: nat)                      // enter queue_put or queue_get
    | Queue(move: M.Action<D.Entry>)    // a step inside a queue call, or a wakeup for no reason
    | Other(a: D.Action)                // any other atomic operation of the pool

  /** The step changes the list. */
  predicate TakesEffect(q: M.State<D.Entry>, a: M.Action<D.Entry>) {
    a.Go? && a.t < |q.pcs| && (q.pcs[a.t].PutChecking? || (q.pcs[a.t].GetChecking? && q.queue != []))
  }

  predicate Enabled(s: State, a: Action) {
    match a
    case Call(u) =>
      && u < |s.q.pcs| && s.q.pcs[u].Idle?
      && (AtPut(s.pool, ThreadOf(s.pool, u)) || AtGet(s.pool, ThreadOf(s.pool, u)))
    case Queue(move) => (move.Go? || move.Spurious?) && M.Enabled(s.q, move)
    case Other(a) =>
      && D.Enabled(s.pool, a) && !AtPut(s.pool, a) && !AtGet(s.pool, a)
      && NumberOf(s.pool, a) < |s.q.pcs| && s.q.pcs[NumberOf(s.pool, a)].Idle?
      // a join waits until the worker has left queue_get for good
      && (a.Destroy? && s.pool.destroyer.Joining? && s.pool.destroyer.j < |s.pool.workers| ==>
            s.pool.destroyer.j < |s.q.pcs| && s.q.pcs[s.pool.destroyer.j].Idle?)
  }

  function CallOf(p: D.State, u: nat): M.Action<D.Entry> {
    var a := ThreadOf(p, u);
    if AtGet(p, a) then M.StartGet(u) else M.StartPut(u, Item(a))
  }

  function Do(s: State, a: Action): State
    requires Enabled(s, a)
  {
    match a
    case Call(u) => s.(q := M.Do(s.q, CallOf(s.pool, u)))
    case Queue(move) =>
      var thread := ThreadOf(s.pool, move.t);
      State(if TakesEffect(s.q, move) && D.Enabled(s.pool, thread) then D.Do(s.pool, thread) else s.pool,
            M.Do(s.q, move))
    case Other(a) => s.(pool := D.Do(s.pool, a))
  }

  ghost predicate Init(s: State) {
    && D.Init(s.pool) && M.Init(s.q)
    && s.q.capacity.Unbounded? && s.q.signalFirst && |s.q.pcs| == ThreadCount(s.pool)
  }

  ghost predicate Step(s: State, s': State) {
    exists a :: Enabled(s, a) && s' == Do(s, a)
  }

  /** Where a thread is in its queue call agrees with where the pool has it. */
  predicate Tied(p: D.State, u: nat, pc: M.PC<D.Entry>) {
    var a := ThreadOf(p, u);
    match pc
    case Idle => true
    case PutWantsLock(v) => AtPut(p, a) && v == Item(a)
    case PutChecking(v) => AtPut(p, a) && v == Item(a)
    case PutDone => !a.Serve?
    case Unlocking => !a.Serve?
    case GetWantsLock => AtGet(p, a)
    case GetChecking => AtGet(p, a)
    case GetWaiting => AtGet(p, a)
    case GetWoken => AtGet(p, a)
    case GetDone => a.Serve? && !AtGet(p, a)
    case _ => false  // nobody waits for space, and signals come before the unlocking
  }

  ghost predicate Linked(s: State) {
    && s.q.capacity.Unbounded? && s.q.signalFirst && |s.q.pcs| == ThreadCount(s.pool)
    && s.q.queue == s.pool.queue
    && forall u :: 0 <= u < |s.q.pcs| ==> Tied(s.pool, u, s.q.pcs[u])
  }

  ghost predicate Inv(s: State) {
    D.Inv(s.pool) && M.Inv(s.q) && Linked(s)
  }

  lemma InitInv(s: State)
    requires Init(s)
    ensures Inv(s)
  {
    D.InitInv(s.pool);
    M.InitInv(s.q);
  }

  /** An action of one thread leaves every other thread where it is. */
  lemma OthersStay(p: D.State, a: D.Action, u: nat, pc: M.PC<D.Entry>)
    requires D.Enabled(p, a) && ThreadOf(p, u) != a && Tied(p, u, pc)
    ensures Tied(D.Do(p, a), u, pc)
  {
  }

  lemma NumbersAgree(p: D.State, u: nat)
    requires u < ThreadCount(p)
    ensures NumberOf(p, ThreadOf(p, u)) == u
  {
  }

  /** At the step that changes the list the pool's own action is possible and changes it the same way. */
  lemma EffectMatches(s: State, move: M.Action<D.Entry>)
    requires Linked(s) && M.Enabled(s.q, move) && TakesEffect(s.q, move)
    ensures var a := ThreadOf(s.pool, move.t);
            D.Enabled(s.pool, a) && D.Do(s.pool, a).queue == M.Do(s.q, move).queue
  {
  }

  lemma SizesKept(p: D.State, a: D.Action)
    requires D.Enabled(p, a)
    ensures |D.Do(p, a).workers| == |p.workers| && |D.Do(p, a).submitters| == |p.submitters|
    ensures forall u: nat :: ThreadOf(D.Do(p, a), u) == ThreadOf(p, u)
  {
  }

  lemma CallKeepsLink(s: State, u: nat)
    requires Linked(s) && Enabled(s, Call(u))
    ensures Linked(Do(s, Call(u)))
  {
  }

  lemma QueueKeepsLink(s: State, move: M.Action<D.Entry>)
    requires Linked(s) && Enabled(s, Queue(move))
    ensures Linked(Do(s, Queue(move)))
  {
    var s' := Do(s, Queue(move));
    if TakesEffect(s.q, move) {
      var a := ThreadOf(s.pool, move.t);
      EffectMatches(s, move);
      SizesKept(s.pool, a);
      forall u: nat | u < |s.q.pcs| ensures Tied(s'.pool, u, s'.q.pcs[u]) {
        if u != move.t {
          NumbersAgree(s.pool, u);
          NumbersAgree(s.pool, move.t);
          OthersStay(s.pool, a, u, s.q.pcs[u]);
        }
      }
    }
  }

  lemma OtherKeepsLink(s: State, a: D.Action)
    requires Linked(s) && Enabled(s, Other(a))
    ensures Linked(Do(s, Other(a)))
  {
    var s' := Do(s, Other(a));
    SizesKept(s.pool, a);
    forall u: nat | u < |s.q.pcs| ensures Tied(s'.pool, u, s'.q.pcs[u]) {
      NumbersAgree(s.pool, u);
      if ThreadOf(s.pool, u) != a {
        OthersStay(s.pool, a, u, s.q.pcs[u]);
      }
    }
  }

  /** Seen from the pool, a step is one of its own or nothing; seen from the queue, the same. */
  lemma StepProjects(s: State, s': State)
    requires Linked(s) && Step(s, s')
    ensures Linked(s')
    ensures s'.pool == s.pool || D.Step(s.pool, s'.pool)
    ensures s'.q == s.q || M.Step(s.q, s'.q)
  {
    var a :| Enabled(s, a) && s' == Do(s, a);
    match a
    case Call(u) =>
      CallKeepsLink(s, u);
      assert M.Enabled(s.q, CallOf(s.pool, u));
    case Queue(move) =>
      QueueKeepsLink(s, move);
      assert M.Enabled(s.q, move);
    case Other(b) =>
      OtherKeepsLink(s, b);
      assert D.Enabled(s.pool, b);
  }

  lemma StepKeepsInv(s: State, s': State)
    requires Inv(s) && Step(s, s')
    ensures Inv(s')
  {
    StepProjects(s, s');
    if s'.pool != s.pool {
      D.StepKeepsInv(s.pool, s'.pool);
    }
    if s'.q != s.q {
      M.StepKeepsInv(s.q, s'.q);
    }
  }

  lemma RunInv(run: seq<State>, k: nat)
    requires IsRun(Init, Step, run) && k < |run|
    ensures Inv(run[k])
  {
    forall s | Init(s) ensures Inv(s) { InitInv(s); }
    forall s, s' | Inv(s) && Step(s, s') ensures Inv(s') { StepKeepsInv(s, s'); }
    Always(Init, Step, Inv, run, k);
  }

  /** All has ended: every thread of the pool, and every queue call. */
  predicate Over(s: State) {
    D.AllEnded(s.pool) && forall u :: 0 <= u < |s.q.pcs| ==> s.q.pcs[u].Idle?
  }

  predicate Resting(pc: M.PC<D.Entry>) { pc.Idle? || pc.GetWaiting? }

  /** When all threads are outside the queue or asleep in it, they sleep on an empty queue. */
  lemma SleepOnlyOnEmpty(q: M.State<D.Entry>, u: nat)
    requires M.Inv(q) && forall v :: 0 <= v < |q.pcs| ==> Resting(q.pcs[v])
    requires u < |q.pcs| && q.pcs[u].GetWaiting?
    ensures q.queue == []
  {
    CountAtLeast(q.pcs, u, M.IsGetWaiting);
    CountNone(q.pcs, M.GetterAlert);
    CountNone(q.pcs, M.OwesItemSignal);
  }

  /** An action that the pool allows can be begun when no thread is inside the queue's code. */
  lemma PoolActionBegins(s: State, a: D.Action)
    requires Inv(s) && D.Enabled(s.pool, a)
    requires forall v :: 0 <= v < |s.q.pcs| ==> Resting(s.q.pcs[v])
    ensures exists b :: Enabled(s, b) && !b.Queue?
  {
    var u := NumberOf(s.pool, a);
    assert ThreadOf(s.pool, u) == a;
    if s.q.pcs[u].GetWaiting? {
      SleepOnlyOnEmpty(s.q, u);
      assert false;
    } else if AtPut(s.pool, a) || AtGet(s.pool, a) {
      assert Enabled(s, Call(u));
    } else {
      if a.Destroy? && s.pool.destroyer.Joining? && s.pool.destroyer.j < |s.pool.workers| {
        var j := s.pool.destroyer.j;
        assert Tied(s.pool, j, s.q.pcs[j]) && !AtGet(s.pool, D.Serve(j));
      }
      assert Enabled(s, Other(a));
    }
  }

  lemma EndedIsOver(s: State)
    requires Linked(s) && forall v :: 0 <= v < |s.q.pcs| ==> Resting(s.q.pcs[v])
    ensures D.AllEnded(s.pool) ==> Over(s)
  {
    forall u | D.AllEnded(s.pool) && 0 <= u < |s.q.pcs| ensures s.q.pcs[u].Idle? {
      assert Tied(s.pool, u, s.q.pcs[u]);
    }
  }

  /** Some thread can act, without waking for no reason, until all has ended: no signal of the queue is
      lost, whoever it is that waits. */
  lemma NeverStuck(s: State)
    requires Inv(s) && !Over(s)
    ensures exists a :: Enabled(s, a) && !(a.Queue? && a.move.Spurious?)
  {
    if u :| 0 <= u < |s.q.pcs| && !Resting(s.q.pcs[u]) {
      assert Tied(s.pool, u, s.q.pcs[u]);
      M.SomeoneActs(s.q, u);
      var v, w :| M.Enabled(s.q, M.Go(v, w));
      assert Enabled(s, Queue(M.Go(v, w)));
    } else {
      EndedIsOver(s);
      D.NeverStuck(s.pool);
      var a :| D.Enabled(s.pool, a);
      PoolActionBegins(s, a);
    }
  }

  // ----- progress ---------------------------------------------------------------------------------

  /** What a thread still has to do in the queue call it is in, or has come to. A getter that is woken
      for nothing goes from 1 back to 4; a putter's signal pays for waking one. */
  function Weight(p: D.State, u: nat, pc: M.PC<D.Entry>): nat {
    var ahead := if AtPut(p, ThreadOf(p, u)) then 8 else if AtGet(p, ThreadOf(p, u)) then 5 else 0;
    match pc
    case Idle => ahead
    case PutWantsLock(_) => 7
    case PutChecking(_) => 6
    case PutDone => 6 + ahead
    case Unlocking => 2 + ahead
    case GetWantsLock => 4
    case GetChecking => 3
    case GetWaiting => 1
    case GetWoken => 4
    case GetDone => 1 + ahead
    case _ => 0
  }

  function Weights(p: D.State, pcs: seq<M.PC<D.Entry>>): (r: seq<nat>)
    ensures |r| == |pcs|
    ensures forall u :: 0 <= u < |r| ==> r[u] == Weight(p, u, pcs[u])
  {
    seq(|pcs|, u requires 0 <= u < |pcs| => Weight(p, u, pcs[u]))
  }

  function Same(n: nat): nat { n }

  function InQueue(p: D.State, pcs: seq<M.PC<D.Entry>>): nat {
    Sum(Weights(p, pcs), Same)
  }

  /** Work left to do. */
  function Remaining(s: State): nat {
    20 * D.Rank(s.pool) + InQueue(s.pool, s.q.pcs)
  }

  /** One thread moves. */
  lemma OneMoves(p: D.State, pcs: seq<M.PC<D.Entry>>, u: nat, pc: M.PC<D.Entry>)
    requires u < |pcs|
    ensures InQueue(p, pcs[u := pc]) + Weight(p, u, pcs[u]) == InQueue(p, pcs) + Weight(p, u, pc)
  {
    assert Weights(p, pcs[u := pc]) == Weights(p, pcs)[u := Weight(p, u, pc)];
    SumUpdate(Weights(p, pcs), u, Weight(p, u, pc), Same);
  }

  /** One thread moves, in the pool and in the queue. */
  lemma PoolMoves(p: D.State, a: D.Action, pcs: seq<M.PC<D.Entry>>, u: nat, pc: M.PC<D.Entry>)
    requires D.Enabled(p, a) && u < |pcs| == ThreadCount(p) && ThreadOf(p, u) == a
    ensures InQueue(D.Do(p, a), pcs[u := pc]) + Weight(p, u, pcs[u]) == InQueue(p, pcs) + Weight(D.Do(p, a), u, pc)
  {
    var p', x := D.Do(p, a), Weight(D.Do(p, a), u, pc);
    forall v: nat | v < |pcs| && v != u ensures Weight(p', v, pcs[v]) == Weight(p, v, pcs[v]) {
      NumbersAgree(p, u);
      NumbersAgree(p, v);
      OthersWeigh(p, a, v, pcs[v]);
    }
    assert Weights(p', pcs[u := pc]) == Weights(p, pcs)[u := x];
    SumUpdate(Weights(p, pcs), u, x, Same);
  }

  lemma OthersWeigh(p: D.State, a: D.Action, u: nat, pc: M.PC<D.Entry>)
    requires D.Enabled(p, a) && ThreadOf(p, u) != a
    ensures Weight(D.Do(p, a), u, pc) == Weight(p, u, pc)
  {
  }

  lemma CallIsProgress(s: State, u: nat)
    requires Enabled(s, Call(u))
    ensures Remaining(Do(s, Call(u))) < Remaining(s)
  {
    OneMoves(s.pool, s.q.pcs, u, Do(s, Call(u)).q.pcs[u]);
  }

  lemma RankFalls(p: D.State, a: D.Action)
    requires D.Inv(p) && D.Enabled(p, a)
    ensures D.Rank(D.Do(p, a)) < D.Rank(p)
  {
    assert D.Step(p, D.Do(p, a));
    D.StepLowersRank(p, D.Do(p, a));
  }

  lemma OtherIsProgress(s: State, a: D.Action)
    requires Inv(s) && Enabled(s, Other(a))
    ensures Remaining(Do(s, Other(a))) < Remaining(s)
  {
    var u := NumberOf(s.pool, a);
    RankFalls(s.pool, a);
    PoolMoves(s.pool, a, s.q.pcs, u, s.q.pcs[u]);
    assert s.q.pcs[u := s.q.pcs[u]] == s.q.pcs;
  }

  lemma EffectShape(s: State, move: M.Action<D.Entry>)
    requires Linked(s) && Enabled(s, Queue(move)) && TakesEffect(s.q, move)
    ensures var s', a, pc := Do(s, Queue(move)), ThreadOf(s.pool, move.t), EffectMoves(s.q, move);
            && D.Enabled(s.pool, a) && s'.pool == D.Do(s.pool, a) && s'.q.pcs == s.q.pcs[move.t := pc]
            && Weight(s'.pool, move.t, pc) <= Weight(s.pool, move.t, s.q.pcs[move.t]) + 8
  {
    EffectMatches(s, move);
  }

  /** The step that changes the list is a step of the pool. */
  lemma EffectIsProgress(s: State, move: M.Action<D.Entry>)
    requires Linked(s) && D.Inv(s.pool) && Enabled(s, Queue(move)) && TakesEffect(s.q, move)
    ensures Remaining(Do(s, Queue(move))) < Remaining(s)
  {
    var a := ThreadOf(s.pool, move.t);
    EffectShape(s, move);
    RankFalls(s.pool, a);
    PoolMoves(s.pool, a, s.q.pcs, move.t, EffectMoves(s.q, move));
  }

  /** Where the step that changes the list leaves its thread. */
  function EffectMoves(q: M.State<D.Entry>, move: M.Action<D.Entry>): M.PC<D.Entry>
    requires TakesEffect(q, move)
  {
    if q.pcs[move.t].PutChecking? then M.PutDone else M.GetDone
  }

  /** The signal of a put, which may wake a getter. */
  lemma SignalIsProgress(s: State, t: nat, w: nat)
    requires Linked(s) && Enabled(s, Queue(M.Go(t, w))) && s.q.pcs[t].PutDone?
    ensures Remaining(Do(s, Queue(M.Go(t, w)))) < Remaining(s)
  {
    var mid := s.q.pcs[t := M.Unlocking];
    OneMoves(s.pool, s.q.pcs, t, M.Unlocking);
    if w < |mid| && mid[w].GetWaiting? {
      OneMoves(s.pool, mid, w, M.GetWoken);
    }
    assert Do(s, Queue(M.Go(t, w))).q.pcs == M.WakeGetter(mid, w);
  }

  /** Any other step inside the queue: taking or giving up the lock, going to sleep. */
  lemma InnerIsProgress(s: State, t: nat, w: nat)
    requires Linked(s) && Enabled(s, Queue(M.Go(t, w))) && !TakesEffect(s.q, M.Go(t, w)) && !s.q.pcs[t].PutDone?
    ensures Remaining(Do(s, Queue(M.Go(t, w)))) < Remaining(s)
  {
    assert Tied(s.pool, t, s.q.pcs[t]);
    OneMoves(s.pool, s.q.pcs, t, InnerMoves(s.q.pcs[t]));
    assert Do(s, Queue(M.Go(t, w))).q.pcs == s.q.pcs[t := InnerMoves(s.q.pcs[t])];
  }

  function InnerMoves(pc: M.PC<D.Entry>): M.PC<D.Entry> {
    match pc
    case PutWantsLock(v) => M.PutChecking(v)
    case GetWantsLock => M.GetChecking
    case GetWoken => M.GetChecking
    case GetChecking => M.GetWaiting
    case _ => M.Idle
  }

  lemma SpuriousCosts(s: State, t: nat)
    requires Linked(s) && Enabled(s, Queue(M.Spurious(t)))
    ensures Remaining(Do(s, Queue(M.Spurious(t)))) == Remaining(s) + 3
  {
    assert Tied(s.pool, t, s.q.pcs[t]);
    OneMoves(s.pool, s.q.pcs, t, M.GetWoken);
  }

  /** Every action but waking for no reason is progress, and that costs three steps: shutdown ends
      unless threads are woken for no reason infinitely often. */
  lemma EveryActionIsProgress(s: State, a: Action)
    requires Inv(s) && Enabled(s, a)
    ensures if a.Queue? && a.move.Spurious? then Remaining(Do(s, a)) == Remaining(s) + 3
            else Remaining(Do(s, a)) < Remaining(s)
  {
    match a
    case Call(u) => CallIsProgress(s, u);
    case Other(b) => OtherIsProgress(s, b);
    case Queue(move) =>
      if TakesEffect(s.q, move) {
        EffectIsProgress(s, move);
      } else if move.Spurious? {
        SpuriousCosts(s, move.t);
      } else if s.q.pcs[move.t].PutDone? {
        SignalIsProgress(s, move.t, move.woken);
      } else {
        InnerIsProgress(s, move.t, move.woken);
      }
  }

  ghost predicate Acts(s: State, a: Action, s': State) {
    Enabled(s, a) && s' == Do(s, a)
  }

  predicate ForNoReason(a: Action) { a.Queue? && a.move.Spurious? }

  lemma ActionPays(s: State, a: Action, s': State)
    requires Inv(s) && Acts(s, a, s')
    ensures Inv(s') && 0 <= Left(s) && Left(s') <= Left(s) + if ForNoReason(a) then 3 else -1
  {
    assert Step(s, s');
    StepKeepsInv(s, s');
    EveryActionIsProgress(s, a);
  }

  function Left(s: State): int { Remaining(s) }

  lemma LeftNonNegative(s: State)
    ensures Left(s) >= 0
  {
  }

  /** Over a whole run from the start: the actions, but for wakeups for no reason, are no more than a
      bound fixed at the start and three for each such wakeup. */
  lemma RunsEnd(run: seq<State>, actions: seq<Action>)
    requires IsRun(Init, Step, run) && Performs(Acts, run, actions)
    ensures |actions| - Count(actions, ForNoReason) <= Remaining(run[0]) + 3 * Count(actions, ForNoReason)
  {
    InitInv(run[0]);
    forall s | Inv(s) ensures Left(s) >= 0 { LeftNonNegative(s); }
    forall s, a, s' | Inv(s) && Acts(s, a, s')
      ensures Inv(s') && Left(s') <= Left(s) + if ForNoReason(a) then 3 else -1
    {
      ActionPays(s, a, s');
    }
    Budget(Acts, Inv, Left, ForNoReason, 3, run, actions);
    LeftNonNegative(run[|run| - 1]);
  }

  /** The pool over its real queue, in every run: what the pool guarantees over a queue whose calls are
      single actions it guarantees here, no item is behind a pill, none is lost or run twice, and
      when the workers are joined the list is empty and the accepted items have run, each once; and a
      state in which threads can do no more than wake for no reason is one in which all has ended. */
  lemma PoolCorrect(run: seq<State>)
    requires IsRun(Init, Step, run)
    ensures var s := run[|run| - 1];
            && s.q.queue == s.pool.queue && D.PillsLast(s.q.queue)
            && (forall id: nat :: D.Occurrences(s.pool, id) == if D.Accepted(s.pool, id) then 1 else 0)
            && s.pool.accepted == s.pool.taken + D.Ids(s.q.queue)
            && (forall t: nat :: D.Rejected(s.pool, t) ==> !s.pool.destroyer.Starting?)
            && (s.pool.destroyer.Starting? ==>
                  forall t :: 0 <= t < |s.pool.submitters| && s.pool.submitters[t].Returned? ==>
                    D.Accepted(s.pool, t) && D.Occurrences(s.pool, t) == 1)
            && ((forall a :: Enabled(s, a) ==> a.Queue? && a.move.Spurious?) ==> Over(s))
            && (s.pool.destroyer.Ended? ==>
                  && s.q.queue == [] && Count(s.pool.workers, D.IsStopped) == |s.pool.workers|
                  && forall id: nat :: Count(s.pool.ran, D.Is(id)) == if D.Accepted(s.pool, id) then 1 else 0)
  {
    var s := run[|run| - 1];
    RunInv(run, |run| - 1);
    D.ReturnedAccepted(s.pool);
    if !Over(s) {
      NeverStuck(s);
    }
    if s.pool.destroyer.Ended? {
      D.DrainedWhenEnded(s.pool);
    }
  }
}
