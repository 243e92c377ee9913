/** The bounded queue built from two semaphores (tests/queue.c), used by any number of user threads.
    A call has two atomic parts, split where sem_wait may give up the processor: asking for a unit,
    and, once the unit is granted, touching the list and posting the other semaphore. A thread that
    a post has woken owns its unit although it has not resumed yet: it is "granted". */
module BoundedQueues {
  import opened Semaphores
  import opened NodeQueues
  import opened Runs

  datatype Queue<T> = Queue(list: seq<T>, hasItems: Sem, hasSpace: Sem)

  function Created<T>(size: int): Queue<T> {
    Queue([], Sem(0, size, []), Sem(size, size, []))
  }

  function AskSpace<T>(q: Queue<T>, thread: nat): Queue<T> {
    q.(hasSpace := AfterWait(q.hasSpace, Request(thread, 1)))
  }

  function Insert<T>(q: Queue<T>, item: T): Queue<T> {
    q.(list := q.list + [item], hasItems := AfterPost(q.hasItems, 1))
  }

  function AskItem<T>(q: Queue<T>, thread: nat): Queue<T> {
    q.(hasItems := AfterWait(q.hasItems, Request(thread, 1)))
  }

  function Remove<T>(q: Queue<T>): Queue<T>
    requires q.list != []
  {
    q.(list := q.list[1..], hasSpace := AfterPost(q.hasSpace, 1))
  }

  /** A semaphore that is only ever asked for single units and has nobody waiting in vain. */
  ghost predicate UnitSem(s: Sem, size: int) {
    && 0 <= s.units <= s.limit == size
    && (forall i :: 0 <= i < |s.waiters| ==> s.waiters[i].units == 1)
    && (s.waiters != [] ==> s.units == 0)
  }

  /** A post below the limit discards nothing: it wakes exactly the head waiter or adds one unit. */
  lemma UnitPost(s: Sem, size: int)
    requires UnitSem(s, size) && s.units < size
    ensures UnitSem(AfterPost(s, 1), size)
    ensures if s.waiters == []
            then Woken(s, 1) == [] && AfterPost(s, 1) == s.(units := s.units + 1)
            else Woken(s, 1) == [s.waiters[0]] && AfterPost(s, 1) == s.(waiters := s.waiters[1..])
  {
    if s.waiters != [] {
      var w := s.waiters[0];
      assert Released(0, s.waiters[1..]) == 0;
      assert Woken(s, 1) == [w];
      assert Total([w]) == 1 by {
        assert [w][1..] == [];
      }
    }
  }

  /** The counting invariant of one queue with `getters` threads holding an item and `putters`
      threads holding a space that they have not used yet. */
  ghost predicate Balanced<T>(q: Queue<T>, size: int, getters: nat, putters: nat) {
    && size >= 1
    && UnitSem(q.hasItems, size) && UnitSem(q.hasSpace, size)
    && |q.list| == q.hasItems.units + getters
    && |q.list| + q.hasSpace.units + putters == size
  }

  lemma AskSpaceBalanced<T>(q: Queue<T>, size: int, getters: nat, putters: nat, thread: nat)
    requires Balanced(q, size, getters, putters)
    ensures Balanced(AskSpace(q, thread), size, getters, putters + if Immediate(q.hasSpace, 1) then 1 else 0)
  {
  }

  lemma AskItemBalanced<T>(q: Queue<T>, size: int, getters: nat, putters: nat, thread: nat)
    requires Balanced(q, size, getters, putters)
    ensures Balanced(AskItem(q, thread), size, getters + if Immediate(q.hasItems, 1) then 1 else 0, putters)
  {
  }

  lemma InsertBalanced<T>(q: Queue<T>, size: int, getters: nat, putters: nat, item: T)
    requires Balanced(q, size, getters, putters) && putters > 0
    ensures q.hasItems.units + 1 <= q.hasItems.limit
    ensures Balanced(Insert(q, item), size, getters + |Woken(q.hasItems, 1)|, putters - 1)
  {
    UnitPost(q.hasItems, size);
  }

  lemma RemoveBalanced<T>(q: Queue<T>, size: int, getters: nat, putters: nat)
    requires Balanced(q, size, getters, putters) && getters > 0
    ensures q.list != [] && q.hasSpace.units + 1 <= q.hasSpace.limit
    ensures Balanced(Remove(q), size, getters - 1, putters + |Woken(q.hasSpace, 1)|)
  {
    UnitPost(q.hasSpace, size);
  }

  /** Where a thread stands. */
  datatype PC<T> = Idle | PutParked(item: T) | PutGranted(item: T) | GetParked | GetGranted

  predicate IsPutParked<T>(p: PC<T>) { p.PutParked? }
  predicate IsPutGranted<T>(p: PC<T>) { p.PutGranted? }
  predicate IsGetParked<T>(p: PC<T>) { p.GetParked? }
  predicate IsGetGranted<T>(p: PC<T>) { p.GetGranted? }

  datatype State<T> = State(
    q: Queue<T>,
    size: int,
    pcs: seq<PC<T>>,
    put: seq<T>,  // everything inserted so far, in order
    got: seq<T>)  // everything removed so far, in order

  datatype Action<T> =
    | StartPut(thread: nat, item: T)
    | FinishPut(thread: nat)
    | StartGet(thread: nat)
    | FinishGet(thread: nat)

  predicate Enabled<T>(s: State<T>, a: Action<T>) {
    && a.thread < |s.pcs|
    && match a
       case StartPut(t, _) => s.pcs[t].Idle?
       case FinishPut(t) => s.pcs[t].PutGranted?
       case StartGet(t) => s.pcs[t].Idle?
       case FinishGet(t) => s.pcs[t].GetGranted? && s.q.list != []
  }

  /** The threads that a post has woken become granted. */
  function Grant<T>(pcs: seq<PC<T>>, woken: seq<Request>): (r: seq<PC<T>>)
    ensures |r| == |pcs|
  {
    if woken == [] || woken[0].thread >= |pcs| then pcs
    else
      var t := woken[0].thread;
      match pcs[t]
      case PutParked(v) => pcs[t := PutGranted(v)]
      case GetParked => pcs[t := GetGranted]
      case _ => pcs
  }

  function Do<T>(s: State<T>, a: Action<T>): State<T>
    requires Enabled(s, a)
  {
    match a
    case StartPut(t, v) =>
      s.(q := AskSpace(s.q, t),
         pcs := s.pcs[t := if Immediate(s.q.hasSpace, 1) then PutGranted(v) else PutParked(v)])
    case FinishPut(t) =>
      s.(q := Insert(s.q, s.pcs[t].item),
         pcs := Grant(s.pcs[t := Idle], Woken(s.q.hasItems, 1)),
         put := s.put + [s.pcs[t].item])
    case StartGet(t) =>
      s.(q := AskItem(s.q, t),
         pcs := s.pcs[t := if Immediate(s.q.hasItems, 1) then GetGranted else GetParked])
    case FinishGet(t) =>
      s.(q := Remove(s.q),
         pcs := Grant(s.pcs[t := Idle], Woken(s.q.hasSpace, 1)),
         got := s.got + [s.q.list[0]])
  }

  ghost predicate Init<T>(s: State<T>) {
    && s.size >= 1
    && s.q == Created(s.size)
    && (forall t :: 0 <= t < |s.pcs| ==> s.pcs[t].Idle?)
    && s.put == s.got == []
  }

  ghost predicate Step<T(!new)>(s: State<T>, s': State<T>) {
    exists a :: Enabled(s, a) && s' == Do(s, a)
  }

  /** A wait list holds exactly the threads parked on it, each once. */
  ghost predicate Matches<T>(ws: seq<Request>, pcs: seq<PC<T>>, parked: PC<T> -> bool) {
    && (forall i :: 0 <= i < |ws| ==> ws[i].thread < |pcs| && parked(pcs[ws[i].thread]))
    && (forall i, j :: 0 <= i < j < |ws| ==> ws[i].thread != ws[j].thread)
    && (forall t :: 0 <= t < |pcs| && parked(pcs[t]) ==> exists i :: 0 <= i < |ws| && ws[i].thread == t)
  }

  ghost predicate Inv<T>(s: State<T>) {
    && Balanced(s.q, s.size, Count(s.pcs, IsGetGranted), Count(s.pcs, IsPutGranted))
    && Matches(s.q.hasItems.waiters, s.pcs, IsGetParked)
    && Matches(s.q.hasSpace.waiters, s.pcs, IsPutParked)
    && s.put == s.got + s.q.list
  }

  /** A thread that was not and will not be parked leaves the wait list as it is. */
  lemma MatchesUpdate<T>(ws: seq<Request>, pcs: seq<PC<T>>, parked: PC<T> -> bool, t: nat, p: PC<T>)
    requires t < |pcs| && Matches(ws, pcs, parked) && !parked(pcs[t]) && !parked(p)
    ensures Matches(ws, pcs[t := p], parked)
  {
    var pcs' := pcs[t := p];
    forall u | 0 <= u < |pcs'| && parked(pcs'[u])
      ensures exists i :: 0 <= i < |ws| && ws[i].thread == u
    {
      assert parked(pcs[u]);
    }
  }

  lemma MatchesPark<T>(ws: seq<Request>, pcs: seq<PC<T>>, parked: PC<T> -> bool, t: nat, p: PC<T>, n: int)
    requires t < |pcs| && Matches(ws, pcs, parked) && !parked(pcs[t]) && parked(p)
    ensures Matches(ws + [Request(t, n)], pcs[t := p], parked)
  {
    var ws', pcs' := ws + [Request(t, n)], pcs[t := p];
    assert ws'[|ws|].thread == t;
    forall u | 0 <= u < |pcs'| && parked(pcs'[u])
      ensures exists i :: 0 <= i < |ws'| && ws'[i].thread == u
    {
      if u != t {
        var i :| 0 <= i < |ws| && ws[i].thread == u;
        assert ws'[i].thread == u;
      }
    }
  }

  lemma MatchesWake<T>(ws: seq<Request>, pcs: seq<PC<T>>, parked: PC<T> -> bool, p: PC<T>)
    requires ws != [] && Matches(ws, pcs, parked) && !parked(p)
    ensures Matches(ws[1..], pcs[ws[0].thread := p], parked)
  {
    var ws', pcs' := ws[1..], pcs[ws[0].thread := p];
    forall u | 0 <= u < |pcs'| && parked(pcs'[u])
      ensures exists i :: 0 <= i < |ws'| && ws'[i].thread == u
    {
      var i :| 0 <= i < |ws| && ws[i].thread == u;
      assert ws'[i - 1].thread == u;
    }
  }

  lemma InitInv<T>(s: State<T>)
    requires Init(s)
    ensures Inv(s)
  {
    CountNone(s.pcs, IsGetGranted);
    CountNone(s.pcs, IsPutGranted);
  }

  lemma StartPutKeepsInv<T>(s: State<T>, t: nat, v: T)
    requires Inv(s) && Enabled(s, StartPut(t, v))
    ensures Inv(Do(s, StartPut(t, v)))
  {
    var p := Do(s, StartPut(t, v)).pcs[t];
    CountsMove(s.pcs, t, p);
    MatchesUpdate(s.q.hasItems.waiters, s.pcs, IsGetParked, t, p);
    if p.PutParked? {
      MatchesPark(s.q.hasSpace.waiters, s.pcs, IsPutParked, t, p, 1);
    } else {
      MatchesUpdate(s.q.hasSpace.waiters, s.pcs, IsPutParked, t, p);
    }
  }

  lemma StartGetKeepsInv<T>(s: State<T>, t: nat)
    requires Inv(s) && Enabled(s, StartGet(t))
    ensures Inv(Do(s, StartGet(t)))
  {
    var p := Do(s, StartGet(t)).pcs[t];
    CountsMove(s.pcs, t, p);
    MatchesUpdate(s.q.hasSpace.waiters, s.pcs, IsPutParked, t, p);
    if p.GetParked? {
      MatchesPark(s.q.hasItems.waiters, s.pcs, IsGetParked, t, p, 1);
    } else {
      MatchesUpdate(s.q.hasItems.waiters, s.pcs, IsGetParked, t, p);
    }
  }

  /** Both counts after one thread moves. */
  lemma CountsMove<T>(pcs: seq<PC<T>>, t: nat, p: PC<T>)
    requires t < |pcs|
    ensures Count(pcs[t := p], IsGetGranted)
         == Count(pcs, IsGetGranted) - (if pcs[t].GetGranted? then 1 else 0) + if p.GetGranted? then 1 else 0
    ensures Count(pcs[t := p], IsPutGranted)
         == Count(pcs, IsPutGranted) - (if pcs[t].PutGranted? then 1 else 0) + if p.PutGranted? then 1 else 0
  {
    CountUpdate(pcs, t, p, IsGetGranted);
    CountUpdate(pcs, t, p, IsPutGranted);
  }

  /** Waking the head of the getters' wait list: it leaves the list and holds an item. */
  lemma WakeGetter<T>(items: seq<Request>, space: seq<Request>, pcs: seq<PC<T>>)
    requires items != [] && Matches(items, pcs, IsGetParked) && Matches(space, pcs, IsPutParked)
    ensures var pcs' := Grant(pcs, [items[0]]);
            && Matches(items[1..], pcs', IsGetParked) && Matches(space, pcs', IsPutParked)
            && Count(pcs', IsGetGranted) == Count(pcs, IsGetGranted) + 1
            && Count(pcs', IsPutGranted) == Count(pcs, IsPutGranted)
  {
    var t := items[0].thread;
    assert IsGetParked(pcs[t]);
    CountsMove(pcs, t, GetGranted);
    MatchesWake(items, pcs, IsGetParked, GetGranted);
    MatchesUpdate(space, pcs, IsPutParked, t, GetGranted);
  }

  /** Waking the head of the putters' wait list. */
  lemma WakePutter<T>(items: seq<Request>, space: seq<Request>, pcs: seq<PC<T>>)
    requires space != [] && Matches(items, pcs, IsGetParked) && Matches(space, pcs, IsPutParked)
    ensures var pcs' := Grant(pcs, [space[0]]);
            && Matches(items, pcs', IsGetParked) && Matches(space[1..], pcs', IsPutParked)
            && Count(pcs', IsGetGranted) == Count(pcs, IsGetGranted)
            && Count(pcs', IsPutGranted) == Count(pcs, IsPutGranted) + 1
  {
    var t := space[0].thread;
    assert IsPutParked(pcs[t]);
    var granted := PutGranted(pcs[t].item);
    CountsMove(pcs, t, granted);
    MatchesWake(space, pcs, IsPutParked, granted);
    MatchesUpdate(items, pcs, IsGetParked, t, granted);
  }

  lemma FinishPutKeepsInv<T>(s: State<T>, t: nat)
    requires Inv(s) && Enabled(s, FinishPut(t))
    ensures Inv(Do(s, FinishPut(t)))
  {
    var items, space, mid := s.q.hasItems.waiters, s.q.hasSpace.waiters, s.pcs[t := Idle];
    CountsMove(s.pcs, t, Idle);
    CountAtLeast(s.pcs, t, IsPutGranted);
    MatchesUpdate(items, s.pcs, IsGetParked, t, Idle);
    MatchesUpdate(space, s.pcs, IsPutParked, t, Idle);
    InsertBalanced(s.q, s.size, Count(s.pcs, IsGetGranted), Count(s.pcs, IsPutGranted), s.pcs[t].item);
    UnitPost(s.q.hasItems, s.size);
    if items != [] {
      WakeGetter(items, space, mid);
    }
  }

  lemma FinishGetKeepsInv<T>(s: State<T>, t: nat)
    requires Inv(s) && Enabled(s, FinishGet(t))
    ensures Inv(Do(s, FinishGet(t)))
  {
    var items, space, mid := s.q.hasItems.waiters, s.q.hasSpace.waiters, s.pcs[t := Idle];
    CountsMove(s.pcs, t, Idle);
    CountAtLeast(s.pcs, t, IsGetGranted);
    MatchesUpdate(items, s.pcs, IsGetParked, t, Idle);
    MatchesUpdate(space, s.pcs, IsPutParked, t, Idle);
    RemoveBalanced(s.q, s.size, Count(s.pcs, IsGetGranted), Count(s.pcs, IsPutGranted));
    UnitPost(s.q.hasSpace, s.size);
    assert s.got + s.q.list == s.got + [s.q.list[0]] + s.q.list[1..];
    if space != [] {
      WakePutter(items, space, mid);
    }
  }

  lemma StepKeepsInv<T(!new)>(s: State<T>, s': State<T>)
    requires Inv(s) && Step(s, s')
    ensures Inv(s')
  {
    var a :| Enabled(s, a) && s' == Do(s, a);
    match a
    case StartPut(t, v) => StartPutKeepsInv(s, t, v);
    case FinishPut(t) => FinishPutKeepsInv(s, t);
    case StartGet(t) => StartGetKeepsInv(s, t);
    case FinishGet(t) => FinishGetKeepsInv(s, t);
  }

  /** In every run of any number of threads: values leave in the order in which they were inserted,
      a thread that resumes from a get finds an item, a thread that resumes from a put finds room,
      and no post is cut off by the limit. */
  lemma EveryRunSafe<T(!new)>(run: seq<State<T>>, k: nat)
    requires IsRun(Init, Step, run) && k < |run|
    ensures var s := run[k];
            && s.put == s.got + s.q.list
            && |s.q.list| == s.q.hasItems.units + Count(s.pcs, IsGetGranted)
            && |s.q.list| + s.q.hasSpace.units + Count(s.pcs, IsPutGranted) == s.size
            && (forall t :: 0 <= t < |s.pcs| && s.pcs[t].GetGranted? ==>
                  s.q.list != [] && s.q.hasSpace.units + 1 <= s.q.hasSpace.limit)
            && (forall t :: 0 <= t < |s.pcs| && s.pcs[t].PutGranted? ==>
                  |s.q.list| < s.size && s.q.hasItems.units + 1 <= s.q.hasItems.limit)
  {
    RunInv(run, k);
    var s := run[k];
    forall t | 0 <= t < |s.pcs| && (s.pcs[t].GetGranted? || s.pcs[t].PutGranted?)
      ensures s.pcs[t].GetGranted? ==> s.q.list != [] && s.q.hasSpace.units < s.size
      ensures s.pcs[t].PutGranted? ==> |s.q.list| < s.size && s.q.hasItems.units < s.size
    {
      if s.pcs[t].GetGranted? {
        CountAtLeast(s.pcs, t, IsGetGranted);
      } else {
        CountAtLeast(s.pcs, t, IsPutGranted);
      }
    }
  }

  lemma RunInv<T(!new)>(run: seq<State<T>>, k: nat)
    requires IsRun(Init, Step, run) && k < |run|
    ensures Inv(run[k])
  {
    forall s: State<T> | Init(s) ensures Inv(s) { InitInv(s); }
    forall s: State<T>, s' | Inv(s) && Step(s, s') ensures Inv(s') { StepKeepsInv(s, s'); }
    Always(Init, Step, Inv, run, k);
  }

  /** No lost wakeup: when no thread is granted, getters are parked only on an empty queue and
      putters only on a full one, hence never both. */
  lemma ParkedOnlyForCause<T(!new)>(run: seq<State<T>>, k: nat)
    requires IsRun(Init, Step, run) && k < |run|
    requires forall t :: 0 <= t < |run[k].pcs| ==> !run[k].pcs[t].GetGranted? && !run[k].pcs[t].PutGranted?
    ensures var s := run[k];
            && ((exists t :: 0 <= t < |s.pcs| && s.pcs[t].GetParked?) ==> s.q.list == [])
            && ((exists t :: 0 <= t < |s.pcs| && s.pcs[t].PutParked?) ==> |s.q.list| == s.size)
  {
    RunInv(run, k);
    var s := run[k];
    CountNone(s.pcs, IsGetGranted);
    CountNone(s.pcs, IsPutGranted);
    if t :| 0 <= t < |s.pcs| && s.pcs[t].GetParked? {
      assert IsGetParked(s.pcs[t]);
    }
    if t :| 0 <= t < |s.pcs| && s.pcs[t].PutParked? {
      assert IsPutParked(s.pcs[t]);
    }
  }

  /** The queue object: a list and two semaphores, changed in place. */
  class BlockingQueue<T(0)> {
    const list: NodeQueue<T>
    const hasItems: Semaphore
    const hasSpace: Semaphore

    ghost predicate Valid()
      reads this, list, list.Repr, hasItems, hasItems.Repr, hasSpace, hasSpace.Repr
    {
      && list.Valid() && hasItems.Valid() && hasSpace.Valid()
      && list.Repr !! hasItems.Repr && list.Repr !! hasSpace.Repr && hasItems.Repr !! hasSpace.Repr
    }

    ghost function Value(): Queue<T>
      reads this, list, hasItems, hasSpace
    {
      Queue(list.contents, hasItems.Value(), hasSpace.Value())
    }

    /** The ready queue is sound and shares nothing with this queue. */
    ghost predicate Apart(ready: NodeQueue<nat>)
      reads this, list, hasItems, hasSpace, ready, ready.Repr
    {
      ready.Valid() && ready.Repr !! list.Repr && ready.Repr !! hasItems.Repr && ready.Repr !! hasSpace.Repr
    }

    constructor (size: int)
      ensures Valid() && Value() == Created(size)
    {
      list := new NodeQueue<T>();
      hasItems := new Semaphore(0, size);
      hasSpace := new Semaphore(size, size);
    }

    /** First half of queue_put. */
    method BeginPut(thread: nat) returns (parked: bool)
      requires Valid()
      modifies hasSpace.Repr
      ensures Valid() && Value() == AskSpace(old(Value()), thread)
      ensures parked <==> !Immediate(old(hasSpace.Value()), 1)
    {
      parked := hasSpace.Wait(thread, 1);
    }

    /** Second half of queue_put, once the space is granted. */
    method EndPut(item: T, ready: NodeQueue<nat>)
      requires Valid() && Apart(ready)
      modifies list.Repr, hasItems.Repr, ready.Repr
      ensures Valid() && Apart(ready) && Value() == Insert(old(Value()), item)
      ensures ready.contents == old(ready.contents) + Threads(Woken(old(hasItems.Value()), 1))
    {
      list.Append(item);
      assert hasSpace.Valid() && hasItems.Valid() && Apart(ready);
      hasItems.Post(1, ready);
      assert list.Valid() && hasSpace.Valid();
    }

    /** First half of queue_get. */
    method BeginGet(thread: nat) returns (parked: bool)
      requires Valid()
      modifies hasItems.Repr
      ensures Valid() && Value() == AskItem(old(Value()), thread)
      ensures parked <==> !Immediate(old(hasItems.Value()), 1)
    {
      parked := hasItems.Wait(thread, 1);
    }

    /** Second half of queue_get, once the item is granted. */
    method EndGet(ready: NodeQueue<nat>) returns (item: T)
      requires Valid() && list.contents != [] && Apart(ready)
      modifies list.Repr, hasSpace.Repr, ready.Repr
      ensures Valid() && Apart(ready) && item == old(list.contents)[0] && Value() == Remove(old(Value()))
      ensures ready.contents == old(ready.contents) + Threads(Woken(old(hasSpace.Value()), 1))
    {
      item := list.TakeHead();
      assert hasSpace.Valid() && hasItems.Valid() && Apart(ready);
      hasSpace.Post(1, ready);
      assert list.Valid() && hasItems.Valid();
    }
  }
}
