/** The shared-memory channel of ipc/memchannel2/memchan.c: a ring whose slots are handed out by two
    atomic counters, guarded by two counting semaphores. Items are values of any type; one action is
    one semaphore operation, one fetch-and-add or one copy. At most `maxPuts` puts and `maxGets`
    gets may be past their sem_wait at a time: the discipline that the callers keep. */
module TicketRing {
  import opened Runs

  datatype PC<T> =
    | Idle
    | PutTicketing(v: T) | PutCopying(v: T, k: nat) | PutPosting(v: T, k: nat)
    | GetTicketing | GetCopying(k: nat) | GetPosting(k: nat, v: T)

  datatype State<T> = State(
    capacity: nat, maxPuts: nat, maxGets: nat,
    buffer: seq<T>,
    hasSpace: nat, hasItems: nat,
    iput: nat, iget: nat,
    pcs: seq<PC<T>>,
    putLog: seq<T>,      // item of put ticket k
    read: map<nat, T>)   // what the get with ticket k has copied out

  datatype Action<T> = StartPut(t: nat, v: T) | StartGet(t: nat) | Go(t: nat)

  predicate InPut<T>(p: PC<T>) { p.PutTicketing? || p.PutCopying? || p.PutPosting? }
  predicate InGet<T>(p: PC<T>) { p.GetTicketing? || p.GetCopying? || p.GetPosting? }
  predicate PutTicketed<T>(p: PC<T>) { p.PutCopying? || p.PutPosting? }
  predicate IsGetTicketing<T>(p: PC<T>) { p.GetTicketing? }

  predicate Enabled<T>(s: State<T>, a: Action<T>) {
    && a.t < |s.pcs| && |s.buffer| == s.capacity > 0
    && match a
       case StartPut(t, _) => s.pcs[t].Idle? && s.hasSpace > 0 && Count(s.pcs, InPut) < s.maxPuts
       case StartGet(t) => s.pcs[t].Idle? && s.hasItems > 0 && Count(s.pcs, InGet) < s.maxGets
       case Go(t) => !s.pcs[t].Idle?
  }

  function Do<T>(s: State<T>, a: Action<T>): State<T>
    requires Enabled(s, a)
  {
    match a
    case StartPut(t, v) => s.(hasSpace := s.hasSpace - 1, pcs := s.pcs[t := PutTicketing(v)])
    case StartGet(t) => s.(hasItems := s.hasItems - 1, pcs := s.pcs[t := GetTicketing])
    case Go(t) =>
      match s.pcs[t]
      case PutTicketing(v) =>
        s.(pcs := s.pcs[t := PutCopying(v, s.iput)], iput := s.iput + 1, putLog := s.putLog + [v])
      case PutCopying(v, k) =>
        s.(pcs := s.pcs[t := PutPosting(v, k)], buffer := s.buffer[k % s.capacity := v])
      case PutPosting(v, k) => s.(pcs := s.pcs[t := Idle], hasItems := s.hasItems + 1)
      case GetTicketing => s.(pcs := s.pcs[t := GetCopying(s.iget)], iget := s.iget + 1)
      case GetCopying(k) =>
        var v := s.buffer[k % s.capacity];
        s.(pcs := s.pcs[t := GetPosting(k, v)], read := s.read[k := v])
      case GetPosting(k, _) => s.(pcs := s.pcs[t := Idle], hasSpace := s.hasSpace + 1)
  }

  ghost predicate Init<T>(s: State<T>) {
    && s.capacity > 0 && |s.buffer| == s.capacity
    && s.hasSpace == s.capacity && s.hasItems == 0 && s.iput == s.iget == 0
    && (forall t :: 0 <= t < |s.pcs| ==> s.pcs[t].Idle?)
    && s.putLog == [] && s.read == map[]
  }

  ghost predicate Step<T(!new)>(s: State<T>, s': State<T>) {
    exists a :: Enabled(s, a) && s' == Do(s, a)
  }

  /** Conservation of units and tickets, for any number of threads and any discipline. */
  ghost predicate Counts<T>(s: State<T>) {
    && |s.buffer| == s.capacity > 0
    && s.hasSpace + s.hasItems + Count(s.pcs, InPut) + Count(s.pcs, InGet) == s.capacity
    && s.iput == s.iget + s.hasItems + Count(s.pcs, PutTicketed) + Count(s.pcs, IsGetTicketing)
    && |s.putLog| == s.iput
    && Count(s.pcs, InPut) <= s.maxPuts && Count(s.pcs, InGet) <= s.maxGets
  }

  lemma InitCounts<T>(s: State<T>)
    requires Init(s)
    ensures Counts(s)
  {
    CountNone(s.pcs, InPut);
    CountNone(s.pcs, InGet);
    CountNone(s.pcs, PutTicketed);
    CountNone(s.pcs, IsGetTicketing);
  }

  lemma CountsMove<T>(pcs: seq<PC<T>>, t: nat, p: PC<T>)
    requires t < |pcs|
    ensures Count(pcs[t := p], InPut)
         == Count(pcs, InPut) - (if InPut(pcs[t]) then 1 else 0) + if InPut(p) then 1 else 0
    ensures Count(pcs[t := p], InGet)
         == Count(pcs, InGet) - (if InGet(pcs[t]) then 1 else 0) + if InGet(p) then 1 else 0
    ensures Count(pcs[t := p], PutTicketed)
         == Count(pcs, PutTicketed) - (if PutTicketed(pcs[t]) then 1 else 0) + if PutTicketed(p) then 1 else 0
    ensures Count(pcs[t := p], IsGetTicketing)
         == Count(pcs, IsGetTicketing) - (if IsGetTicketing(pcs[t]) then 1 else 0) + if IsGetTicketing(p) then 1 else 0
  {
    CountUpdate(pcs, t, p, InPut);
    CountUpdate(pcs, t, p, InGet);
    CountUpdate(pcs, t, p, PutTicketed);
    CountUpdate(pcs, t, p, IsGetTicketing);
  }

  lemma GoKeepsCounts<T>(s: State<T>, t: nat)
    requires Counts(s) && Enabled(s, Go(t))
    ensures Counts(Do(s, Go(t)))
  {
    CountsMove(s.pcs, t, Do(s, Go(t)).pcs[t]);
  }

  lemma StepKeepsCounts<T(!new)>(s: State<T>, s': State<T>)
    requires Counts(s) && Step(s, s')
    ensures Counts(s')
  {
    var a :| Enabled(s, a) && s' == Do(s, a);
    if a.Go? {
      GoKeepsCounts(s, a.t);
    } else {
      CountsMove(s.pcs, a.t, s'.pcs[a.t]);
    }
  }

  /** The discipline under which the ring is a queue: one put and one get at a time, which a single
      slot, or a single thread, enforces by itself. */
  predicate Disciplined<T>(s: State<T>) {
    (s.maxPuts <= 1 && s.maxGets <= 1) || s.capacity == 1 || |s.pcs| <= 1
  }

  /** At most one thread is past its sem_wait in a put, and at most one in a get. */
  ghost predicate OneEach<T>(s: State<T>) {
    Count(s.pcs, InPut) <= 1 && Count(s.pcs, InGet) <= 1
  }

  lemma DisciplinedOneEach<T>(s: State<T>)
    requires Counts(s) && Disciplined(s)
    ensures OneEach(s)
  {
    CountMost(s.pcs, InPut);
    CountMost(s.pcs, InGet);
  }

  /** Two threads counted are two. */
  lemma {:induction false} CountTwo<T>(s: seq<PC<T>>, i: nat, j: nat, p: PC<T> -> bool)
    requires i < j < |s| && p(s[i]) && p(s[j])
    ensures Count(s, p) >= 2
  {
    if j == |s| - 1 {
      CountAtLeast(s[..j], i, p);
    } else {
      CountTwo(s[..|s| - 1], i, j, p);
    }
  }

  /** The slots of the last `capacity` tickets hold their items, but for one being copied in; the
      thread in a put holds the newest put ticket and the thread in a get the newest get ticket. */
  ghost predicate Contents<T>(s: State<T>) {
    && |s.putLog| == s.iput && |s.buffer| == s.capacity > 0
    && (forall t :: 0 <= t < |s.pcs| ==>
          match s.pcs[t]
          case PutCopying(v, k) => k + 1 == s.iput && s.putLog[k] == v
          case PutPosting(v, k) => k + 1 == s.iput && s.putLog[k] == v
          case GetCopying(k) => k + 1 == s.iget
          case GetPosting(k, v) => k + 1 == s.iget
          case _ => true)
    && (forall k: nat :: s.iput - s.capacity <= k < s.iput ==>
          s.buffer[k % s.capacity] == s.putLog[k]
          || exists t :: 0 <= t < |s.pcs| && s.pcs[t].PutCopying? && s.pcs[t].k == k)
    && (forall k: nat :: k in s.read ==> k < s.iget && k < s.iput && s.read[k] == s.putLog[k])
  }

  lemma SlotsDiffer(i: nat, j: nat, capacity: nat)
    requires i < j < i + capacity
    ensures i % capacity != j % capacity
  {
    var d := j / capacity - i / capacity;
    assert j - i == capacity * d + (j % capacity - i % capacity);
    if d >= 1 {
      assert capacity * d >= capacity;
    } else {
      assert capacity * d <= 0;
    }
  }

  lemma InitContents<T>(s: State<T>)
    requires Init(s)
    ensures Contents(s)
  {
  }

  /** A thread past its sem_wait is the only one of its kind. */
  lemma Alone<T>(s: State<T>, t: nat, u: nat)
    requires OneEach(s) && t < |s.pcs| && u < |s.pcs| && t != u
    ensures !(InPut(s.pcs[t]) && InPut(s.pcs[u])) && !(InGet(s.pcs[t]) && InGet(s.pcs[u]))
  {
    var i, j := if t < u then t else u, if t < u then u else t;
    if InPut(s.pcs[i]) && InPut(s.pcs[j]) {
      CountTwo(s.pcs, i, j, InPut);
    }
    if InGet(s.pcs[i]) && InGet(s.pcs[j]) {
      CountTwo(s.pcs, i, j, InGet);
    }
  }

  lemma PutKeepsContents<T>(s: State<T>, t: nat)
    requires Counts(s) && OneEach(s) && Contents(s) && Enabled(s, Go(t)) && InPut(s.pcs[t])
    ensures Contents(Do(s, Go(t)))
  {
    var s' := Do(s, Go(t));
    forall u: nat | u < |s.pcs| && u != t ensures !InPut(s.pcs[u]) && s'.pcs[u] == s.pcs[u] {
      Alone(s, t, u);
    }
    forall k: nat | s'.iput - s.capacity <= k < s'.iput
      ensures s'.buffer[k % s.capacity] == s'.putLog[k]
              || exists u :: 0 <= u < |s'.pcs| && s'.pcs[u].PutCopying? && s'.pcs[u].k == k
    {
      if k == s.iput {
        assert s'.pcs[t].PutCopying? && s'.pcs[t].k == k;
      } else if s.pcs[t].PutCopying? && k != s.pcs[t].k {
        SlotsDiffer(k, s.pcs[t].k, s.capacity);
      }
    }
  }

  /** The slot a get is about to read: its item has been copied in and not overwritten. */
  lemma GetReadsItem<T>(s: State<T>, t: nat)
    requires Counts(s) && OneEach(s) && Contents(s)
    requires t < |s.pcs| && s.pcs[t].GetCopying?
    ensures var k := s.pcs[t].k;
            && s.iput - s.capacity <= k < s.iput
            && s.buffer[k % s.capacity] == s.putLog[k]
    ensures forall u :: 0 <= u < |s.pcs| && s.pcs[u].PutCopying? ==>
              s.pcs[u].k % s.capacity != s.pcs[t].k % s.capacity
  {
    var k := s.pcs[t].k;
    CountAtLeast(s.pcs, t, InGet);
    assert Count(s.pcs, IsGetTicketing) == 0 by {
      forall u | 0 <= u < |s.pcs| ensures !IsGetTicketing(s.pcs[u]) {
        if u != t {
          Alone(s, t, u);
        }
      }
      CountNone(s.pcs, IsGetTicketing);
    }
    TicketedInPut(s.pcs);
    forall u | 0 <= u < |s.pcs| && s.pcs[u].PutCopying?
      ensures k < s.pcs[u].k < k + s.capacity && s.pcs[u].k % s.capacity != k % s.capacity
    {
      CountAtLeast(s.pcs, u, PutTicketed);
      SlotsDiffer(k, s.pcs[u].k, s.capacity);
    }
  }

  lemma {:induction false} TicketedInPut<T>(pcs: seq<PC<T>>)
    ensures Count(pcs, PutTicketed) <= Count(pcs, InPut)
  {
    if pcs != [] {
      TicketedInPut(pcs[..|pcs| - 1]);
    }
  }

  lemma GetKeepsContents<T>(s: State<T>, t: nat)
    requires Counts(s) && OneEach(s) && Contents(s) && Enabled(s, Go(t)) && InGet(s.pcs[t])
    ensures Contents(Do(s, Go(t)))
  {
    var s' := Do(s, Go(t));
    forall u: nat | u < |s.pcs| && u != t ensures !InGet(s.pcs[u]) && s'.pcs[u] == s.pcs[u] {
      Alone(s, t, u);
    }
    if s.pcs[t].GetCopying? {
      GetReadsItem(s, t);
    }
    OthersStillCopy(s, t, s');
  }

  /** A thread that is not in a put changes neither the slots nor who is copying. */
  lemma OthersStillCopy<T>(s: State<T>, t: nat, s': State<T>)
    requires Contents(s) && t < |s.pcs| && !InPut(s.pcs[t]) && |s'.pcs| == |s.pcs|
    requires s'.buffer == s.buffer && s'.putLog == s.putLog && s'.iput == s.iput && s'.capacity == s.capacity
    requires forall u :: 0 <= u < |s.pcs| && u != t ==> s'.pcs[u] == s.pcs[u]
    ensures forall k: nat :: s.iput - s.capacity <= k < s.iput ==>
              s'.buffer[k % s.capacity] == s'.putLog[k]
              || exists u :: 0 <= u < |s'.pcs| && s'.pcs[u].PutCopying? && s'.pcs[u].k == k
  {
    forall k: nat | s.iput - s.capacity <= k < s.iput && s.buffer[k % s.capacity] != s.putLog[k]
      ensures exists u :: 0 <= u < |s'.pcs| && s'.pcs[u].PutCopying? && s'.pcs[u].k == k
    {
      var u :| 0 <= u < |s.pcs| && s.pcs[u].PutCopying? && s.pcs[u].k == k;
      assert s'.pcs[u] == s.pcs[u];
    }
  }

  lemma StepKeepsContents<T(!new)>(s: State<T>, s': State<T>)
    requires Counts(s) && OneEach(s) && Contents(s) && Step(s, s')
    ensures Contents(s')
  {
    var a :| Enabled(s, a) && s' == Do(s, a);
    if a.Go? {
      if InPut(s.pcs[a.t]) {
        PutKeepsContents(s, a.t);
      } else {
        GetKeepsContents(s, a.t);
      }
    } else {
      OthersStillCopy(s, a.t, s');
    }
  }

  // ----- the ring as a bounded queue ------------------------------------------------------------

  /** The queue the ring stands for: a put takes effect when it posts, a get when its wait succeeds. */
  function Fifo<T>(s: State<T>): seq<T>
    requires Counts(s)
  {
    s.putLog[s.iget + Count(s.pcs, IsGetTicketing)..s.iput - Count(s.pcs, PutTicketed)]
  }

  lemma PostRefines<T>(s: State<T>, t: nat)
    requires Counts(s) && OneEach(s) && Enabled(s, Go(t)) && s.pcs[t].PutPosting?
    requires s.pcs[t].k + 1 == s.iput && s.putLog[s.pcs[t].k] == s.pcs[t].v
    ensures Counts(Do(s, Go(t))) && Fifo(Do(s, Go(t))) == Fifo(s) + [s.pcs[t].v]
  {
    GoKeepsCounts(s, t);
    CountsMove(s.pcs, t, Idle);
    TicketedInPut(s.pcs);
    CountAtLeast(s.pcs, t, PutTicketed);
  }

  lemma GoRefines<T>(s: State<T>, t: nat)
    requires Counts(s) && Enabled(s, Go(t)) && !s.pcs[t].PutPosting?
    ensures Counts(Do(s, Go(t))) && Fifo(Do(s, Go(t))) == Fifo(s)
  {
    GoKeepsCounts(s, t);
    CountsMove(s.pcs, t, Do(s, Go(t)).pcs[t]);
  }

  lemma StartGetRefines<T>(s: State<T>, t: nat)
    requires Counts(s) && Enabled(s, StartGet(t))
    ensures Counts(Do(s, StartGet(t)))
    ensures Fifo(s) != [] && Fifo(Do(s, StartGet(t))) == Fifo(s)[1..]
    ensures Count(s.pcs, InGet) == 0 ==> Fifo(s)[0] == s.putLog[s.iget]
  {
    CountsMove(s.pcs, t, GetTicketing);
    TicketingInGet(s.pcs);
  }

  lemma StartPutRefines<T>(s: State<T>, t: nat, v: T)
    requires Counts(s) && Enabled(s, StartPut(t, v))
    ensures Counts(Do(s, StartPut(t, v))) && Fifo(Do(s, StartPut(t, v))) == Fifo(s)
  {
    CountsMove(s.pcs, t, PutTicketing(v));
  }

  lemma PutIsNewest<T>(s: State<T>, t: nat)
    requires Contents(s) && t < |s.pcs| && s.pcs[t].PutPosting?
    ensures s.pcs[t].k + 1 == s.iput && s.putLog[s.pcs[t].k] == s.pcs[t].v
  {
  }

  /** Under the discipline every action is an action of a bounded queue, or invisible to it: posting
      appends the item being put, and a successful wait removes the oldest item, which is the one
      the get is then given the ticket of. */
  lemma RefinesFifo<T>(s: State<T>, a: Action<T>)
    requires Counts(s) && OneEach(s) && Contents(s) && Enabled(s, a)
    ensures Counts(Do(s, a)) && |Fifo(s)| == s.hasItems <= s.capacity
    ensures match a
            case StartPut(_, _) => Fifo(Do(s, a)) == Fifo(s)
            case StartGet(_) =>
              && Fifo(s) != [] && Fifo(Do(s, a)) == Fifo(s)[1..]
              && (Count(s.pcs, InGet) == 0 ==> Fifo(s)[0] == s.putLog[s.iget])
            case Go(t) =>
              && Fifo(Do(s, a)) == (if s.pcs[t].PutPosting? then Fifo(s) + [s.pcs[t].v] else Fifo(s))
              && (s.pcs[t].GetTicketing? ==> Do(s, a).pcs[t] == GetCopying(s.iget))
  {
    match a
    case StartPut(t, v) => StartPutRefines(s, t, v);
    case StartGet(t) => StartGetRefines(s, t);
    case Go(t) =>
      if s.pcs[t].PutPosting? {
        PutIsNewest(s, t);
        PostRefines(s, t);
      } else {
        GoRefines(s, t);
      }
  }

  /** A call is held up only for cause: a thread in the middle of one can always go on, and when none is,
      a put can begin exactly when the queue is not full and a get exactly when it is not empty. */
  lemma HeldUpOnlyForCause<T>(s: State<T>, t: nat, v: T)
    requires Counts(s) && t < |s.pcs|
    ensures !s.pcs[t].Idle? ==> Enabled(s, Go(t))
    ensures (forall u :: 0 <= u < |s.pcs| ==> s.pcs[u].Idle?) ==>
              && (Enabled(s, StartPut(t, v)) <==> |Fifo(s)| < s.capacity && s.maxPuts > 0)
              && (Enabled(s, StartGet(t)) <==> Fifo(s) != [] && s.maxGets > 0)
  {
    if forall u :: 0 <= u < |s.pcs| ==> s.pcs[u].Idle? {
      CountNone(s.pcs, InPut);
      CountNone(s.pcs, InGet);
      CountNone(s.pcs, PutTicketed);
      CountNone(s.pcs, IsGetTicketing);
    }
  }

  lemma {:induction false} TicketingInGet<T>(pcs: seq<PC<T>>)
    ensures Count(pcs, IsGetTicketing) <= Count(pcs, InGet)
  {
    if pcs != [] {
      TicketingInGet(pcs[..|pcs| - 1]);
    }
  }

  lemma ConfigFixed<T(!new)>(s: State<T>, s': State<T>)
    requires Step(s, s')
    ensures s'.capacity == s.capacity && s'.maxPuts == s.maxPuts && s'.maxGets == s.maxGets
    ensures |s'.pcs| == |s.pcs|
  {
  }

  /** Tickets in use have been issued; with no puts or no gets allowed none is. */
  ghost predicate Tickets<T>(s: State<T>) {
    && (forall t :: 0 <= t < |s.pcs| && s.pcs[t].GetCopying? ==> s.pcs[t].k < s.iget)
    && (forall k: nat :: k in s.read ==> k < s.iget)
    && (s.maxPuts == 0 ==> s.iput == 0) && (s.maxGets == 0 ==> s.iget == 0)
  }

  ghost predicate Inv<T>(s: State<T>) {
    Counts(s) && Tickets(s) && (Disciplined(s) ==> Contents(s))
  }

  lemma StepKeepsTickets<T(!new)>(s: State<T>, s': State<T>)
    requires Counts(s) && Tickets(s) && Step(s, s')
    ensures Tickets(s')
  {
    var a :| Enabled(s, a) && s' == Do(s, a);
    if a.Go? && s.pcs[a.t].PutTicketing? {
      CountAtLeast(s.pcs, a.t, InPut);
    }
    if a.Go? && s.pcs[a.t].GetTicketing? {
      CountAtLeast(s.pcs, a.t, InGet);
    }
  }

  lemma StepKeepsInv<T(!new)>(s: State<T>, s': State<T>)
    requires Inv(s) && Step(s, s')
    ensures Inv(s')
  {
    StepKeepsCounts(s, s');
    StepKeepsTickets(s, s');
    ConfigFixed(s, s');
    if Disciplined(s) {
      DisciplinedOneEach(s);
      StepKeepsContents(s, s');
    }
  }

  lemma RunInv<T(!new)>(run: seq<State<T>>, k: nat)
    requires IsRun(Init, Step, run) && k < |run|
    ensures Inv(run[k])
  {
    forall s: State<T> | Init(s) ensures Inv(s) {
      InitCounts(s);
      InitContents(s);
    }
    forall s: State<T>, s' | Inv(s) && Step(s, s') ensures Inv(s') { StepKeepsInv(s, s'); }
    Always(Init, Step, Inv, run, k);
  }

  /** Units and tickets are conserved in every run of any number of threads. */
  lemma EveryRunConserves<T(!new)>(run: seq<State<T>>, k: nat)
    requires IsRun(Init, Step, run) && k < |run|
    ensures var s := run[k];
            && s.hasSpace + s.hasItems + Count(s.pcs, InPut) + Count(s.pcs, InGet) == s.capacity
            && s.iput == s.iget + s.hasItems + Count(s.pcs, PutTicketed) + Count(s.pcs, IsGetTicketing)
  {
    RunInv(run, k);
  }

  /** Every get that has read has read the item put with its own ticket. */
  ghost predicate Faithful<T>(s: State<T>) {
    forall k :: k in s.read ==> k < |s.putLog| && s.read[k] == s.putLog[k]
  }

  /** A put and a get never touch the same slot at the same time. */
  ghost predicate SlotsDisjoint<T>(s: State<T>) {
    forall t, u :: 0 <= t < |s.pcs| && 0 <= u < |s.pcs| && s.pcs[t].GetCopying? && s.pcs[u].PutCopying? ==>
      s.capacity > 0 && s.pcs[u].k % s.capacity != s.pcs[t].k % s.capacity
  }

  lemma {:induction false} DisciplineFixed<T(!new)>(run: seq<State<T>>, k: nat)
    requires IsRun(Init, Step, run) && k < |run|
    ensures Disciplined(run[k]) == Disciplined(run[0])
    ensures run[k].maxPuts == run[0].maxPuts && run[k].maxGets == run[0].maxGets
  {
    if k > 0 {
      DisciplineFixed(run, k - 1);
      StepAt(Init, Step, run, k);
      ConfigFixed(run[k - 1], run[k]);
    }
  }

  lemma DisciplinedRunsFaithful<T(!new)>(run: seq<State<T>>, k: nat)
    requires IsRun(Init, Step, run) && k < |run| && Disciplined(run[0])
    ensures Faithful(run[k]) && SlotsDisjoint(run[k])
  {
    RunInv(run, k);
    DisciplineFixed(run, k);
    var s := run[k];
    DisciplinedOneEach(s);
    forall t, u | 0 <= t < |s.pcs| && 0 <= u < |s.pcs| && s.pcs[t].GetCopying? && s.pcs[u].PutCopying?
      ensures s.pcs[u].k % s.capacity != s.pcs[t].k % s.capacity
    {
      GetReadsItem(s, t);
    }
  }

  // ----- why the discipline is needed ------------------------------------------------------------

  lemma Act<T(!new)>(run: seq<State<T>>, a: Action<T>) returns (longer: seq<State<T>>)
    requires IsRun(Init, Step, run) && Enabled(run[|run| - 1], a)
    ensures IsRun(Init, Step, longer) && longer[0] == run[0] && longer[|longer| - 1] == Do(run[|run| - 1], a)
    ensures var s, s' := run[|run| - 1], Do(run[|run| - 1], a);
            && Count(s'.pcs, InPut)
               == Count(s.pcs, InPut) - (if InPut(s.pcs[a.t]) then 1 else 0) + (if InPut(s'.pcs[a.t]) then 1 else 0)
            && Count(s'.pcs, InGet)
               == Count(s.pcs, InGet) - (if InGet(s.pcs[a.t]) then 1 else 0) + (if InGet(s'.pcs[a.t]) then 1 else 0)
  {
    var s := run[|run| - 1];
    assert Step(s, Do(s, a));
    CountsMove(s.pcs, a.t, Do(s, a).pcs[a.t]);
    longer := Extend(Init, Step, run, Do(s, a));
  }

  /** An idle thread makes a whole put. */
  lemma CopyIn<T(!new)>(run: seq<State<T>>, t: nat, v: T) returns (longer: seq<State<T>>)
    requires IsRun(Init, Step, run) && Enabled(run[|run| - 1], StartPut(t, v))
    ensures IsRun(Init, Step, longer) && longer[0] == run[0]
    ensures var s := run[|run| - 1];
            longer[|longer| - 1] ==
              s.(hasSpace := s.hasSpace - 1, hasItems := s.hasItems + 1, iput := s.iput + 1,
                 putLog := s.putLog + [v], buffer := s.buffer[s.iput % s.capacity := v])
  {
    longer := Act(run, StartPut(t, v));
    longer := Act(longer, Go(t));
    longer := Act(longer, Go(t));
    longer := Act(longer, Go(t));
    assert longer[|longer| - 1].pcs == run[|run| - 1].pcs;
  }

  /** An idle thread waits, takes a ticket and copies an item out. */
  lemma CopyOut<T(!new)>(run: seq<State<T>>, t: nat) returns (longer: seq<State<T>>)
    requires IsRun(Init, Step, run) && Enabled(run[|run| - 1], StartGet(t))
    ensures IsRun(Init, Step, longer) && longer[0] == run[0]
    ensures var s, s' := run[|run| - 1], longer[|longer| - 1];
            var v := s.buffer[s.iget % s.capacity];
            && s' == s.(hasItems := s.hasItems - 1, iget := s.iget + 1, read := s.read[s.iget := v],
                        pcs := s.pcs[t := GetPosting(s.iget, v)])
            && Count(s'.pcs, InPut) == Count(s.pcs, InPut)
  {
    longer := Act(run, StartGet(t));
    longer := Act(longer, Go(t));
    longer := Act(longer, Go(t));
  }

  /** Thread 0 has the first put ticket but has not copied its item in. */
  lemma StallFirstPut<T(!new)>(s: State<T>, v: T) returns (run: seq<State<T>>)
    requires Init(s) && |s.pcs| >= 2 && s.maxPuts >= 1
    ensures IsRun(Init, Step, run) && run[0] == s
    ensures var t := run[|run| - 1];
            && t == s.(hasSpace := s.capacity - 1, iput := 1, putLog := [v], pcs := s.pcs[0 := PutCopying(v, 0)])
            && Count(t.pcs, InPut) == 1 && Count(t.pcs, InGet) == 0
  {
    InitCounts(s);
    CountNone(s.pcs, InPut);
    CountNone(s.pcs, InGet);
    run := [s];
    run := Act(run, StartPut(0, v));
    run := Act(run, Go(0));
  }

  /** Two puts at once: the second posts while the first has not copied its item in yet, and a get is
      sent to the first one's slot. */
  lemma TwoPutsGoWrong<T(!new)>(s: State<T>, x: T, y: T) returns (run: seq<State<T>>)
    requires Init(s) && |s.pcs| >= 2 && s.capacity >= 2 && s.maxPuts >= 2 && s.maxGets >= 1 && x != y
    ensures IsRun(Init, Step, run) && run[0] == s && !Faithful(run[|run| - 1])
  {
    var v := if x != s.buffer[0] then x else y;
    run := StallFirstPut(s, v);
    run := SecondPutPosts(run, v);
    run := CopyOut(run, 1);
    assert 0 in run[|run| - 1].read;
  }

  lemma SecondPutPosts<T(!new)>(run: seq<State<T>>, v: T) returns (longer: seq<State<T>>)
    requires IsRun(Init, Step, run)
    requires var s := run[|run| - 1];
             && |s.pcs| >= 2 && s.pcs[1].Idle? && |s.buffer| == s.capacity >= 2 && s.hasSpace > 0
             && s.iput == 1 && s.iget == 0 && s.hasItems == 0 && Count(s.pcs, InPut) < s.maxPuts
    ensures IsRun(Init, Step, longer) && longer[0] == run[0]
    ensures var s, t := run[|run| - 1], longer[|longer| - 1];
            && t.pcs == s.pcs && t.capacity == s.capacity && t.maxGets == s.maxGets && t.iget == 0 && t.hasItems == 1
            && |t.buffer| == s.capacity && t.buffer[0] == s.buffer[0] && s.putLog <= t.putLog && t.read == s.read
  {
    assert 1 % run[|run| - 1].capacity == 1;
    longer := CopyIn(run, 1, v);
  }

  /** Everything but the shared ring is as it was. */
  ghost predicate OnlyPut<T>(s: State<T>, s': State<T>, m: nat) {
    && s'.capacity == s.capacity && s'.maxPuts == s.maxPuts && s'.maxGets == s.maxGets
    && s'.pcs == s.pcs && s'.iget == s.iget && s'.read == s.read
    && |s'.buffer| == |s.buffer|
    && s'.iput == s.iput + m && s'.hasSpace + m == s.hasSpace && s'.hasItems == s.hasItems + m
    && s.putLog <= s'.putLog
  }

  /** Thread 0 makes `m` puts of `u`, with nobody else doing anything. */
  lemma PutMany<T(!new)>(run: seq<State<T>>, u: T, m: nat) returns (longer: seq<State<T>>)
    requires IsRun(Init, Step, run)
    requires var s := run[|run| - 1];
             && |s.buffer| == s.capacity > 0 && |s.pcs| > 0 && s.pcs[0].Idle?
             && s.hasSpace >= m && Count(s.pcs, InPut) < s.maxPuts
    ensures IsRun(Init, Step, longer) && run[0] == longer[0]
    ensures var s, s' := run[|run| - 1], longer[|longer| - 1];
            OnlyPut(s, s', m) && (m > 0 ==> s'.buffer[(s'.iput - 1) % s.capacity] == u)
  {
    var s := run[|run| - 1];
    if m == 0 {
      longer := run;
    } else {
      longer := PutMany(run, u, m - 1);
      longer := CopyIn(longer, 0, u);
    }
  }

  lemma TwoItemsIn<T(!new)>(s: State<T>, x: T) returns (run: seq<State<T>>)
    requires Init(s) && |s.pcs| >= 2 && s.capacity >= 2 && s.maxPuts >= 1
    ensures IsRun(Init, Step, run) && run[0] == s
    ensures var t := run[|run| - 1];
            && OnlyPut(s, t, 2) && |t.putLog| == 2
            && Count(t.pcs, InPut) == 0 && Count(t.pcs, InGet) == 0
  {
    InitCounts(s);
    CountNone(s.pcs, InPut);
    CountNone(s.pcs, InGet);
    run := PutMany([s], x, 2);
    RunInv(run, |run| - 1);
  }

  /** Two items are in; thread 1 has the first one's ticket but has not read it; thread 0 takes the
      second and frees a slot. */
  lemma StallFirstGet<T(!new)>(s: State<T>, x: T) returns (run: seq<State<T>>)
    requires Init(s) && |s.pcs| >= 2 && s.capacity >= 2 && s.maxPuts >= 1 && s.maxGets >= 2
    ensures IsRun(Init, Step, run) && run[0] == s
    ensures var t := run[|run| - 1];
            && |t.pcs| >= 2 && t.pcs[0].Idle? && t.pcs[1] == GetCopying(0)
            && |t.buffer| == t.capacity == s.capacity && t.maxPuts == s.maxPuts && Count(t.pcs, InPut) == 0
            && t.iput == |t.putLog| == 2 && t.hasSpace == s.capacity - 1
  {
    run := TwoItemsIn(s, x);
    run := Act(run, StartGet(1));
    run := Act(run, Go(1));
    run := CopyOut(run, 0);
    run := Act(run, Go(0));
  }

  /** Two gets at once: the second frees a slot while the first has not read its own, which a put,
      once round the ring, overwrites. */
  lemma TwoGetsGoWrong<T(!new)>(s: State<T>, x: T, y: T) returns (run: seq<State<T>>)
    requires Init(s) && |s.pcs| >= 2 && s.capacity >= 2 && s.maxPuts >= 1 && s.maxGets >= 2 && x != y
    ensures IsRun(Init, Step, run) && run[0] == s && !Faithful(run[|run| - 1])
  {
    run := StallFirstGet(s, x);
    var first := run[|run| - 1].putLog[0];
    var v := if x != first then x else y;
    run := PutMany(run, v, s.capacity - 1);
    assert (run[|run| - 1].iput - 1) % s.capacity == 0;
    run := Act(run, Go(1));
    assert 0 in run[|run| - 1].read && run[|run| - 1].read[0] == v;
  }

  /** Exactly when the ring can be relied on: every run from a fresh ring is faithful if and only if
      puts come one at a time and gets come one at a time, or there is a single slot or a single
      thread, or there are no puts or no gets at all. That x and y differ says no more than that there
      are two values to tell apart. */
  lemma FaithfulIff<T(!new)>(s: State<T>, x: T, y: T)
    requires Init(s) && x != y
    ensures (forall run: seq<State<T>> :: IsRun(Init, Step, run) && run[0] == s ==> Faithful(run[|run| - 1])) <==>
            Disciplined(s) || s.maxPuts == 0 || s.maxGets == 0
  {
    if Disciplined(s) || s.maxPuts == 0 || s.maxGets == 0 {
      forall run: seq<State<T>> | IsRun(Init, Step, run) && run[0] == s ensures Faithful(run[|run| - 1]) {
        if Disciplined(s) {
          DisciplinedRunsFaithful(run, |run| - 1);
        } else {
          RunInv(run, |run| - 1);
          DisciplineFixed(run, |run| - 1);
        }
      }
    } else if s.maxPuts >= 2 {
      var run := TwoPutsGoWrong(s, x, y);
    } else {
      var run := TwoGetsGoWrong(s, x, y);
    }
  }
}
