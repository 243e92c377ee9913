/** The pool with preallocated work-item descriptors (aula-05-13a/tpool2.c) under its client par_sum
    (aula-05-13a/tp_adder2.c), called over and over from one thread: each call submits P items and
    waits until all of them have counted down its latch. A worker gives its descriptor back only
    after that count, so a new call may find descriptors of earlier calls still in workers' hands. */
module DescriptorPool {
  import opened Runs

  datatype Client =
    | Submitting(i: nat)             // i items of this call are queued
    | Filled(i: nat, d: nat)         // wi_create has returned descriptor d, not queued yet
    | Waiting                        // in cdl_wait_for_all
    | Failed                         // wi_create has returned NULL

  datatype Worker = Getting | Running(d: nat) | Counted(d: nat)

  datatype State = State(
    total: nat,       // descriptors; 1024 in the source
    p: nat,           // items per call; NPROCS
    free: seq<nat>,   // wi_free_list, head first
    queue: seq<nat>,
    client: Client,
    counter: int,     // of the current call's latch
    calls: nat,       // calls completed
    workers: seq<Worker>,
    submitted: seq<nat>,  // descriptors queued so far, in order
    taken: seq<nat>,      // descriptors that workers have taken so far, in order
    served: nat)          // items that have been run and counted down, over all calls

  datatype Action = Call | Work(w: nat)

  predicate Enabled(s: State, a: Action) {
    match a
    case Call => !s.client.Failed? && (s.client.Waiting? ==> s.counter <= 0)
    case Work(w) => w < |s.workers| && (s.workers[w].Getting? ==> s.queue != [])
  }

  function Do(s: State, a: Action): State
    requires Enabled(s, a)
  {
    match a
    case Call =>
      (match s.client
       case Submitting(i) =>
         if i == s.p then s.(client := Waiting)
         else if s.free == [] then s.(client := Failed)
         else s.(client := Filled(i, s.free[0]), free := s.free[1..])
       case Filled(i, d) => 
         s.(client := Submitting(i + 1), queue := s.queue + [d], submitted := s.submitted + [d])
       case Waiting => s.(client := Submitting(0), counter := s.p, calls := s.calls + 1))
    case Work(w) =>
      (match s.workers[w]
       case Getting =>
         s.(workers := s.workers[w := Running(s.queue[0])], queue := s.queue[1..], taken := s.taken + [s.queue[0]])
       case Running(d) =>
         s.(workers := s.workers[w := Counted(d)], counter := s.counter - 1, served := s.served + 1)
       case Counted(d) => s.(workers := s.workers[w := Getting], free := [d] + s.free))
  }

  /** init_wi_pool: every descriptor, in order. */
  function FirstNumbers(n: nat): (r: seq<nat>)
    ensures |r| == n
  {
    if n == 0 then [] else FirstNumbers(n - 1) + [n - 1]
  }

  ghost predicate Init(s: State) {
    && s.free == FirstNumbers(s.total)
    && s.queue == [] && s.client == Submitting(0) && s.counter == s.p && s.calls == 0
    && (forall w :: 0 <= w < |s.workers| ==> s.workers[w].Getting?)
    && s.submitted == s.taken == [] && s.served == 0
  }

  ghost predicate Step(s: State, s': State) {
    exists a :: Enabled(s, a) && s' == Do(s, a)
  }

  predicate IsRunning(w: Worker) { w.Running? }
  predicate InHand(w: Worker) { !w.Getting? }
  function Is(d: nat): nat -> bool { (x: nat) => x == d }
  function Holds(d: nat): Worker -> bool { (w: Worker) => !w.Getting? && w.d == d }

  /** In how many places descriptor `d` is. */
  function Places(s: State, d: nat): nat {
    Count(s.free, Is(d)) + Count(s.queue, Is(d)) + Count(s.workers, Holds(d))
    + if s.client.Filled? && s.client.d == d then 1 else 0
  }

  function Queued(c: Client, p: nat): nat {
    match c
    case Submitting(i) => i
    case Filled(i, _) => i
    case _ => p
  }

  /** Each descriptor is in exactly one place. */
  ghost predicate PlacesInv(s: State) {
    forall d: nat :: Places(s, d) == if d < s.total then 1 else 0
  }

  ghost predicate SizesInv(s: State) {
    && |s.free| + |s.queue| + Count(s.workers, InHand) + (if s.client.Filled? then 1 else 0) == s.total
    && Queued(s.client, s.p) <= s.p && (s.client.Filled? ==> s.client.i < s.p)
    && |s.queue| + Count(s.workers, IsRunning) <= s.p
    && (!s.client.Failed? ==>
          // only items of the current call are queued or running
          && s.counter == s.p - Queued(s.client, s.p) + |s.queue| + Count(s.workers, IsRunning)
          && s.counter <= s.p)
  }

  /** Items are taken in the order in which they were submitted, and those of finished calls, with
      those of this one that its latch has counted, are all that have been served. */
  ghost predicate WorkInv(s: State) {
    && s.submitted == s.taken + s.queue
    && s.served + s.counter == ItemsOf(s.p, s.calls + 1)
  }

  /** How many items `calls` calls have. */
  function ItemsOf(p: nat, calls: nat): nat {
    if calls == 0 then 0 else ItemsOf(p, calls - 1) + p
  }

  ghost predicate Inv(s: State) {
    PlacesInv(s) && SizesInv(s) && WorkInv(s)
  }

  lemma {:induction false} CountFirstNumbers(n: nat, d: nat)
    ensures Count(FirstNumbers(n), Is(d)) == if d < n then 1 else 0
  {
    if n > 0 {
      CountFirstNumbers(n - 1, d);
      CountPush<nat>(FirstNumbers(n - 1), n - 1, Is(d));
    }
  }

  lemma InitInv(s: State)
    requires Init(s)
    ensures Inv(s)
  {
    CountNone(s.workers, IsRunning);
    CountNone(s.workers, InHand);
    assert ItemsOf(s.p, 1) == s.p;
    forall d: nat ensures Places(s, d) == if d < s.total then 1 else 0 {
      CountFirstNumbers(s.total, d);
      CountNone(s.workers, Holds(d));
    }
  }

  lemma CallKeepsPlaces(s: State, d: nat)
    requires Enabled(s, Call)
    ensures Places(Do(s, Call), d) == Places(s, d)
  {
    if s.free != [] {
      CountPop(s.free, Is(d));
    }
    if s.client.Filled? {
      CountPush(s.queue, s.client.d, Is(d));
    }
  }

  lemma WorkKeepsPlaces(s: State, w: nat, d: nat)
    requires Enabled(s, Work(w))
    ensures Places(Do(s, Work(w)), d) == Places(s, d)
  {
    var s' := Do(s, Work(w));
    CountUpdate(s.workers, w, s'.workers[w], Holds(d));
    if s.workers[w].Getting? {
      CountPop(s.queue, Is(d));
    } else if s.workers[w].Counted? {
      CountPop(s'.free, Is(d));
    }
  }

  lemma SizesKept(s: State, a: Action)
    requires SizesInv(s) && Enabled(s, a)
    ensures SizesInv(Do(s, a))
  {
    if a.Work? {
      CountUpdate(s.workers, a.w, Do(s, a).workers[a.w], IsRunning);
      CountUpdate(s.workers, a.w, Do(s, a).workers[a.w], InHand);
    }
  }

  lemma WorkKept(s: State, a: Action)
    requires SizesInv(s) && WorkInv(s) && Enabled(s, a)
    ensures WorkInv(Do(s, a))
  {
    if a.Work? && s.workers[a.w].Getting? {
      assert s.taken + s.queue == (s.taken + [s.queue[0]]) + s.queue[1..];
    }
  }

  lemma StepKeepsInv(s: State, s': State)
    requires Inv(s) && Step(s, s')
    ensures Inv(s')
  {
    var a :| Enabled(s, a) && s' == Do(s, a);
    SizesKept(s, a);
    WorkKept(s, a);
    forall d: nat ensures Places(s', d) == if d < s'.total then 1 else 0 {
      match a
      case Call => CallKeepsPlaces(s, d);
      case Work(w) => WorkKeepsPlaces(s, w, d);
    }
  }

  lemma RunInv(run: seq<State>, k: nat)
    requires IsRun(Init, Step, run) && k < |run|
    ensures Inv(run[k])
  {
    forall s | Init(s) ensures Inv(s) { InitInv(s); }
    forall s, s' | Inv(s) && Step(s, s') ensures Inv(s') { StepKeepsInv(s, s'); }
    Always(Init, Step, Inv, run, k);
  }

  lemma {:induction false} SizesFixed(run: seq<State>, k: nat)
    requires IsRun(Init, Step, run) && k < |run|
    ensures run[k].total == run[0].total && run[k].p == run[0].p && |run[k].workers| == |run[0].workers|
  {
    if k > 0 {
      SizesFixed(run, k - 1);
      StepAt(Init, Step, run, k);
    }
  }

  lemma {:induction false} CountImplies(workers: seq<Worker>)
    ensures Count(workers, IsRunning) <= Count(workers, InHand) <= |workers|
  {
    if workers != [] {
      CountImplies(workers[..|workers| - 1]);
    }
  }

  /** At any moment of any number of calls: every descriptor is in exactly one place, at most P are
      queued and at most one is held by each worker; so when P and the number of workers together do
      not exceed the descriptors, the free list is not empty whenever one is taken from it. */
  lemma NeverRunsOut(run: seq<State>, k: nat)
    requires IsRun(Init, Step, run) && k < |run|
    ensures forall d: nat :: Places(run[k], d) == if d < run[k].total then 1 else 0
    ensures |run[k].queue| + Count(run[k].workers, IsRunning) <= run[0].p
    ensures run[0].p + |run[0].workers| <= run[0].total ==>
              && !run[k].client.Failed?
              && (run[k].client.Submitting? && run[k].client.i < run[k].p ==> run[k].free != [])
  {
    RunInv(run, k);
    SizesFixed(run, k);
    CountImplies(run[k].workers);
    if k > 0 {
      NeverRunsOut(run, k - 1);
      RunInv(run, k - 1);
      StepAt(Init, Step, run, k);
    }
  }

  /** Work is taken in the order in which it was submitted, and no call returns before all its items
      have been run: a call that may return leaves no item queued or running, and as many items have
      been served as all calls so far have submitted. */
  lemma CallsServed(run: seq<State>, k: nat)
    requires IsRun(Init, Step, run) && k < |run|
    ensures var s := run[k];
            && s.submitted == s.taken + s.queue
            && (s.client.Waiting? && Enabled(s, Call) ==>
                  && s.queue == [] && (forall w :: 0 <= w < |s.workers| ==> !s.workers[w].Running?)
                  && s.served == ItemsOf(s.p, s.calls + 1))
  {
    RunInv(run, k);
    var s := run[k];
    if s.client.Waiting? && Enabled(s, Call) {
      forall w | 0 <= w < |s.workers| ensures !s.workers[w].Running? {
        if s.workers[w].Running? {
          CountAtLeast(s.workers, w, IsRunning);
        }
      }
    }
  }

  /** The descriptor given back last is the first to be used again. */
  lemma LastFreedFirst(s: State, w: nat)
    requires w < |s.workers| && s.workers[w].Counted? && s.client.Submitting? && s.client.i != s.p
    ensures var s' := Do(s, Work(w)); Do(s', Call).client == Filled(s.client.i, s.workers[w].d)
  {
  }

  lemma Act(run: seq<State>, a: Action) returns (longer: seq<State>)
    requires IsRun(Init, Step, run) && Enabled(run[|run| - 1], a)
    ensures IsRun(Init, Step, longer) && longer[0] == run[0] && longer[|longer| - 1] == Do(run[|run| - 1], a)
  {
    assert Step(run[|run| - 1], Do(run[|run| - 1], a));
    longer := Extend(Init, Step, run, Do(run[|run| - 1], a));
  }

  /** Item i of a call is next, nothing is queued, and the first m workers sit on their descriptors. */
  ghost predicate Hoarded(s: State, m: nat, i: nat) {
    && s.client == Submitting(i) && i <= s.p && s.counter == s.p - i
    && s.queue == [] && |s.free| + m == s.total
    && m <= |s.workers|
    && forall w :: 0 <= w < |s.workers| ==> if w < m then s.workers[w].Counted? else s.workers[w].Getting?
  }

  ghost predicate Leads(run: seq<State>, longer: seq<State>) {
    && IsRun(Init, Step, run) && IsRun(Init, Step, longer)
    && run[0] == longer[0]
  }

  /** Worker m serves one item and keeps its descriptor. */
  lemma ServeOne(run: seq<State>, m: nat, i: nat) returns (longer: seq<State>)
    requires IsRun(Init, Step, run) && Hoarded(run[|run| - 1], m, i)
    requires var s := run[|run| - 1]; m < |s.workers| && m < s.total && i < s.p
    ensures Leads(run, longer) && Hoarded(longer[|longer| - 1], m + 1, i + 1)
  {
    longer := Act(run, Call);
    longer := Act(longer, Call);
    assert longer[|longer| - 1].queue == [run[|run| - 1].free[0]];
    longer := Act(longer, Work(m));
    longer := Act(longer, Work(m));
  }

  /** Worker m serves the rest of a call alone, and keeps only the last descriptor. */
  lemma ServeRest(run: seq<State>, m: nat, i: nat) returns (longer: seq<State>)
    requires IsRun(Init, Step, run) && Hoarded(run[|run| - 1], m, i)
    requires var s := run[|run| - 1]; m < |s.workers| && m < s.total && i < s.p
    ensures Leads(run, longer) && Hoarded(longer[|longer| - 1], m + 1, 0)
    decreases run[|run| - 1].p - i
  {
    longer := ServeOne(run, m, i);
    SizesFixed(longer, |longer| - 1);
    SizesFixed(run, |run| - 1);
    if i + 1 == run[|run| - 1].p {
      longer := Act(longer, Call);
      longer := Act(longer, Call);
    } else {
      longer := Act(longer, Work(m));
      longer := ServeRest(longer, m, i + 1);
    }
  }

  /** With every worker sitting on a descriptor, submissions alone exhaust the free list. */
  lemma Exhaust(run: seq<State>, i: nat) returns (longer: seq<State>)
    requires IsRun(Init, Step, run)
    requires var s := run[|run| - 1]; s.client == Submitting(i) && i + |s.free| < s.p
    ensures Leads(run, longer) && longer[|longer| - 1].client.Failed?
    decreases |run[|run| - 1].free|
  {
    longer := Act(run, Call);
    if !longer[|longer| - 1].client.Failed? {
      longer := Act(longer, Call);
      longer := Exhaust(longer, i + 1);
    }
  }

  lemma HoardAll(run: seq<State>, m: nat) returns (longer: seq<State>)
    requires IsRun(Init, Step, run) && Hoarded(run[|run| - 1], m, 0)
    requires var s := run[|run| - 1]; s.p > 0 && s.p + |s.workers| > s.total
    ensures Leads(run, longer) && longer[|longer| - 1].client.Failed?
    decreases |run[|run| - 1].workers| - m
  {
    var s := run[|run| - 1];
    if m < |s.workers| && m < s.total {
      longer := ServeRest(run, m, 0);
      SizesFixed(longer, |longer| - 1);
      SizesFixed(run, |run| - 1);
      longer := HoardAll(longer, m + 1);
    } else {
      longer := Exhaust(run, 0);
    }
  }

  /** Exactly which sizes are safe: some run makes wi_create fail if and only if P items and one
      descriptor for each worker are more than there are. */
  lemma RunsOutIff(s: State)
    requires Init(s) && s.p > 0
    ensures (exists run: seq<State> :: IsRun(Init, Step, run) && run[0] == s && run[|run| - 1].client.Failed?) <==>
            s.p + |s.workers| > s.total
  {
    if s.p + |s.workers| > s.total {
      assert IsRun(Init, Step, [s]);
      var run := HoardAll([s], 0);
      assert run[0] == s;
    } else {
      forall run: seq<State> | IsRun(Init, Step, run) && run[0] == s ensures !run[|run| - 1].client.Failed? {
        NeverRunsOut(run, |run| - 1);
      }
    }
  }

  /** The sizes in the source: 1024 descriptors, 4 items a call, 16 workers. */
  lemma SourceSizesSafe(run: seq<State>, k: nat)
    requires IsRun(Init, Step, run) && k < |run|
    requires run[0].total == 1024 && run[0].p == 4 && |run[0].workers| == 16
    ensures !run[k].client.Failed?
  {
    NeverRunsOut(run, k);
  }
}
