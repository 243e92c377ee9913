/** The parallel sum of aula-05-13a/tp_adder.c: par_adder splits an array into P ranges, submits one
    work item for each to an idle pool of workers, waits on a latch that lives on its own stack
    (aula-05-13a/cdl.c), adds up the partial sums and destroys the latch.
    First the sequential loops, then all interleavings of the caller and the workers. */
module ParallelAdder {
  import opened Arithmetic
  import opened Runs

  function Total(s: seq<int>): int {
    if s == [] then 0 else Total(s[..|s| - 1]) + s[|s| - 1]
  }

  lemma {:induction false} TotalSplit(a: seq<int>, b: seq<int>)
    ensures Total(a + b) == Total(a) + Total(b)
  {
    if b == [] {
      assert a + b == a;
    } else {
      assert (a + b)[..|a + b| - 1] == a + b[..|b| - 1];
      TotalSplit(a, b[..|b| - 1]);
    }
  }

  /** With TotalSplit this says what the total of any sequence is. */
  lemma TotalOne(x: int)
    ensures Total([x]) == x
  {
    assert [x][..0] == [];
  }

  /** seq_adder. */
  method SeqAdder(vals: array<int>, nvals: nat) returns (total: int)
    requires nvals <= vals.Length
    ensures total == Total(vals[..nvals])
  {
    total := 0;
    for i := 0 to nvals
      invariant total == Total(vals[..i])
    {
      assert vals[..i + 1][..i] == vals[..i];
      total := total + vals[i];
    }
  }

  /** The loop of oper_func over its range. */
  method RangeSum(vals: array<int>, start: nat, end: nat) returns (partial: int)
    requires start <= end <= vals.Length
    ensures partial == Total(vals[start..end])
  {
    partial := 0;
    var curr := start;
    while curr < end
      invariant start <= curr <= end
      invariant partial == Total(vals[start..curr])
    {
      assert vals[start..curr + 1][..curr - start] == vals[start..curr];
      partial := partial + vals[curr];
      curr := curr + 1;
    }
  }

  datatype Range = Range(start: nat, end: nat, count: int)

  function RangeSize(n: nat, p: nat): nat
    requires p > 0
  {
    n / p
  }

  /** How many values the first `j` ranges hold: where the cursor stands after j steps. */
  function Covered(n: nat, p: nat, j: nat): nat
    requires p > 0
  {
    if j == 0 then 0 else Covered(n, p, j - 1) + RangeSize(n, p)
  }

  lemma {:induction false} CoveredIs(n: nat, p: nat, j: nat)
    requires p > 0
    ensures Covered(n, p, j) == j * RangeSize(n, p)
  {
    if j > 0 {
      CoveredIs(n, p, j - 1);
      assert j * RangeSize(n, p) == (j - 1) * RangeSize(n, p) + RangeSize(n, p);
    }
  }

  /** Range i when the array of n values is split for p items, as the submitting loop sets it up. */
  function RangeOf(n: nat, p: nat, i: nat): Range
    requires p > 0
  {
    var start := Covered(n, p, i);
    Range(start, if start + RangeSize(n, p) > n then n else start + RangeSize(n, p), 0)
  }

  /** The clamp on `end` never fires: the ranges are adjacent and all of one size. */
  lemma RangesTile(n: nat, p: nat, i: nat)
    requires i < p
    ensures RangeOf(n, p, i).start == i * RangeSize(n, p)
    ensures RangeOf(n, p, i).end == (i + 1) * RangeSize(n, p) <= n
    ensures RangeOf(n, p, i).start <= RangeOf(n, p, i).end
    ensures RangeOf(n, p, i + 1).start == RangeOf(n, p, i).end == Covered(n, p, i + 1)
  {
    CoveredIs(n, p, i);
    CoveredIs(n, p, i + 1);
    InSplit(n, p, i + 1);
  }

  lemma InSplit(n: nat, p: nat, j: nat)
    requires 0 < p && j <= p
    ensures j * RangeSize(n, p) <= p * RangeSize(n, p) <= n
  {
    var size := RangeSize(n, p);
    assert n == p * size + n % p;
    MulNonNegative(p - j, size);
    assert (p - j) * size == p * size - j * size;
  }

  /** The submitting loop of par_adder, which steps a cursor by one range at a time. */
  method SplitRanges(n: nat, ranges: array<Range>)
    requires ranges.Length > 0
    modifies ranges
    ensures forall i :: 0 <= i < ranges.Length ==> ranges[i] == RangeOf(n, ranges.Length, i)
    ensures ranges[0].start == 0 && ranges[ranges.Length - 1].end == Covered(n, ranges.Length, ranges.Length) <= n
    ensures forall i :: 0 < i < ranges.Length ==> ranges[i].start == ranges[i - 1].end
  {
    var p, curr := ranges.Length, 0;
    var rangeSize := n / p;
    for i := 0 to p
      invariant curr == Covered(n, p, i)
      invariant forall k :: 0 <= k < i ==> ranges[k] == RangeOf(n, p, k)
    {
      ranges[i] := Range(curr, if curr + rangeSize > n then n else curr + rangeSize, 0);
      curr := curr + rangeSize;
    }
    RangesInRow(n, p);
  }

  lemma RangesInRow(n: nat, p: nat)
    requires p > 0
    ensures RangeOf(n, p, 0).start == 0 && RangeOf(n, p, p - 1).end == Covered(n, p, p) <= n
    ensures forall i :: 0 < i < p ==> RangeOf(n, p, i).start == RangeOf(n, p, i - 1).end
  {
    RangesTile(n, p, p - 1);
    forall i: nat | 0 < i < p ensures RangeOf(n, p, i).start == RangeOf(n, p, i - 1).end {
      RangesTile(n, p, i - 1);
    }
  }

  /** The collecting loop of par_adder, once every range holds the sum of its part. */
  method CollectSums(ghost vals: seq<int>, ranges: array<Range>) returns (total: int)
    requires ranges.Length > 0
    requires forall i :: 0 <= i < ranges.Length ==>
               var r := ranges[i];
               && r.(count := 0) == RangeOf(|vals|, ranges.Length, i)
               && r.start <= r.end <= |vals| && r.count == Total(vals[r.start..r.end])
    ensures Covered(|vals|, ranges.Length, ranges.Length) <= |vals|
    ensures total == Total(vals[..Covered(|vals|, ranges.Length, ranges.Length)])
  {
    total := 0;
    ghost var n, p := |vals|, ranges.Length;
    for i := 0 to ranges.Length
      invariant Covered(n, p, i) <= n && total == Total(vals[..Covered(n, p, i)])
    {
      RangesTile(n, p, i);
      NextRange(vals, p, i);
      total := total + ranges[i].count;
    }
  }

  lemma NextRange(vals: seq<int>, p: nat, i: nat)
    requires i < p && Covered(|vals|, p, i) <= Covered(|vals|, p, i + 1) <= |vals|
    ensures Total(vals[..Covered(|vals|, p, i + 1)])
         == Total(vals[..Covered(|vals|, p, i)]) + Total(vals[Covered(|vals|, p, i)..Covered(|vals|, p, i + 1)])
  {
    var a, b := Covered(|vals|, p, i), Covered(|vals|, p, i + 1);
    assert vals[..b] == vals[..a] + vals[a..b];
    TotalSplit(vals[..a], vals[a..b]);
  }

  datatype Holder = Free | ByMain | ByWorker(w: nat)

  /** par_adder. Waiting is inside pthread_cond_wait. */
  datatype Main =
    | Submitting(i: nat)
    | WantsLock
    | Checking
    | Waiting
    | Leaving
    | Collecting(j: nat, total: int)
    | Returned(total: int)

  /** A pool worker: in the pool's queue_get, in oper_func, or in cdl_signal_one. */
  datatype Worker =
    | Getting
    | Adding(i: nat)
    | WantsLatch
    | Decrementing
    | Broadcasting
    | Unlocking

  datatype State = State(
    vals: seq<int>, p: nat,
    queue: seq<nat>,     // submitted ranges that no worker has taken
    ranges: seq<Range>,
    counter: int, lock: Holder,
    main: Main,
    workers: seq<Worker>)

  datatype Action = Caller | Work(worker: nat) | SpuriousWakeup

  predicate Enabled(s: State, a: Action) {
    match a
    case Caller =>
      (match s.main
       case WantsLock => s.lock.Free?
       case Waiting => false
       case Returned(_) => false
       case _ => true)
    case Work(w) =>
      && w < |s.workers|
      && (match s.workers[w]
          case Getting => s.queue != []
          case WantsLatch => s.lock.Free?
          case _ => true)
    case SpuriousWakeup => s.main.Waiting?
  }

  function DoCaller(s: State): State
    requires s.p == |s.ranges| > 0 && Enabled(s, Caller)
  {
    match s.main
    case Submitting(i) =>
      if i < s.p then
        s.(ranges := s.ranges[i := RangeOf(|s.vals|, s.p, i)], queue := s.queue + [i], main := Submitting(i + 1))
      else
        s.(main := WantsLock)
    case WantsLock => s.(main := Checking, lock := ByMain)
    case Checking => if s.counter > 0 then s.(main := Waiting, lock := Free) else s.(main := Leaving)
    case Leaving => s.(main := Collecting(0, 0), lock := Free)
    case Collecting(j, total) =>
      if j < s.p then s.(main := Collecting(j + 1, total + s.ranges[j].count)) else s.(main := Returned(total))
  }

  predicate InBounds(r: Range, n: nat) {
    r.start <= r.end <= n
  }

  function DoWork(s: State, w: nat): State
    requires Enabled(s, Work(w))
    requires s.workers[w].Adding? ==>
               s.workers[w].i < |s.ranges| && InBounds(s.ranges[s.workers[w].i], |s.vals|)
  {
    match s.workers[w]
    case Getting => s.(workers := s.workers[w := Adding(s.queue[0])], queue := s.queue[1..])
    case Adding(i) =>
      var r := s.ranges[i];
      s.(workers := s.workers[w := WantsLatch],
         ranges := s.ranges[i := r.(count := Total(s.vals[r.start..r.end]))])
    case WantsLatch => s.(workers := s.workers[w := Decrementing], lock := ByWorker(w))
    case Decrementing =>
      s.(workers := s.workers[w := if s.counter - 1 == 0 then Broadcasting else Unlocking],
         counter := s.counter - 1)
    case Broadcasting =>
      s.(workers := s.workers[w := Unlocking], main := if s.main.Waiting? then WantsLock else s.main)
    case Unlocking => s.(workers := s.workers[w := Getting], lock := Free)
  }

  /** A call on an idle pool. */
  ghost predicate Init(s: State) {
    && s.p == |s.ranges| > 0
    && s.queue == [] && s.counter == s.p && s.lock.Free?
    && s.main == Submitting(0)
    && |s.workers| > 0 && forall w :: 0 <= w < |s.workers| ==> s.workers[w].Getting?
  }

  ghost predicate Ready(s: State) {
    && s.p == |s.ranges| > 0
    && forall w :: 0 <= w < |s.workers| && s.workers[w].Adding? ==>
         s.workers[w].i < s.p && InBounds(s.ranges[s.workers[w].i], |s.vals|)
  }

  ghost predicate Acts(s: State, a: Action, s': State) {
    && Ready(s) && Enabled(s, a)
    && match a
       case Caller => s' == DoCaller(s)
       case Work(w) => s' == DoWork(s, w)
       case SpuriousWakeup => s' == s.(main := WantsLock)
  }

  ghost predicate Step(s: State, s': State) {
    exists a :: Acts(s, a, s')
  }

  function Submitted(s: State): nat {
    if s.main.Submitting? then s.main.i else s.p
  }

  /** A worker that still has to count its range down. */
  predicate Pending(w: Worker) { w.Adding? || w.WantsLatch? || w.Decrementing? }

  predicate HoldsLatch(w: Worker) { w.Decrementing? || w.Broadcasting? || w.Unlocking? }

  /** The caller is past its wait. */
  predicate Past(m: Main) { m.Leaving? || m.Collecting? || m.Returned? }

  ghost predicate LatchInv(s: State) {
    && (s.lock.ByMain? <==> s.main.Checking? || s.main.Leaving?)
    && (forall w :: 0 <= w < |s.workers| ==> (HoldsLatch(s.workers[w]) <==> s.lock == ByWorker(w)))
    && (s.lock.ByWorker? ==> s.lock.w < |s.workers|)
    // the counter counts the ranges that still have to be signalled
    && s.counter == (s.p - Submitted(s)) + |s.queue| + Count(s.workers, Pending)
    // the caller is never left waiting with nobody to wake it
    && (s.main.Waiting? ==> s.counter > 0 || (s.lock.ByWorker? && s.workers[s.lock.w].Broadcasting?))
    // past the wait nobody is left inside the latch
    && (Past(s.main) ==> s.counter == 0 && !s.lock.ByWorker?)
  }

  ghost predicate SumsInv(s: State) {
    && s.p == |s.ranges| > 0 && |s.workers| > 0
    && Submitted(s) <= s.p
    && (forall k :: 0 <= k < |s.queue| ==> s.queue[k] < Submitted(s))
    && (forall w :: 0 <= w < |s.workers| && s.workers[w].Adding? ==> s.workers[w].i < Submitted(s))
    // a submitted range is queued, being added, or has its sum
    && (forall i :: 0 <= i < Submitted(s) ==>
          && InBounds(s.ranges[i], |s.vals|)
          && (i in s.queue || Adding(i) in s.workers
              || s.ranges[i].count == Total(s.vals[s.ranges[i].start..s.ranges[i].end])))
  }

  /** The submitted ranges are those of the split. */
  ghost predicate LaidOut(s: State) {
    && 0 < s.p == |s.ranges| && Submitted(s) <= s.p
    && forall i :: 0 <= i < Submitted(s) ==> s.ranges[i].(count := 0) == RangeOf(|s.vals|, s.p, i)
  }

  ghost predicate RangesInv(s: State) {
    SumsInv(s) && LaidOut(s)
  }

  ghost predicate ResultInv(s: State)
    requires s.p > 0
  {
    match s.main
    case Collecting(j, total) => j <= s.p && SumsTo(s.vals, Covered(|s.vals|, s.p, j), total)
    case Returned(total) => SumsTo(s.vals, Covered(|s.vals|, s.p, s.p), total)
    case _ => true
  }

  predicate SumsTo(vals: seq<int>, k: nat, total: int) {
    k <= |vals| && total == Total(vals[..k])
  }

  ghost predicate Inv(s: State) {
    RangesInv(s) && LatchInv(s) && ResultInv(s)
  }

  lemma InitInv(s: State)
    requires Init(s)
    ensures Inv(s)
  {
    CountNone(s.workers, Pending);
  }

  /** Once the caller is past its wait, every worker is back at the pool's queue, which is empty:
      nothing will touch the ranges or the latch again. */
  lemma LatchQuiet(s: State)
    requires LatchInv(s) && Past(s.main)
    ensures s.queue == [] && Submitted(s) == s.p
    ensures forall w :: 0 <= w < |s.workers| ==> s.workers[w].Getting?
  {
    forall w | 0 <= w < |s.workers| ensures s.workers[w].Getting? {
      if Pending(s.workers[w]) {
        CountAtLeast(s.workers, w, Pending);
      }
    }
  }

  lemma CallerKeepsLatch(s: State)
    requires RangesInv(s) && LatchInv(s) && Enabled(s, Caller)
    ensures LatchInv(DoCaller(s))
  {
  }

  lemma CallerKeepsRanges(s: State)
    requires RangesInv(s) && Enabled(s, Caller)
    ensures RangesInv(DoCaller(s))
  {
    if s.main.Submitting? && s.main.i < s.p {
      var i, s' := s.main.i, DoCaller(s);
      RangesTile(|s.vals|, s.p, i);
      assert s'.queue[|s.queue|] == i;
      assert forall k :: k in s.queue ==> k in s'.queue;
    }
  }

  lemma CallerKeepsResult(s: State)
    requires Inv(s) && Enabled(s, Caller)
    ensures ResultInv(DoCaller(s))
  {
    if s.main.Collecting? && s.main.j < s.p {
      var j, n := s.main.j, |s.vals|;
      LatchQuiet(s);
      RangesTile(n, s.p, j);
      NextRange(s.vals, s.p, j);
      assert Adding(j) !in s.workers;
      assert s.ranges[j].(count := 0) == RangeOf(n, s.p, j);
    }
  }

  /** A worker's move, seen from the latch. */
  lemma WorkKeepsLatch(s: State, w: nat)
    requires SumsInv(s) && LatchInv(s) && Enabled(s, Work(w))
    ensures LatchInv(DoWork(s, w))
  {
    CountUpdate(s.workers, w, DoWork(s, w).workers[w], Pending);
    if Past(s.main) {
      LatchQuiet(s);
    }
  }

  lemma OthersStillAdd(workers: seq<Worker>, w: nat, x: Worker, i: nat)
    requires w < |workers| && Adding(i) in workers && workers[w] != Adding(i)
    ensures Adding(i) in workers[w := x]
  {
    var k :| 0 <= k < |workers| && workers[k] == Adding(i);
    assert workers[w := x][k] == Adding(i);
  }

  lemma WorkKeepsSums(s: State, w: nat)
    requires SumsInv(s) && Enabled(s, Work(w))
    ensures SumsInv(DoWork(s, w))
  {
    var s' := DoWork(s, w);
    forall i | 0 <= i < Submitted(s)
      ensures i in s'.queue || Adding(i) in s'.workers
              || s'.ranges[i].count == Total(s.vals[s'.ranges[i].start..s'.ranges[i].end])
    {
      if i in s.queue {
        if s.workers[w].Getting? {
          assert s.queue == [s.queue[0]] + s.queue[1..];
          assert s'.workers[w] == Adding(s.queue[0]);
        }
      } else if Adding(i) in s.workers && s.workers[w] != Adding(i) {
        OthersStillAdd(s.workers, w, s'.workers[w], i);
      }
    }
  }

  /** A worker changes no more of a range than its count. */
  lemma WorkKeepsLayout(s: State, w: nat)
    requires SumsInv(s) && LaidOut(s) && Enabled(s, Work(w))
    ensures LaidOut(DoWork(s, w))
  {
  }

  lemma StepKeepsInv(s: State, s': State)
    requires Inv(s) && Step(s, s')
    ensures Inv(s')
  {
    var a :| Acts(s, a, s');
    match a
    case Caller =>
      CallerKeepsRanges(s);
      CallerKeepsLatch(s);
      CallerKeepsResult(s);
    case Work(w) =>
      WorkKeepsSums(s, w);
      WorkKeepsLayout(s, w);
      WorkKeepsLatch(s, w);
    case SpuriousWakeup =>
  }

  lemma RunInv(run: seq<State>, k: nat)
    requires IsRun(Init, Step, run) && k < |run|
    ensures Inv(run[k])
  {
    forall s | Init(s) ensures Inv(s) { InitInv(s); }
    forall s, s' | Inv(s) && Step(s, s') ensures Inv(s') { StepKeepsInv(s, s'); }
    Always(Init, Step, Inv, run, k);
  }

  lemma {:induction false} InputsFixed(run: seq<State>, k: nat)
    requires IsRun(Init, Step, run) && k < |run|
    ensures run[k].vals == run[0].vals && run[k].p == run[0].p && |run[k].workers| == |run[0].workers|
  {
    if k > 0 {
      InputsFixed(run, k - 1);
      StepAt(Init, Step, run, k);
    }
  }

  /** Some thread can act, without any spurious wakeup, until the call has returned. */
  lemma NeverStuck(s: State)
    requires Inv(s) && !s.main.Returned?
    ensures Enabled(s, Caller) || exists w :: Enabled(s, Work(w))
  {
    if s.lock.ByWorker? {
      assert Enabled(s, Work(s.lock.w));
    } else if !Enabled(s, Caller) {
      if s.queue != [] {
        assert Enabled(s, Work(0)) || Enabled(s, Caller);
      }
      if w :| 0 <= w < |s.workers| && Pending(s.workers[w]) {
        assert Enabled(s, Work(w));
      } else {
        CountNone(s.workers, Pending);
      }
    }
  }

  function WorkerWork(w: Worker): nat {
    match w
    case Getting => 0
    case Adding(_) => 7
    case WantsLatch => 6
    case Decrementing => 5
    case Broadcasting => 4
    case Unlocking => 1
  }

  function MainWork(m: Main, p: nat): int {
    match m
    case Submitting(i) => p + 6 + 9 * (p - i)
    case WantsLock => p + 5
    case Checking => p + 4
    case Waiting => p + 3
    case Leaving => p + 2
    case Collecting(j, _) => p + 1 - j
    case Returned(_) => 0
  }

  function Remaining(s: State): int {
    MainWork(s.main, s.p) + 8 * |s.queue| + Sum(s.workers, WorkerWork)
  }

  lemma WorkIsProgress(s: State, w: nat)
    requires Ready(s) && Enabled(s, Work(w))
    ensures Remaining(DoWork(s, w)) < Remaining(s)
  {
    SumUpdate(s.workers, w, DoWork(s, w).workers[w], WorkerWork);
  }

  lemma RemainingNonNegative(s: State)
    requires Inv(s)
    ensures Remaining(s) >= 0
  {
  }

  /** Every action but a spurious wakeup is progress, and a spurious wakeup costs two actions: the
      call returns unless it is woken for nothing infinitely often. */
  lemma EveryActionIsProgress(s: State, a: Action, s': State)
    requires Inv(s) && Acts(s, a, s')
    ensures 0 <= Remaining(s')
    ensures if a.SpuriousWakeup? then Remaining(s') == Remaining(s) + 2 else Remaining(s') < Remaining(s)
  {
    StepKeepsInv(s, s');
    RemainingNonNegative(s');
    if a.Work? {
      WorkIsProgress(s, a.worker);
    }
  }

  predicate ForNoReason(a: Action) { a.SpuriousWakeup? }

  lemma ActionPays(s: State, a: Action, s': State)
    requires Inv(s) && Acts(s, a, s')
    ensures Inv(s') && 0 <= Remaining(s) && Remaining(s') <= Remaining(s) + if ForNoReason(a) then 2 else -1
  {
    assert Step(s, s');
    StepKeepsInv(s, s');
    EveryActionIsProgress(s, a, s');
    RemainingNonNegative(s);
  }

  /** Over a whole call: the actions, but for spurious wakeups, are no more than a bound fixed at the
      start and two for each spurious wakeup. */
  lemma CallEnds(run: seq<State>, actions: seq<Action>)
    requires IsRun(Init, Step, run) && Performs(Acts, run, actions)
    ensures |actions| - Count(actions, ForNoReason) <= Remaining(run[0]) + 2 * Count(actions, ForNoReason)
  {
    InitInv(run[0]);
    forall s | Inv(s) ensures Remaining(s) >= 0 { RemainingNonNegative(s); }
    forall s, a, s' | Inv(s) && Acts(s, a, s')
      ensures Inv(s') && Remaining(s') <= Remaining(s) + if ForNoReason(a) then 2 else -1
    {
      ActionPays(s, a, s');
    }
    Budget(Acts, Inv, Remaining, ForNoReason, 2, run, actions);
    RemainingNonNegative(run[|run| - 1]);
  }

  /** The value of par_adder in every interleaving of the caller with any number of workers: the
      sum of the first P * (n / P) values. On return the pool is idle again, so the next call
      starts from the same kind of state, and nobody is inside the latch being destroyed. */
  lemma ParAdderCorrect(run: seq<State>)
    requires IsRun(Init, Step, run)
    ensures var s := run[|run| - 1];
            && (s.main.Returned? ==>
                  && Covered(|run[0].vals|, run[0].p, run[0].p) <= |run[0].vals|
                  && s.main.total == Total(run[0].vals[..Covered(|run[0].vals|, run[0].p, run[0].p)])
                  && s.queue == [] && s.lock.Free? && s.counter == 0
                  && forall w :: 0 <= w < |s.workers| ==> s.workers[w].Getting?)
            && Ready(s)
            && (!s.main.Returned? ==> Enabled(s, Caller) || exists w :: Enabled(s, Work(w)))
  {
    var k := |run| - 1;
    RunInv(run, k);
    InputsFixed(run, k);
    if run[k].main.Returned? {
      LatchQuiet(run[k]);
    } else {
      NeverStuck(run[k]);
    }
  }

  /** The tail that the split leaves out. It is empty exactly when P divides n. */
  function Tail(vals: seq<int>, p: nat): seq<int>
    requires p > 0 && Covered(|vals|, p, p) <= |vals|
  {
    vals[Covered(|vals|, p, p)..]
  }

  lemma SplitCovers(vals: seq<int>, p: nat)
    requires p > 0
    ensures Covered(|vals|, p, p) == p * (|vals| / p) <= |vals|
    ensures |Tail(vals, p)| == |vals| % p
  {
    CoveredIs(|vals|, p, p);
    assert |vals| == p * (|vals| / p) + |vals| % p;
  }

  /** par_adder agrees with seq_adder exactly when the values the split leaves out add up to zero,
      so always when P divides their number. */
  lemma AgreesWithSequential(vals: seq<int>, p: nat)
    requires p > 0
    ensures Covered(|vals|, p, p) <= |vals|
    ensures Total(vals[..Covered(|vals|, p, p)]) == Total(vals) <==> Total(Tail(vals, p)) == 0
    ensures |vals| % p == 0 ==> Total(vals[..Covered(|vals|, p, p)]) == Total(vals)
  {
    SplitCovers(vals, p);
    var c := Covered(|vals|, p, p);
    assert vals == vals[..c] + vals[c..];
    TotalSplit(vals[..c], vals[c..]);
  }

  /** par_adder's value for `vals` is seq_adder's. */
  ghost predicate Agrees(vals: seq<int>, p: nat)
    requires p > 0
  {
    Covered(|vals|, p, p) <= |vals| && Total(vals[..Covered(|vals|, p, p)]) == Total(vals)
  }

  function Ones(n: nat): (r: seq<int>)
    ensures |r| == n && Total(r) == n
  {
    if n == 0 then [] else
      var front := Ones(n - 1);
      assert (front + [1])[..n - 1] == front;
      front + [1]
  }

  /** The sizes for which the two agree whatever the values: those that P divides. For any other an
      array of ones tells them apart. */
  lemma AgreesForSizeIff(n: nat, p: nat)
    requires p > 0
    ensures (forall vals: seq<int> :: |vals| == n ==> Agrees(vals, p)) <==> n % p == 0
  {
    if n % p == 0 {
      forall vals: seq<int> | |vals| == n ensures Agrees(vals, p) {
        AgreesWithSequential(vals, p);
      }
    } else {
      var ones, c := Ones(n), Covered(n, p, p);
      SplitCovers(ones, p);
      assert ones == ones[..c] + ones[c..];
      TotalSplit(ones[..c], ones[c..]);
      OnesTail(n, c);
      assert !Agrees(ones, p);
    }
  }

  lemma {:induction false} OnesTail(n: nat, c: nat)
    requires c <= n
    ensures Total(Ones(n)[c..]) == n - c
  {
    if c < n {
      var front := Ones(n - 1);
      OnesTail(n - 1, c);
      assert Ones(n)[c..] == front[c..] + [1];
      TotalSplit(front[c..], [1]);
      assert [1][..0] == [];
    }
  }
}
