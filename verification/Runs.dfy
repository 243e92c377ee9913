/** Vocabulary shared by every step system of the project: runs, and counting threads.
    A protocol is a set of initial states and a step relation between states; one step is one
    atomic action of one thread, so quantifying over runs quantifies over every interleaving. */
module Runs {

  /** The state at k follows from the one before. */
  ghost predicate Follows<S(!new)>(step: (S, S) -> bool, run: seq<S>, k: nat) {
    0 < k < |run| && step(run[k - 1], run[k])
  }

  /** `run` starts in an initial state and every state but the first follows from the one before. */
  ghost predicate IsRun<S(!new)>(init: S -> bool, step: (S, S) -> bool, run: seq<S>) {
    && |run| > 0
    && init(run[0])
    && forall k: nat {:trigger Follows(step, run, k)} :: 0 < k < |run| ==> Follows(step, run, k)
  }

  lemma StepAt<S(!new)>(init: S -> bool, step: (S, S) -> bool, run: seq<S>, k: nat)
    requires IsRun(init, step, run) && 0 < k < |run|
    ensures step(run[k - 1], run[k])
  {
    assert Follows(step, run, k);
  }

  /** One more step makes a longer run. */
  lemma Extend<S(!new)>(init: S -> bool, step: (S, S) -> bool, run: seq<S>, s: S) returns (longer: seq<S>)
    requires IsRun(init, step, run) && step(run[|run| - 1], s)
    ensures IsRun(init, step, longer) && longer == run + [s]
  {
    longer := run + [s];
    forall k: nat | 0 < k < |longer| ensures Follows(step, longer, k) {
      if k < |run| {
        StepAt(init, step, run, k);
      }
    }
  }

  /** Induction over a run: what holds at the start and is kept by every step always holds. */
  lemma Always<S(!new)>(init: S -> bool, step: (S, S) -> bool, inv: S -> bool, run: seq<S>, k: nat)
    requires IsRun(init, step, run) && k < |run|
    requires forall s :: init(s) ==> inv(s)
    requires forall s, t :: inv(s) && step(s, t) ==> inv(t)
    ensures inv(run[k])
  {
    if k > 0 {
      Always(init, step, inv, run, k - 1);
      StepAt(init, step, run, k);
    }
  }

  /** A rank that every step lowers bounds the length of every run. */
  lemma Bounded<S(!new)>(init: S -> bool, step: (S, S) -> bool, inv: S -> bool, rank: S -> nat,
                         run: seq<S>, k: nat)
    requires IsRun(init, step, run) && k < |run|
    requires forall s :: init(s) ==> inv(s)
    requires forall s, t :: inv(s) && step(s, t) ==> inv(t)
    requires forall s, t :: inv(s) && step(s, t) ==> rank(t) < rank(s)
    ensures k + rank(run[k]) <= rank(run[0])
  {
    if k > 0 {
      Bounded(init, step, inv, rank, run, k - 1);
      Always(init, step, inv, run, k - 1);
      StepAt(init, step, run, k);
    }
  }

  /** How many elements of `s` satisfy `p`: threads at a program point, for instance. */
  function Count<T>(s: seq<T>, p: T -> bool): nat {
    if s == [] then 0 else Count(s[..|s| - 1], p) + (if p(s[|s| - 1]) then 1 else 0)
  }

  /** One thread moving changes a count by that thread alone. */
  lemma {:induction false} CountUpdate<T>(s: seq<T>, i: nat, x: T, p: T -> bool)
    requires i < |s|
    ensures Count(s[i := x], p) == Count(s, p) - (if p(s[i]) then 1 else 0) + (if p(x) then 1 else 0)
  {
    var n := |s| - 1;
    if i == n {
      assert s[i := x][..n] == s[..n];
    } else {
      assert s[i := x][..n] == s[..n][i := x];
      CountUpdate(s[..n], i, x, p);
    }
  }

  lemma {:induction false} CountAtLeast<T>(s: seq<T>, i: nat, p: T -> bool)
    requires i < |s| && p(s[i])
    ensures Count(s, p) >= 1
  {
    if i < |s| - 1 {
      CountAtLeast(s[..|s| - 1], i, p);
    }
  }

  /** A positive count has a witness. */
  lemma {:induction false} CountWitness<T>(s: seq<T>, p: T -> bool) returns (i: nat)
    requires Count(s, p) > 0
    ensures i < |s| && p(s[i])
  {
    if p(s[|s| - 1]) {
      i := |s| - 1;
    } else {
      i := CountWitness(s[..|s| - 1], p);
    }
  }

  lemma {:induction false} CountNone<T>(s: seq<T>, p: T -> bool)
    requires forall i :: 0 <= i < |s| ==> !p(s[i])
    ensures Count(s, p) == 0
  {
    if s != [] {
      CountNone(s[..|s| - 1], p);
    }
  }

  lemma {:induction false} CountMost<T>(s: seq<T>, p: T -> bool)
    ensures Count(s, p) <= |s|
    ensures (forall i :: 0 <= i < |s| ==> p(s[i])) ==> Count(s, p) == |s|
  {
    if s != [] {
      CountMost(s[..|s| - 1], p);
    }
  }

  function Sum<T>(s: seq<T>, weight: T -> nat): nat {
    if s == [] then 0 else Sum(s[..|s| - 1], weight) + weight(s[|s| - 1])
  }

  lemma {:induction false} SumUpdate<T>(s: seq<T>, i: nat, x: T, weight: T -> nat)
    requires i < |s|
    ensures Sum(s[i := x], weight) + weight(s[i]) == Sum(s, weight) + weight(x)
  {
    var n := |s| - 1;
    if i == n {
      assert s[i := x][..n] == s[..n];
    } else {
      assert s[i := x][..n] == s[..n][i := x];
      SumUpdate(s[..n], i, x, weight);
    }
  }

  lemma {:induction false} SumAppend<T>(a: seq<T>, b: seq<T>, weight: T -> nat)
    ensures Sum(a + b, weight) == Sum(a, weight) + Sum(b, weight)
  {
    if b == [] {
      assert a + b == a;
    } else {
      assert (a + b)[..|a + b| - 1] == a + b[..|b| - 1];
      SumAppend(a, b[..|b| - 1], weight);
    }
  }

  lemma SumPush<T>(s: seq<T>, x: T, weight: T -> nat)
    ensures Sum(s + [x], weight) == Sum(s, weight) + weight(x)
  {
    assert (s + [x])[..|s|] == s;
  }

  lemma SumPop<T>(s: seq<T>, weight: T -> nat)
    requires s != []
    ensures Sum(s, weight) == weight(s[0]) + Sum(s[1..], weight)
  {
    assert s == [s[0]] + s[1..];
    SumAppend([s[0]], s[1..], weight);
    assert [s[0]][..0] == [];
  }

  lemma CountPush<T>(s: seq<T>, x: T, p: T -> bool)
    ensures Count(s + [x], p) == Count(s, p) + if p(x) then 1 else 0
  {
    assert (s + [x])[..|s|] == s;
  }

  lemma {:induction false} CountPop<T>(s: seq<T>, p: T -> bool)
    requires s != []
    ensures Count(s, p) == (if p(s[0]) then 1 else 0) + Count(s[1..], p)
  {
    if |s| > 1 {
      assert s[..|s| - 1][1..] == s[1..][..|s| - 2];
      CountPop(s[..|s| - 1], p);
    } else {
      assert s[1..] == [] && s[..0] == [];
    }
  }

  // ----- runs with the actions taken ----------------------------------------------------------------

  /** Action k leads from state k to the next. */
  ghost predicate Took<S(!new), A(!new)>(acts: (S, A, S) -> bool, run: seq<S>, actions: seq<A>, k: nat) {
    k < |actions| && k + 1 < |run| && acts(run[k], actions[k], run[k + 1])
  }

  ghost predicate Performs<S(!new), A(!new)>(acts: (S, A, S) -> bool, run: seq<S>, actions: seq<A>) {
    && |run| == |actions| + 1
    && forall k: nat {:trigger Took(acts, run, actions, k)} :: k < |actions| ==> Took(acts, run, actions, k)
  }

  lemma PerformsPrefix<S(!new), A(!new)>(acts: (S, A, S) -> bool, run: seq<S>, actions: seq<A>)
    requires Performs(acts, run, actions) && actions != []
    ensures var n := |actions| - 1;
            && Performs(acts, run[..n + 1], actions[..n])
            && acts(run[n], actions[n], run[n + 1])
  {
    var n := |actions| - 1;
    assert Took(acts, run, actions, n);
    var shorter, fewer := run[..n + 1], actions[..n];
    forall k: nat | k < n ensures Took(acts, shorter, fewer, k) {
      assert Took(acts, run, actions, k);
    }
  }

  /** Every run comes about by some actions. */
  lemma ActionsOf<S(!new), A(!new)>(init: S -> bool, step: (S, S) -> bool, acts: (S, A, S) -> bool, run: seq<S>, n: nat)
    returns (actions: seq<A>)
    requires IsRun(init, step, run) && n < |run|
    requires forall s, t :: step(s, t) ==> exists a :: acts(s, a, t)
    ensures Performs(acts, run[..n + 1], actions)
  {
    if n == 0 {
      actions := [];
    } else {
      var before := ActionsOf(init, step, acts, run, n - 1);
      StepAt(init, step, run, n);
      var a :| acts(run[n - 1], a, run[n]);
      actions := before + [a];
      var shorter := run[..n + 1];
      forall k: nat | k < n ensures Took(acts, shorter, actions, k) {
        if k < n - 1 {
          assert Took(acts, run[..n], before, k);
        }
      }
    }
  }

  /** If every action lowers a measure, but for free ones that raise it by no more than `cost`, then the
      actions that are not free are no more than the measure at the start and `cost` for each free one. */
  lemma {:induction false} Budget<S(!new), A(!new)>(acts: (S, A, S) -> bool, inv: S -> bool, measure: S -> int,
                                                    free: A -> bool, cost: nat, run: seq<S>, actions: seq<A>)
    requires Performs(acts, run, actions) && inv(run[0])
    requires forall s :: inv(s) ==> measure(s) >= 0
    requires forall s, a, t :: inv(s) && acts(s, a, t) ==>
               inv(t) && measure(t) <= measure(s) + if free(a) then cost as int else -1
    ensures inv(run[|run| - 1])
    ensures |actions| - Count(actions, free) + measure(run[|run| - 1]) <= measure(run[0]) + cost * Count(actions, free)
    decreases |actions|
  {
    if actions != [] {
      var n := |actions| - 1;
      PerformsPrefix(acts, run, actions);
      Budget(acts, inv, measure, free, cost, run[..n + 1], actions[..n]);
      var c := Count(actions[..n], free);
      assert cost * (c + 1) == cost * c + cost;
    }
  }
}
