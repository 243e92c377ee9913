/** Whole histories of one semaphore: any sequence of waits and posts, in any order. */
module SemaphoreRuns {
  import opened Semaphores

  datatype Op = WaitOp(request: Request) | PostOp(units: int)

  /** The semaphore together with all that has happened to it. */
  datatype History = History(
    sem: Sem,
    start: int,             // units it was initialised with
    asked: seq<Request>,    // every request, in order of arrival
    granted: seq<Request>,  // every request satisfied so far, in order of grant
    posted: int,            // units posted so far
    clamped: int)           // units discarded because the limit was reached

  predicate Sensible(op: Op) {
    match op
    case WaitOp(r) => r.units > 0
    case PostOp(n) => n >= 0
  }

  predicate AllSensible(ops: seq<Op>) {
    forall i :: 0 <= i < |ops| ==> Sensible(ops[i])
  }

  function Created(units: int, limit: int): History {
    History(Sem(units, limit, []), units, [], [], 0, 0)
  }

  function Do(h: History, op: Op): History {
    match op
    case WaitOp(r) =>
      h.(sem := AfterWait(h.sem, r),
         asked := h.asked + [r],
         granted := if Immediate(h.sem, r.units) then h.granted + [r] else h.granted)
    case PostOp(n) =>
      h.(sem := AfterPost(h.sem, n),
         granted := h.granted + Woken(h.sem, n),
         posted := h.posted + n,
         clamped := h.clamped + h.sem.units + n - Clamp(h.sem, n))
  }

  function DoAll(h: History, ops: seq<Op>): History
    decreases |ops|
  {
    if ops == [] then h else DoAll(Do(h, ops[0]), ops[1..])
  }

  ghost predicate Inv(h: History) {
    && Positive(h.asked)
    // no barging: requests are granted in the order in which they were made
    && h.granted + h.sem.waiters == h.asked
    && 0 <= h.sem.units <= h.sem.limit
    // nobody waits for units that are there
    && (h.sem.waiters != [] ==> h.sem.waiters[0].units > h.sem.units)
    // every unit is accounted for
    && h.start + h.posted == h.sem.units + Total(h.granted) + h.clamped
    && h.clamped >= 0
  }

  lemma CreatedInv(units: int, limit: int)
    requires 0 <= units <= limit
    ensures Inv(Created(units, limit))
  {
  }

  lemma DoKeepsInv(h: History, op: Op)
    requires Inv(h) && Sensible(op)
    ensures Inv(Do(h, op))
  {
    match op
    case WaitOp(r) =>
      TotalAppend(h.granted, [r]);
      assert Total([r]) == r.units;
      assert h.granted + [] == h.granted;
    case PostOp(n) =>
      PostKeepsInv(h, n);
  }

  /** What one post does to a semaphore in good order. */
  lemma PostReleases(s: Sem, n: int)
    requires Positive(s.waiters) && 0 <= s.units <= s.limit && n >= 0
    ensures var s' := AfterPost(s, n);
            && Woken(s, n) + s'.waiters == s.waiters
            && 0 <= s'.units <= s.limit
            && (s'.waiters != [] ==> s'.waiters[0].units > s'.units)
            && s'.limit == s.limit && s'.units == Clamp(s, n) - Total(Woken(s, n))
  {
    var ws, u := s.waiters, Clamp(s, n);
    var k := Released(u, ws);
    StopsAtUnaffordable(u, ws);
    TotalNonNegative(ws[..k]);
    assert Woken(s, n) == ws[..k];
    assert ws[..k] + ws[k..] == ws;
  }

  /** The release loop spends no more than it has, and stops only where the next request costs more
      than is left. */
  lemma StopsAtUnaffordable(units: int, ws: seq<Request>)
    requires Positive(ws) && units >= 0
    ensures var k := Released(units, ws);
            && Total(ws[..k]) <= units
            && (k < |ws| ==> ws[k].units > units - Total(ws[..k]))
  {
    var k := Released(units, ws);
    ReleasedIsLongestAffordable(units, ws);
    if k < |ws| {
      TotalStep(ws, k);
      assert Total(ws[..k + 1]) > units;
    }
  }

  /** The queue loses at its front what the grants gain at their end. */
  lemma HandedOver<T>(granted: seq<T>, waiters: seq<T>, woken: seq<T>, left: seq<T>)
    requires woken + left == waiters
    ensures (granted + woken) + left == granted + waiters
  {
  }

  lemma PostAccounts(h: History, n: int)
    requires Inv(h) && n >= 0
    requires AfterPost(h.sem, n).units == Clamp(h.sem, n) - Total(Woken(h.sem, n))
    ensures var h' := Do(h, PostOp(n));
            h'.start + h'.posted == h'.sem.units + Total(h'.granted) + h'.clamped && h'.clamped >= h.clamped
  {
    TotalAppend(h.granted, Woken(h.sem, n));
  }

  lemma PostKeepsInv(h: History, n: int)
    requires Inv(h) && n >= 0
    ensures Inv(Do(h, PostOp(n)))
  {
    WaitersPositive(h);
    PostReleases(h.sem, n);
    PostAccounts(h, n);
    HandedOver(h.granted, h.sem.waiters, Woken(h.sem, n), AfterPost(h.sem, n).waiters);
    var h' := Do(h, PostOp(n));
    assert h'.granted + h'.sem.waiters == h.asked == h'.asked;
  }

  lemma WaitersPositive(h: History)
    requires Inv(h)
    ensures Positive(h.sem.waiters)
  {
    assert forall i :: 0 <= i < |h.sem.waiters| ==> h.sem.waiters[i] == h.asked[|h.granted| + i];
  }

  lemma {:induction false} DoAllKeepsInv(h: History, ops: seq<Op>)
    requires Inv(h) && AllSensible(ops)
    ensures Inv(DoAll(h, ops))
    decreases |ops|
  {
    if ops != [] {
      DoKeepsInv(h, ops[0]);
      DoAllKeepsInv(Do(h, ops[0]), ops[1..]);
    }
  }

  /** Safety of every history of a semaphore created within its limit. */
  lemma EveryHistorySafe(units: int, limit: int, ops: seq<Op>)
    requires 0 <= units <= limit && AllSensible(ops)
    ensures var h := DoAll(Created(units, limit), ops);
            && h.granted + h.sem.waiters == h.asked
            && 0 <= h.sem.units <= h.sem.limit == limit
            && (h.sem.waiters != [] ==> h.sem.waiters[0].units > h.sem.units)
            && units + h.posted == h.sem.units + Total(h.granted) + h.clamped
            && h.clamped >= 0
  {
    CreatedInv(units, limit);
    DoAllKeepsInv(Created(units, limit), ops);
    LimitFixed(Created(units, limit), ops);
  }

  lemma {:induction false} LimitFixed(h: History, ops: seq<Op>)
    ensures DoAll(h, ops).sem.limit == h.sem.limit && DoAll(h, ops).start == h.start
    ensures h.granted <= DoAll(h, ops).granted && h.asked <= DoAll(h, ops).asked
    decreases |ops|
  {
    if ops != [] {
      LimitFixed(Do(h, ops[0]), ops[1..]);
    }
  }

  /** A post discards just what would take the units above the limit. */
  lemma PostDiscards(h: History, n: int)
    requires Inv(h) && n >= 0
    ensures var lost := Do(h, PostOp(n)).clamped - h.clamped;
            && lost >= 0
            && (h.sem.units + n <= h.sem.limit ==> lost == 0)
            && (h.sem.units + n >= h.sem.limit ==> h.sem.units + n - lost == h.sem.limit)
  {
  }

  /** So nothing is lost in a history whose first units and posted ones together keep within the limit. */
  lemma {:induction false} NothingDiscarded(h: History, ops: seq<Op>)
    requires Inv(h) && AllSensible(ops) && h.clamped == 0
    requires var e := DoAll(h, ops); e.start + e.posted <= h.sem.limit
    ensures DoAll(h, ops).clamped == 0
    decreases |ops|
  {
    if ops != [] {
      var h' := Do(h, ops[0]);
      DoKeepsInv(h, ops[0]);
      PostedGrows(h', ops[1..]);
      LimitFixed(h', ops[1..]);
      if ops[0].PostOp? {
        GrantedPositive(h);
        PostDiscards(h, ops[0].units);
      }
      NothingDiscarded(h', ops[1..]);
    }
  }

  lemma GrantedPositive(h: History)
    requires Inv(h)
    ensures Total(h.granted) >= 0
  {
    assert forall i :: 0 <= i < |h.granted| ==> h.granted[i] == h.asked[i];
    TotalNonNegative(h.granted);
  }

  lemma {:induction false} PostedGrows(h: History, ops: seq<Op>)
    requires AllSensible(ops)
    ensures DoAll(h, ops).posted >= h.posted
    decreases |ops|
  {
    if ops != [] {
      PostedGrows(Do(h, ops[0]), ops[1..]);
    }
  }

  /** Posts that fill the semaphore up to its limit. */
  function FullPosts(ops: seq<Op>, limit: int): nat
    decreases |ops|
  {
    if ops == [] then 0
    else (if ops[0].PostOp? && ops[0].units >= limit then 1 else 0) + FullPosts(ops[1..], limit)
  }

  /** The requests still waiting among the first `j` fit the limit. */
  predicate FitUpTo(h: History, j: nat)
    requires j <= |h.asked|
  {
    forall i :: |h.granted| <= i < j ==> h.asked[i].units <= h.sem.limit
  }

  /** Progress: while those of the first `j` requests that still wait fit the limit, each full post, whatever happens in
      between, grants at least one more of them, until none is left. */
  lemma {:induction false} FullPostsGrant(h: History, ops: seq<Op>, j: nat)
    requires Inv(h) && AllSensible(ops) && j <= |h.asked| && FitUpTo(h, j)
    ensures var reach := |h.granted| + FullPosts(ops, h.sem.limit);
            |DoAll(h, ops).granted| >= if reach < j then reach else j
    decreases |ops|
  {
    if ops != [] {
      var h' := Do(h, ops[0]);
      DoKeepsInv(h, ops[0]);
      if ops[0].PostOp? && ops[0].units >= h.sem.limit && |h.granted| < j {
        assert h.sem.waiters[0] == h.asked[|h.granted|];
        assert |h'.granted| >= |h.granted| + 1;
      }
      FullPostsGrant(h', ops[1..], j);
    }
  }

  /** In particular k full posts release at least min(k, w) of the w threads now waiting. */
  lemma FullPostsRelease(h: History, ops: seq<Op>)
    requires Inv(h) && AllSensible(ops) && FitUpTo(h, |h.asked|)
    ensures var k, w := FullPosts(ops, h.sem.limit), |h.sem.waiters|;
            |DoAll(h, ops).granted| >= |h.granted| + if k < w then k else w
  {
    FullPostsGrant(h, ops, |h.asked|);
  }

  /** No post releases past a waiter that asks for more than the units it has in hand. */
  lemma BigRequestHolds(units: int, ws: seq<Request>, i: nat)
    requires Positive(ws) && units >= 0 && i < |ws| && ws[i].units > units
    ensures Released(units, ws) <= i
  {
    var k := Released(units, ws);
    ReleasedIsLongestAffordable(units, ws);
    if k > i {
      TotalStep(ws, i);
      assert ws[..k] == ws[..i + 1] + ws[i + 1..k];
      TotalAppend(ws[..i + 1], ws[i + 1..k]);
      TotalNonNegative(ws[..i]);
      TotalNonNegative(ws[i + 1..k]);
      assert false;
    }
  }

  /** A request above the limit that has not been granted never is, and holds up all behind it. */
  lemma {:induction false} OverLimitBlocks(h: History, ops: seq<Op>, j: nat)
    requires Inv(h) && AllSensible(ops)
    requires |h.granted| <= j < |h.asked| && h.asked[j].units > h.sem.limit
    ensures |DoAll(h, ops).granted| <= j
    decreases |ops|
  {
    if ops != [] {
      DoKeepsInv(h, ops[0]);
      if ops[0].PostOp? {
        var i := j - |h.granted|;
        WaitersPositive(h);
        assert h.sem.waiters[i] == h.asked[j];
        BigRequestHolds(Clamp(h.sem, ops[0].units), h.sem.waiters, i);
      }
      OverLimitBlocks(Do(h, ops[0]), ops[1..], j);
    }
  }

  function Refills(k: nat, limit: int): (ops: seq<Op>)
    ensures |ops| == k && FullPosts(ops, limit) == k
    ensures limit >= 0 ==> AllSensible(ops)
  {
    if k == 0 then [] else [PostOp(limit)] + Refills(k - 1, limit)
  }

  /** Exactly which waiting requests can ever be granted: those that fit the limit and have nothing
      above the limit before them. */
  lemma GrantableIff(h: History, j: nat)
    requires Inv(h) && |h.granted| <= j < |h.asked|
    ensures (exists ops :: AllSensible(ops) && |DoAll(h, ops).granted| > j) <==>
            forall i :: |h.granted| <= i <= j ==> h.asked[i].units <= h.sem.limit
  {
    if i :| |h.granted| <= i <= j && h.asked[i].units > h.sem.limit {
      forall ops | AllSensible(ops) ensures |DoAll(h, ops).granted| <= j {
        OverLimitBlocks(h, ops, i);
      }
    } else {
      var ops := Refills(j + 1 - |h.granted|, h.sem.limit);
      FullPostsGrant(h, ops, j + 1);
    }
  }
}
