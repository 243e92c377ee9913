/** The FIFO multi-unit semaphore of the user-thread library (uthread/semaphore.c).
    First its meaning as functions on values, then the class that works in place on a linked list
    of wait blocks, in both versions of the release loop. */
module Semaphores {
  import opened Lists
  import opened NodeQueues

  /** A wait block: the parked thread and the units it asked for. */
  datatype Request = Request(thread: nat, units: int)

  datatype Sem = Sem(units: int, limit: int, waiters: seq<Request>)

  function Total(ws: seq<Request>): int {
    if ws == [] then 0 else ws[0].units + Total(ws[1..])
  }

  function Threads(ws: seq<Request>): seq<nat> {
    seq(|ws|, i requires 0 <= i < |ws| => ws[i].thread)
  }

  /** How many waiters the release loop lets go, head first, with `units` in hand. */
  function Released(units: int, ws: seq<Request>): (k: nat)
    ensures k <= |ws|
    decreases |ws|
  {
    if units > 0 && ws != [] && ws[0].units <= units
    then 1 + Released(units - ws[0].units, ws[1..])
    else 0
  }

  /** The earlier loop, which lacks the `units > 0` guard. */
  function ReleasedUnguarded(units: int, ws: seq<Request>): (k: nat)
    ensures k <= |ws|
    decreases |ws|
  {
    if ws != [] && ws[0].units <= units
    then 1 + ReleasedUnguarded(units - ws[0].units, ws[1..])
    else 0
  }

  predicate Immediate(s: Sem, n: int) {
    s.waiters == [] && s.units >= n
  }

  function AfterWait(s: Sem, r: Request): Sem {
    if Immediate(s, r.units) then s.(units := s.units - r.units) else s.(waiters := s.waiters + [r])
  }

  function Clamp(s: Sem, n: int): int {
    if s.units + n > s.limit then s.limit else s.units + n
  }

  function Woken(s: Sem, n: int): seq<Request> {
    s.waiters[..Released(Clamp(s, n), s.waiters)]
  }

  function AfterPost(s: Sem, n: int): Sem {
    Sem(Clamp(s, n) - Total(Woken(s, n)), s.limit, s.waiters[|Woken(s, n)|..])
  }

  predicate Positive(ws: seq<Request>) {
    forall i :: 0 <= i < |ws| ==> ws[i].units > 0
  }

  lemma {:induction false} TotalAppend(a: seq<Request>, b: seq<Request>)
    ensures Total(a + b) == Total(a) + Total(b)
  {
    if a == [] {
      assert a + b == b;
    } else {
      assert (a + b)[1..] == a[1..] + b;
      TotalAppend(a[1..], b);
    }
  }

  /** What the loop computes, said without it: the longest prefix of the queue that the units in
      hand can pay for, so it stops only at a request that it cannot satisfy. */
  lemma {:induction false} ReleasedIsLongestAffordable(units: int, ws: seq<Request>)
    requires Positive(ws) && units >= 0
    ensures var k := Released(units, ws);
            && Total(ws[..k]) <= units
            && forall j :: k < j <= |ws| ==> Total(ws[..j]) > units
    decreases |ws|
  {
    var k := Released(units, ws);
    if ws == [] {
    } else if units <= 0 || ws[0].units > units {
      assert ws[..k] == [];
      forall j | k < j <= |ws| ensures Total(ws[..j]) > units {
        assert ws[..j][1..] == ws[1..j];
        TotalNonNegative(ws[1..j]);
      }
    } else {
      ReleasedIsLongestAffordable(units - ws[0].units, ws[1..]);
      assert ws[..k][1..] == ws[1..][..k - 1];
      forall j | k < j <= |ws| ensures Total(ws[..j]) > units {
        assert ws[..j][1..] == ws[1..][..j - 1];
      }
    }
  }

  lemma {:induction false} TotalNonNegative(ws: seq<Request>)
    requires Positive(ws)
    ensures Total(ws) >= |ws|
  {
    if ws != [] {
      TotalNonNegative(ws[1..]);
    }
  }

  /** The requests before position i use up the units exactly, no fewer of them do, and the request
      at i asks for nothing. */
  ghost predicate StopsShort(units: int, ws: seq<Request>, i: nat) {
    && i < |ws| && Total(ws[..i]) == units && ws[i].units <= 0
    && forall j :: 0 <= j < i ==> Total(ws[..j]) < units
  }

  lemma StopsShortStep(units: int, ws: seq<Request>, i: nat)
    requires units > 0 && ws != []
    ensures !StopsShort(units, ws, 0)
    ensures StopsShort(units, ws, i + 1) <==> StopsShort(units - ws[0].units, ws[1..], i)
  {
    forall j | 0 < j <= |ws| ensures Total(ws[..j]) == ws[0].units + Total(ws[1..][..j - 1]) {
      assert ws[..j][1..] == ws[1..][..j - 1];
    }
    var rest, left := ws[1..], units - ws[0].units;
    if StopsShort(units, ws, i + 1) {
      forall j | 0 <= j < i ensures Total(rest[..j]) < left {
        assert Total(ws[..j + 1]) < units;
      }
    }
  }

  /** The guarded loop stops early only where the unguarded one would go on: units spent and a
      request for none at the head. Whether a queue has such a place can be seen before the post; it
      has none if all requests are positive. */
  lemma {:induction false} ReleaseLoopsAgree(units: int, ws: seq<Request>)
    requires units >= 0
    ensures Released(units, ws) <= ReleasedUnguarded(units, ws)
    ensures Released(units, ws) == ReleasedUnguarded(units, ws) <==> !exists i: nat :: StopsShort(units, ws, i)
    ensures Positive(ws) ==> Released(units, ws) == ReleasedUnguarded(units, ws)
    decreases |ws|
  {
    if units > 0 && ws != [] && ws[0].units <= units {
      var left, rest := units - ws[0].units, ws[1..];
      ReleaseLoopsAgree(left, rest);
      if i: nat :| StopsShort(units, ws, i) {
        StopsShortStep(units, ws, if i > 0 then i - 1 else 0);
        assert StopsShort(left, rest, i - 1);
      }
      if i: nat :| StopsShort(left, rest, i) {
        StopsShortStep(units, ws, i);
        assert StopsShort(units, ws, i + 1);
      }
    } else {
      assert ws[..0] == [];
      if i: nat :| StopsShort(units, ws, i) {
        NotPastTheHead(units, ws, i);
      } else if units == 0 && ws != [] {
        assert !StopsShort(units, ws, 0);
      }
    }
  }

  lemma NotPastTheHead(units: int, ws: seq<Request>, i: nat)
    requires StopsShort(units, ws, i) && (units <= 0 || ws[0].units > units)
    ensures i == 0 && units == 0
  {
    assert ws[..1] == [ws[0]] && [ws[0]][1..] == [];
    assert Total(ws[..1]) == ws[0].units && Total(ws[..0]) == 0;
  }

  /** A queue on which they differ: one unit, taken by the first waiter, and a second asking for none. */
  lemma ReleaseLoopsDiffer()
    ensures var ws := [Request(0, 1), Request(1, 0)];
            Released(1, ws) == 1 && ReleasedUnguarded(1, ws) == 2
  {
    var ws := [Request(0, 1), Request(1, 0)];
    assert ws[1..] == [Request(1, 0)];
    assert ws[1..][1..] == [];
    assert ReleasedUnguarded(0, ws[1..]) == 1;
  }

  class Semaphore {
    var limit: int
    var units: int
    const waiters: ListEntry<Request>
    ghost var blocks: seq<ListEntry<Request>>  // the list's elements, head first
    ghost var requests: seq<Request>           // what they ask for
    ghost var Repr: set<object>

    ghost predicate Valid()
      reads this, Repr
    {
      && this in Repr && waiters in Repr && (forall e :: e in blocks ==> e in Repr)
      && IsRing(waiters, blocks)
      && |requests| == |blocks|
      && forall i :: 0 <= i < |blocks| ==> blocks[i].item == requests[i]
    }

    /** The value this object stands for. */
    ghost function Value(): Sem
      reads this
    {
      Sem(units, limit, requests)
    }

    constructor (units: int, limit: int)
      ensures Valid() && fresh(Repr)
      ensures Value() == Sem(units, limit, [])
    {
      this.units, this.limit := units, limit;
      waiters := new ListEntry<Request>.Head(Request(0, 0));
      blocks, requests := [], [];
      Repr := {this, waiters};
    }

    /** sem_wait for the calling thread; `parked` when it gave up the processor, which it gets back
        only through a post that wakes it. */
    method Wait(thread: nat, n: int) returns (parked: bool)
      requires Valid()
      modifies Repr
      ensures Valid() && fresh(Repr - old(Repr))
      ensures parked <==> !Immediate(old(Value()), n)
      ensures Value() == AfterWait(old(Value()), Request(thread, n))
    {
      var empty := IsListEmpty(waiters, blocks);
      if empty && units >= n {
        units := units - n;
        return false;
      }
      var waitblock := new ListEntry<Request>(Request(thread, n));
      InsertTailList(waiters, waitblock, blocks);
      blocks, requests := blocks + [waitblock], requests + [waitblock.item];
      Repr := Repr + {waitblock};
      return true;
    }

    /** One turn of the release loop: the head waiter is paid, unlinked and made ready. */
    method ReleaseHead(ready: NodeQueue<nat>) returns (entry: ListEntry<Request>)
      requires Valid() && blocks != [] && ready.Valid() && ready.Repr !! Repr
      modifies Repr, ready.Repr
      ensures ready.Valid() && fresh(ready.Repr - old(ready.Repr))
      ensures Valid() && Repr == old(Repr) && blocks == old(blocks)[1..] && entry == old(blocks)[0]
      ensures limit == old(limit) && units == old(units) - old(requests[0].units)
      ensures requests == old(requests)[1..]
      ensures entry.flink == if blocks == [] then waiters else blocks[0]
      ensures ready.contents == old(ready.contents) + [old(requests[0].thread)]
    {
      HeadLink(waiters, blocks);
      var waitblock := waiters.flink;
      units := units - waitblock.item.units;
      entry := RemoveHeadList(waiters, blocks);
      blocks, requests := blocks[1..], requests[1..];
      ready.Append(waitblock.item.thread);  // ut_activate
    }

    /** The release loop, which re-reads the head of the list and stops when no units are left. */
    method ReleaseLoop(ready: NodeQueue<nat>)
      requires Valid() && ready.Valid() && ready.Repr !! Repr
      modifies Repr, ready.Repr
      ensures Valid() && Repr == old(Repr) && limit == old(limit)
      ensures ready.Valid() && fresh(ready.Repr - old(ready.Repr))
      ensures var k := Released(old(units), old(requests));
              && requests == old(requests)[k..]
              && units == old(units) - Total(old(requests)[..k])
              && ready.contents == old(ready.contents) + Threads(old(requests)[..k])
    {
      ghost var ws, k := requests, 0;
      while true
        invariant Valid() && Repr == old(Repr) && limit == old(limit)
        invariant ready.Valid() && ready.Repr !! Repr && fresh(ready.Repr - old(ready.Repr))
        invariant k <= |ws| && blocks == old(blocks)[k..] && requests == ws[k..]
        invariant Released(old(units), ws) == k + Released(units, requests)
        invariant units == old(units) - Total(ws[..k])
        invariant ready.contents == old(ready.contents) + Threads(ws[..k])
        decreases |blocks|
      {
        var empty := IsListEmpty(waiters, blocks);
        if units <= 0 || empty {
          break;
        }
        HeadLink(waiters, blocks);
        var waitblock := waiters.flink;
        if units < waitblock.item.units {
          break;
        }
        var entry := ReleaseHead(ready);
        TotalStep(ws, k);
        k := k + 1;
      }
    }

    /** The earlier loop: a cursor that moves on through the entry it has just unlinked. */
    method ReleaseLoopWalking(ready: NodeQueue<nat>)
      requires Valid() && ready.Valid() && ready.Repr !! Repr
      modifies Repr, ready.Repr
      ensures Valid() && Repr == old(Repr) && limit == old(limit)
      ensures ready.Valid() && fresh(ready.Repr - old(ready.Repr))
      ensures var k := ReleasedUnguarded(old(units), old(requests));
              && requests == old(requests)[k..]
              && units == old(units) - Total(old(requests)[..k])
              && ready.contents == old(ready.contents) + Threads(old(requests)[..k])
    {
      ghost var ws, k := requests, 0;
      HeadLink(waiters, blocks);
      var curr := waiters.flink;
      while curr != waiters && units >= curr.item.units
        invariant Valid() && Repr == old(Repr) && limit == old(limit)
        invariant ready.Valid() && ready.Repr !! Repr && fresh(ready.Repr - old(ready.Repr))
        invariant k <= |ws| && blocks == old(blocks)[k..] && requests == ws[k..]
        invariant curr == if blocks == [] then waiters else blocks[0]
        invariant ReleasedUnguarded(old(units), ws) == k + ReleasedUnguarded(units, requests)
        invariant units == old(units) - Total(ws[..k])
        invariant ready.contents == old(ready.contents) + Threads(ws[..k])
        decreases |blocks|
      {
        assert blocks != [] && curr.item == requests[0];
        var entry := ReleaseHead(ready);
        TotalStep(ws, k);
        curr := curr.flink;
        k := k + 1;
      }
      HeadLink(waiters, blocks);
    }

    /** sem_post. */
    method Post(n: int, ready: NodeQueue<nat>)
      requires Valid() && ready.Valid() && ready.Repr !! Repr
      modifies Repr, ready.Repr
      ensures Valid() && Repr == old(Repr)
      ensures ready.Valid() && fresh(ready.Repr - old(ready.Repr))
      ensures Value() == AfterPost(old(Value()), n)
      ensures ready.contents == old(ready.contents) + Threads(Woken(old(Value()), n))
    {
      units := units + n;
      if units > limit {
        units := limit;
      }
      ReleaseLoop(ready);
    }

    /** The earlier sem_post. On positive requests it does exactly what Post does. */
    method PostWalking(n: int, ready: NodeQueue<nat>)
      requires Valid() && ready.Valid() && ready.Repr !! Repr
      modifies Repr, ready.Repr
      ensures Valid() && Repr == old(Repr)
      ensures ready.Valid() && fresh(ready.Repr - old(ready.Repr))
      ensures var s := old(Value());
              var k := ReleasedUnguarded(Clamp(s, n), s.waiters);
              && Value() == Sem(Clamp(s, n) - Total(s.waiters[..k]), s.limit, s.waiters[k..])
              && ready.contents == old(ready.contents) + Threads(s.waiters[..k])
      ensures var s := old(Value());
              Positive(s.waiters) && Clamp(s, n) >= 0 ==>
                && Value() == AfterPost(s, n)
                && ready.contents == old(ready.contents) + Threads(Woken(s, n))
    {
      units := units + n;
      if units > limit {
        units := limit;
      }
      if units >= 0 {
        ReleaseLoopsAgree(units, requests);
      }
      ReleaseLoopWalking(ready);
    }
  }

  lemma TotalStep(ws: seq<Request>, k: nat)
    requires k < |ws|
    ensures Total(ws[..k + 1]) == Total(ws[..k]) + ws[k].units
    ensures ws[k..][1..] == ws[k + 1..]
    ensures Threads(ws[..k + 1]) == Threads(ws[..k]) + [ws[k].thread]
  {
    assert ws[..k + 1] == ws[..k] + [ws[k]];
    TotalAppend(ws[..k], [ws[k]]);
    assert [ws[k]][1..] == [];
  }
}
