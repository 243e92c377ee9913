/** The client table of the select server (echo_ip_selchannel/echo_srv.c): an array of descriptors
    with removal by moving the last entry, a descriptor set that must agree with it, and a pass over
    the ready clients that removes some of them on the way. What the kernel answers in one pass is a
    parameter: the ready set, the accepted descriptor (-1 for a failure) and the result of each read. */
module SelectServer {
  import opened Runs
  import opened Lists

  const FD_SETSIZE := 1024
  const MAX_CLIENTS := FD_SETSIZE - 4

  datatype Pass = Pass(ready: set<int>, accepted: int, results: map<int, int>)

  function Received(p: Pass, fd: int): int {
    if fd in p.results then p.results[fd] else 0
  }

  datatype Table = Table(listenfd: int, clients: seq<int>, maxFd: int, allset: set<int>)

  /** What one pass comes to: the table it leaves and the clients it has read, in order. */
  datatype Outcome = Outcome(table: Table, served: seq<int>)

  function Removed(clients: seq<int>, i: nat): seq<int>
    requires i < |clients|
  {
    clients[i := clients[|clients| - 1]][..|clients| - 1]
  }

  /** The loop over the clients from index `i` on, with `nready` ready descriptors left to find. */
  function Scan(t: Table, i: nat, nready: int, p: Pass): Outcome
    decreases |t.clients| - i
  {
    if i >= |t.clients| || nready <= 0 then Outcome(t, [])
    else
      var fd := t.clients[i];
      if fd == -1 || fd !in p.ready then Scan(t, i + 1, nready, p)
      else
        var rest :=
          if Received(p, fd) <= 0
          then Scan(t.(clients := Removed(t.clients, i), allset := t.allset - {fd}), i + 1, nready - 1, p)
          else Scan(t, i + 1, nready, p);
        Outcome(rest.table, [fd] + rest.served)
  }

  /** A pass that returns at once because accept fails or the table is full. */
  predicate Early(t: Table, p: Pass) {
    t.listenfd in p.ready && (p.accepted == -1 || |t.clients| == MAX_CLIENTS)
  }

  function Admitted(t: Table, p: Pass): Table {
    if t.listenfd in p.ready
    then t.(clients := t.clients + [p.accepted],
            maxFd := if p.accepted > t.maxFd then p.accepted else t.maxFd,
            allset := t.allset + {p.accepted})
    else t
  }

  function PassOver(t: Table, p: Pass): Outcome {
    if Early(t, p) then Outcome(t, [])
    else Scan(Admitted(t, p), 0, |p.ready| - if t.listenfd in p.ready then 1 else 0, p)
  }

  /** select reports members of allset; accept returns a descriptor that is not open. */
  predicate Possible(t: Table, p: Pass) {
    && p.ready <= t.allset
    && (p.accepted == -1 || (p.accepted >= 0 && p.accepted !in t.allset))
  }

  ghost predicate Consistent(t: Table) {
    && Distinct(t.clients) && |t.clients| <= MAX_CLIENTS
    && (forall fd :: fd in t.allset <==> fd == t.listenfd || fd in t.clients)
    && (forall i :: 0 <= i < |t.clients| ==> 0 <= t.clients[i] <= t.maxFd && t.clients[i] != t.listenfd)
    && t.listenfd <= t.maxFd
  }

  lemma RemovedMembers(clients: seq<int>, i: nat)
    requires i < |clients| && Distinct(clients)
    ensures Distinct(Removed(clients, i))
    ensures forall fd :: fd in Removed(clients, i) <==> fd in clients && fd != clients[i]
  {
    var r, n := Removed(clients, i), |clients| - 1;
    assert forall j :: 0 <= j < n ==> r[j] == clients[if j == i then n else j];
    forall fd | fd in clients && fd != clients[i] ensures fd in r {
      var j :| 0 <= j <= n && clients[j] == fd;
      assert r[if j == n then i else j] == fd;
    }
  }

  lemma RemoveKeepsConsistent(t: Table, i: nat)
    requires Consistent(t) && i < |t.clients|
    ensures Consistent(t.(clients := Removed(t.clients, i), allset := t.allset - {t.clients[i]}))
  {
    RemovedMembers(t.clients, i);
    var r := Removed(t.clients, i);
    forall j | 0 <= j < |r| ensures 0 <= r[j] <= t.maxFd && r[j] != t.listenfd {
      assert r[j] in t.clients;
    }
  }

  lemma AdmitKeepsConsistent(t: Table, p: Pass)
    requires Consistent(t) && Possible(t, p) && !Early(t, p)
    ensures Consistent(Admitted(t, p))
  {
  }

  function In(s: set<int>): int -> bool { (x: int) => x in s }

  lemma {:induction false} CountReady(clients: seq<int>, ready: set<int>, listenfd: int)
    requires Distinct(clients) && listenfd !in clients
    ensures Count(clients, In(ready)) <= |ready - {listenfd}|
  {
    if clients != [] {
      var last, front := clients[|clients| - 1], clients[..|clients| - 1];
      assert last !in front;
      if last in ready {
        CountReady(front, ready - {last}, listenfd);
        CountSame(front, ready, ready - {last});
        assert ready - {last} - {listenfd} == ready - {listenfd} - {last};
      } else {
        CountReady(front, ready, listenfd);
      }
    }
  }

  lemma {:induction false} CountSame(s: seq<int>, a: set<int>, b: set<int>)
    requires forall x :: x in s ==> (x in a <==> x in b)
    ensures Count(s, In(a)) == Count(s, In(b))
  {
    if s != [] {
      var x := s[|s| - 1];
      assert x in s && (In(a)(x) <==> In(b)(x));
      CountSame(s[..|s| - 1], a, b);
    }
  }

  lemma CountRemoved(clients: seq<int>, i: nat, p: int -> bool)
    requires i < |clients| && p(clients[i])
    ensures Count(Removed(clients, i), p) == Count(clients, p) - 1
  {
    var n := |clients| - 1;
    var moved := clients[i := clients[n]];
    CountUpdate(clients, i, clients[n], p);
    CountLast(moved, p);
  }

  lemma CountLast(s: seq<int>, p: int -> bool)
    requires s != []
    ensures Count(s, p) == Count(s[..|s| - 1], p) + if p(s[|s| - 1]) then 1 else 0
  {
  }

  /** The clients that a scan standing at `i` has still to look at. */
  function Ahead(clients: seq<int>, i: nat): seq<int> {
    if i <= |clients| then clients[i..] else []
  }

  lemma RemovedAhead(clients: seq<int>, i: nat)
    requires i < |clients| && Distinct(clients)
    ensures var left, was := Ahead(Removed(clients, i), i + 1), Ahead(clients, i + 1);
            forall fd :: fd in left ==> fd in was
    ensures clients[i] !in Ahead(clients, i + 1)
  {
    var n := |clients| - 1;
    if i + 1 <= n {
      assert Ahead(Removed(clients, i), i + 1) == clients[i + 1..n];
      assert clients[i + 1..] == clients[i + 1..n] + clients[n..];
    }
  }

  /** The scan keeps the table consistent, serves only ready clients it has not passed, and serves none
      twice. */
  lemma {:induction false} ScanSafe(t: Table, i: nat, nready: int, p: Pass)
    requires Consistent(t)
    ensures var o := Scan(t, i, nready, p);
            && Consistent(o.table) && o.table.listenfd == t.listenfd && o.table.maxFd == t.maxFd
            && Distinct(o.served)
            && (forall fd :: fd in o.served ==> fd in Ahead(t.clients, i) && fd in p.ready)
    decreases |t.clients| - i
  {
    if i < |t.clients| && nready > 0 {
      var fd := t.clients[i];
      assert t.clients[i..] == [fd] + t.clients[i + 1..];
      RemovedAhead(t.clients, i);
      if fd in p.ready && Received(p, fd) <= 0 {
        RemoveKeepsConsistent(t, i);
        ScanSafe(t.(clients := Removed(t.clients, i), allset := t.allset - {fd}), i + 1, nready - 1, p);
      } else {
        ScanSafe(t, i + 1, nready, p);
      }
    }
  }

  /** A client behind the scan stays where it is. */
  lemma {:induction false} PassedStays(t: Table, i: nat, nready: int, p: Pass, k: nat)
    requires k < i && k < |t.clients|
    ensures var o := Scan(t, i, nready, p); k < |o.table.clients| && o.table.clients[k] == t.clients[k]
    decreases |t.clients| - i
  {
    if i < |t.clients| && nready > 0 {
      var fd := t.clients[i];
      if fd != -1 && fd in p.ready && Received(p, fd) <= 0 {
        PassedStays(t.(clients := Removed(t.clients, i), allset := t.allset - {fd}), i + 1, nready - 1, p, k);
      } else {
        PassedStays(t, i + 1, nready, p, k);
      }
    }
  }

  /** The client is at an index smaller than k. */
  ghost predicate Below(t: Table, fd: int, k: nat) {
    exists j :: 0 <= j < k && j < |t.clients| && t.clients[j] == fd
  }

  lemma RemovalKeepsCount(t: Table, i: nat, ready: set<int>, nready: int)
    requires i < |t.clients| && t.clients[i] in ready && Count(t.clients, In(ready)) <= nready
    ensures nready > 0 && Count(Removed(t.clients, i), In(ready)) <= nready - 1
  {
    CountAtLeast(t.clients, i, In(ready));
    CountRemoved(t.clients, i, In(ready));
  }

  /** A ready client at or ahead of the scan is served, or ends at a smaller index: the only way to miss
      it is to move it into the place of a client just removed. The count of ready descriptors never
      ends the scan too soon, because it covers the ready clients that are in the table. */
  lemma {:induction false} ServedOrMovedDown(t: Table, i: nat, nready: int, p: Pass, k: nat)
    requires Consistent(t) && i <= k < |t.clients| && t.clients[k] in p.ready
    requires Count(t.clients, In(p.ready)) <= nready
    ensures var o := Scan(t, i, nready, p);
            t.clients[k] in o.served || Below(o.table, t.clients[k], k)
    decreases |t.clients| - i
  {
    CountAtLeast(t.clients, k, In(p.ready));
    var fd, n := t.clients[i], |t.clients| - 1;
    if fd in p.ready && Received(p, fd) <= 0 && i < k {
      var t' := t.(clients := Removed(t.clients, i), allset := t.allset - {fd});
      RemoveKeepsConsistent(t, i);
      RemovalKeepsCount(t, i, p.ready, nready);
      if k == n {
        PassedStays(t', i + 1, nready - 1, p, i);
      } else {
        ServedOrMovedDown(t', i + 1, nready - 1, p, k);
      }
    } else if i < k {
      ServedOrMovedDown(t, i + 1, nready, p, k);
    }
  }

  /** One whole pass from a consistent table. */
  lemma PassSafe(t: Table, p: Pass)
    requires Consistent(t) && Possible(t, p)
    ensures var o := PassOver(t, p);
            && Consistent(o.table) && o.table.listenfd == t.listenfd
            && Distinct(o.served)
            && forall fd :: fd in o.served ==> fd in t.clients && fd in p.ready
  {
    if !Early(t, p) {
      AdmitKeepsConsistent(t, p);
      var a := Admitted(t, p);
      ScanSafe(a, 0, |p.ready| - if t.listenfd in p.ready then 1 else 0, p);
      assert Ahead(a.clients, 0) == a.clients;
    }
  }

  lemma PassServesOrMovesDown(t: Table, p: Pass, k: nat)
    requires Consistent(t) && Possible(t, p)
    requires k < |t.clients| && t.clients[k] in p.ready
    ensures var o := PassOver(t, p);
            if Early(t, p) then o.table == t
            else t.clients[k] in o.served || Below(o.table, t.clients[k], k)
  {
    if !Early(t, p) {
      AdmitKeepsConsistent(t, p);
      var a := Admitted(t, p);
      CountReady(a.clients, p.ready, t.listenfd);
      assert t.listenfd in p.ready ==> |p.ready - {t.listenfd}| == |p.ready| - 1;
      assert t.listenfd !in p.ready ==> p.ready - {t.listenfd} == p.ready;
      assert a.clients[k] == t.clients[k];
      ServedOrMovedDown(a, 0, |p.ready| - if t.listenfd in p.ready then 1 else 0, p, k);
    }
  }

  /** The read of this client in the pass came to nothing: end of stream, an error, or no answer. */
  predicate Hung(p: Pass, fd: int) {
    fd !in p.results || p.results[fd] <= 0
  }

  /** Of `clients` those are left that have not been served to no avail. */
  ghost predicate Remain(clients: seq<int>, o: Outcome, p: Pass) {
    forall fd :: fd in o.table.clients <==> fd in clients && !(fd in o.served && Hung(p, fd))
  }

  lemma RemainAfterRemoval(clients: seq<int>, i: nat, rest: Outcome, p: Pass)
    requires Distinct(clients) && i < |clients| && Hung(p, clients[i])
    requires Remain(Removed(clients, i), rest, p)
    ensures Remain(clients, Outcome(rest.table, [clients[i]] + rest.served), p)
  {
    RemovedMembers(clients, i);
  }

  lemma RemainAfterRead(clients: seq<int>, fd: int, rest: Outcome, p: Pass)
    requires !Hung(p, fd) && Remain(clients, rest, p)
    ensures Remain(clients, Outcome(rest.table, [fd] + rest.served), p)
  {
  }

  lemma {:induction false} ScanMembers(t: Table, i: nat, nready: int, p: Pass)
    requires Consistent(t)
    ensures Remain(t.clients, Scan(t, i, nready, p), p)
    decreases |t.clients| - i
  {
    if i < |t.clients| && nready > 0 {
      var fd := t.clients[i];
      if fd !in p.ready {
        ScanMembers(t, i + 1, nready, p);
      } else if Received(p, fd) <= 0 {
        var t' := t.(clients := Removed(t.clients, i), allset := t.allset - {fd});
        RemoveKeepsConsistent(t, i);
        ScanMembers(t', i + 1, nready - 1, p);
        RemainAfterRemoval(t.clients, i, Scan(t', i + 1, nready - 1, p), p);
      } else {
        ScanMembers(t, i + 1, nready, p);
        RemainAfterRead(t.clients, fd, Scan(t, i + 1, nready, p), p);
      }
    }
  }

  /** Exactly who is in the table after a pass: those that were, and the client accepted in it, but for
      those that it has read from to no avail. A pass that returns early changes nothing and reads nobody. */
  lemma WhoStays(t: Table, p: Pass)
    requires Consistent(t) && Possible(t, p)
    ensures var o := PassOver(t, p);
            if t.listenfd in p.ready && (p.accepted == -1 || |t.clients| == MAX_CLIENTS)
            then o.table == t && o.served == []
            else forall fd ::
                   fd in o.table.clients <==>
                     && (fd in t.clients || (t.listenfd in p.ready && fd == p.accepted))
                     && !(fd in o.served && Hung(p, fd))
  {
    if !Early(t, p) {
      AdmitKeepsConsistent(t, p);
      ScanMembers(Admitted(t, p), 0, |p.ready| - if t.listenfd in p.ready then 1 else 0, p);
    }
  }

  /** The bound given to select is the least that covers the old one and the client accepted. */
  lemma BoundIsLeast(t: Table, p: Pass, x: int)
    requires Consistent(t) && Possible(t, p)
    ensures x >= PassOver(t, p).table.maxFd <==>
              x >= t.maxFd && (t.listenfd in p.ready && !Early(t, p) ==> x >= p.accepted)
  {
    if !Early(t, p) {
      AdmitKeepsConsistent(t, p);
      ScanSafe(Admitted(t, p), 0, |p.ready| - if t.listenfd in p.ready then 1 else 0, p);
    }
  }

  /** A client that is in its place in a table without duplicates, or not in it, is not further down. */
  lemma NotBelow(o: Table, fd: int, k: nat)
    requires Distinct(o.clients)
    requires fd !in o.clients || (k < |o.clients| && o.clients[k] == fd)
    ensures !Below(o, fd, k)
  {
  }

  lemma ServedAtOnce(t: Table, nready: int, p: Pass, k: nat)
    requires Consistent(t) && k < |t.clients| && t.clients[k] in Scan(t, k, nready, p).served
    ensures !Below(Scan(t, k, nready, p).table, t.clients[k], k)
  {
    var fd, o := t.clients[k], Scan(t, k, nready, p);
    ScanSafe(t, k, nready, p);
    ScanMembers(t, k, nready, p);
    if !Hung(p, fd) {
      PassedStays(t, k + 1, nready, p, k);
    }
    NotBelow(o.table, fd, k);
  }

  /** A client that is served has not been moved down. */
  lemma {:induction false} ServedKeepsPlace(t: Table, i: nat, nready: int, p: Pass, k: nat)
    requires Consistent(t) && i <= k < |t.clients|
    requires t.clients[k] in Scan(t, i, nready, p).served
    ensures !Below(Scan(t, i, nready, p).table, t.clients[k], k)
    decreases |t.clients| - i
  {
    if i == k {
      ServedAtOnce(t, nready, p, k);
    } else if nready > 0 {
      var fd := t.clients[i];
      if fd in p.ready && Received(p, fd) <= 0 {
        var t' := t.(clients := Removed(t.clients, i), allset := t.allset - {fd});
        RemoveKeepsConsistent(t, i);
        if k < |t'.clients| {
          ServedKeepsPlace(t', i + 1, nready - 1, p, k);
        } else {
          ScanSafe(t', i + 1, nready - 1, p);
          MovedIsBehind(t'.clients, i);
        }
      } else {
        ServedKeepsPlace(t, i + 1, nready, p, k);
      }
    }
  }

  lemma MovedIsBehind(clients: seq<int>, i: nat)
    requires Distinct(clients) && i < |clients|
    ensures clients[i] !in Ahead(clients, i + 1)
  {
  }

  predicate IsSubsequence(a: seq<int>, b: seq<int>) {
    a == [] || (b != [] && (IsSubsequence(a, b[1..]) || (a[0] == b[0] && IsSubsequence(a[1..], b[1..]))))
  }

  lemma {:induction false} SubsequenceOfMore(a: seq<int>, b: seq<int>, x: int)
    requires IsSubsequence(a, b)
    ensures IsSubsequence(a, b + [x])
  {
    if a != [] {
      assert (b + [x])[1..] == b[1..] + [x];
      if IsSubsequence(a, b[1..]) {
        SubsequenceOfMore(a, b[1..], x);
      } else {
        SubsequenceOfMore(a[1..], b[1..], x);
      }
    }
  }

  /** Clients are served in the order of the array as the scan finds it. */
  lemma {:induction false} ScanInOrder(t: Table, i: nat, nready: int, p: Pass)
    ensures IsSubsequence(Scan(t, i, nready, p).served, Ahead(t.clients, i))
    decreases |t.clients| - i
  {
    if i < |t.clients| && nready > 0 {
      var fd, ahead := t.clients[i], Ahead(t.clients, i);
      assert ahead[0] == fd && ahead[1..] == Ahead(t.clients, i + 1);
      if fd == -1 || fd !in p.ready {
        ScanInOrder(t, i + 1, nready, p);
      } else if Received(p, fd) <= 0 {
        var t' := t.(clients := Removed(t.clients, i), allset := t.allset - {fd});
        var rest := Scan(t', i + 1, nready - 1, p).served;
        ScanInOrder(t', i + 1, nready - 1, p);
        RemovedIsShorter(t.clients, i, rest);
        assert ([fd] + rest)[1..] == rest;
      } else {
        ScanInOrder(t, i + 1, nready, p);
        assert ([fd] + Scan(t, i + 1, nready, p).served)[1..] == Scan(t, i + 1, nready, p).served;
      }
    }
  }

  lemma RemovedIsShorter(clients: seq<int>, i: nat, served: seq<int>)
    requires i < |clients| && IsSubsequence(served, Ahead(Removed(clients, i), i + 1))
    ensures IsSubsequence(served, Ahead(clients, i + 1))
  {
    var n := |clients| - 1;
    if i + 1 <= n {
      assert Ahead(Removed(clients, i), i + 1) == clients[i + 1..n];
      SubsequenceOfMore(served, clients[i + 1..n], clients[n]);
      assert clients[i + 1..n] + [clients[n]] == Ahead(clients, i + 1);
    } else {
      assert served == [];
    }
  }

  /** A pass serves clients in the order in which they stand in the table before it. */
  lemma ServedInOrder(t: Table, p: Pass)
    requires Consistent(t) && Possible(t, p)
    ensures IsSubsequence(PassOver(t, p).served, t.clients + [p.accepted])
  {
    if !Early(t, p) {
      var a := Admitted(t, p);
      ScanInOrder(a, 0, |p.ready| - if t.listenfd in p.ready then 1 else 0, p);
      assert Ahead(a.clients, 0) == a.clients;
      if t.listenfd !in p.ready {
        SubsequenceOfMore(PassOver(t, p).served, t.clients, p.accepted);
      }
    }
  }

  /** Exactly which clients a full pass serves: those that are ready and have not been moved to a
      smaller index by it. */
  lemma ServedIff(t: Table, p: Pass, k: nat)
    requires Consistent(t) && Possible(t, p) && !Early(t, p) && k < |t.clients|
    ensures var o, fd := PassOver(t, p), t.clients[k];
            fd in o.served <==> fd in p.ready && !Below(o.table, fd, k)
  {
    PassSafe(t, p);
    if t.clients[k] in p.ready {
      PassServesOrMovesDown(t, p, k);
      AdmitKeepsConsistent(t, p);
      var a := Admitted(t, p);
      assert a.clients[k] == t.clients[k];
      if t.clients[k] in PassOver(t, p).served {
        ServedKeepsPlace(a, 0, |p.ready| - if t.listenfd in p.ready then 1 else 0, p, k);
      }
    }
  }

  // ----- any number of passes ---------------------------------------------------------------------

  ghost predicate AllPossible(t: Table, ps: seq<Pass>)
    decreases |ps|
  {
    ps == [] || (Possible(t, ps[0]) && AllPossible(PassOver(t, ps[0]).table, ps[1..]))
  }

  function AfterAll(t: Table, ps: seq<Pass>): Table
    decreases |ps|
  {
    if ps == [] then t else AfterAll(PassOver(t, ps[0]).table, ps[1..])
  }

  predicate Served(t: Table, ps: seq<Pass>, fd: int)
    decreases |ps|
  {
    ps != [] && (fd in PassOver(t, ps[0]).served || Served(PassOver(t, ps[0]).table, ps[1..], fd))
  }

  /** Passes that do not return early. */
  function FullPasses(t: Table, ps: seq<Pass>): nat
    decreases |ps|
  {
    if ps == [] then 0
    else (if Early(t, ps[0]) then 0 else 1) + FullPasses(PassOver(t, ps[0]).table, ps[1..])
  }

  /** init and the start of loop. */
  function Started(listenfd: int): Table {
    Table(listenfd, [], listenfd, {listenfd})
  }

  /** After any number of passes array and set agree, no client appears twice, and the bound given to
      select covers them all. */
  lemma {:induction false} AlwaysConsistent(t: Table, ps: seq<Pass>)
    requires Consistent(t) && AllPossible(t, ps)
    ensures var t' := AfterAll(t, ps);
            && t'.listenfd == t.listenfd && Distinct(t'.clients) && |t'.clients| <= MAX_CLIENTS
            && (forall fd :: fd in t'.allset <==> fd == t'.listenfd || fd in t'.clients)
            && forall fd :: fd in t'.allset ==> fd <= t'.maxFd
    decreases |ps|
  {
    if ps != [] {
      PassSafe(t, ps[0]);
      AlwaysConsistent(PassOver(t, ps[0]).table, ps[1..]);
    }
  }

  /** In particular from the start of the server, which listens on the same descriptor for ever. */
  lemma StartedConsistent(listenfd: int, ps: seq<Pass>)
    requires AllPossible(Started(listenfd), ps)
    ensures var t := AfterAll(Started(listenfd), ps);
            && t.listenfd == listenfd && Distinct(t.clients) && |t.clients| <= MAX_CLIENTS
            && (forall fd :: fd in t.allset <==> fd == listenfd || fd in t.clients)
            && forall fd :: fd in t.allset ==> fd <= t.maxFd
  {
    AlwaysConsistent(Started(listenfd), ps);
  }

  lemma {:induction false} AfterAllSplit(t: Table, ps: seq<Pass>, p: Pass)
    requires AllPossible(t, ps + [p])
    ensures AllPossible(t, ps) && Possible(AfterAll(t, ps), p)
    ensures AfterAll(t, ps + [p]) == PassOver(AfterAll(t, ps), p).table
    decreases |ps|
  {
    if ps == [] {
      assert ([] + [p])[1..] == [];
    } else {
      assert (ps + [p])[1..] == ps[1..] + [p];
      AfterAllSplit(PassOver(t, ps[0]).table, ps[1..], p);
    }
  }

  lemma {:induction false} AfterAllConsistent(t: Table, ps: seq<Pass>)
    requires Consistent(t) && AllPossible(t, ps)
    ensures Consistent(AfterAll(t, ps))
    decreases |ps|
  {
    if ps != [] {
      PassSafe(t, ps[0]);
      AfterAllConsistent(PassOver(t, ps[0]).table, ps[1..]);
    }
  }

  /** Pass i lets the client in. */
  ghost predicate Enters(t: Table, ps: seq<Pass>, i: nat, fd: int) {
    && i < |ps|
    && var was := AfterAll(t, ps[..i]);
       !Early(was, ps[i]) && was.listenfd in ps[i].ready && ps[i].accepted == fd
  }

  /** Pass i reads from the client to no avail. */
  ghost predicate Leaves(t: Table, ps: seq<Pass>, i: nat, fd: int) {
    i < |ps| && fd in PassOver(AfterAll(t, ps[..i]), ps[i]).served && Hung(ps[i], fd)
  }

  /** In the table from pass i on: let in by it, or there from the start if i is -1, and not gone since. */
  ghost predicate InSince(t: Table, ps: seq<Pass>, i: int, fd: int) {
    && (if i < 0 then i == -1 && fd in t.clients else Enters(t, ps, i, fd))
    && forall j: nat :: i < j < |ps| ==> !Leaves(t, ps, j, fd)
  }

  lemma InSinceStep(t: Table, front: seq<Pass>, p: Pass, i: int, fd: int)
    requires i < |front|
    ensures InSince(t, front + [p], i, fd) <==> InSince(t, front, i, fd) && !Leaves(t, front + [p], |front|, fd)
  {
    var ps := front + [p];
    assert forall j :: 0 <= j <= |front| ==> ps[..j] == front[..j];
    assert forall j: nat :: j < |front| ==> (Leaves(t, ps, j, fd) <==> Leaves(t, front, j, fd));
    assert i >= 0 ==> (Enters(t, ps, i, fd) <==> Enters(t, front, i, fd));
  }

  /** Exactly who is in the table after any number of passes: those that were there or have been
      accepted, and that no pass since has read from to no avail. */
  lemma {:induction false} WhoIsIn(t: Table, ps: seq<Pass>, fd: int)
    requires Consistent(t) && AllPossible(t, ps)
    ensures fd in AfterAll(t, ps).clients <==> exists i :: InSince(t, ps, i, fd)
    decreases |ps|
  {
    if ps == [] {
      assert fd in t.clients ==> InSince(t, ps, -1, fd);
    } else {
      var n := |ps| - 1;
      var front, p := ps[..n], ps[n];
      assert ps == front + [p];
      AfterAllSplit(t, front, p);
      AfterAllConsistent(t, front);
      WhoIsIn(t, front, fd);
      var was := AfterAll(t, front);
      WhoStays(was, p);
      LastPass(t, front, p, fd);
    }
  }

  lemma LastPass(t: Table, front: seq<Pass>, p: Pass, fd: int)
    requires AllPossible(t, front + [p]) && Consistent(AfterAll(t, front)) && Possible(AfterAll(t, front), p)
    ensures (exists i :: InSince(t, front + [p], i, fd)) <==>
              || ((exists i :: InSince(t, front, i, fd)) && !Leaves(t, front + [p], |front|, fd))
              || Enters(t, front + [p], |front|, fd)
    ensures Enters(t, front + [p], |front|, fd) ==> !Leaves(t, front + [p], |front|, fd)
    ensures Leaves(t, front + [p], |front|, fd) <==> fd in PassOver(AfterAll(t, front), p).served && Hung(p, fd)
  {
    var ps, n := front + [p], |front|;
    assert ps[..n] == front && ps[n] == p;
    PassSafe(AfterAll(t, front), p);
    if i :| InSince(t, front, i, fd) {
      InSinceStep(t, front, p, i, fd);
    }
    if i :| InSince(t, ps, i, fd) {
      if i < n {
        InSinceStep(t, front, p, i, fd);
      }
    }
    if Enters(t, ps, n, fd) {
      assert InSince(t, ps, n, fd);
    }
  }

  /** Fairness: a client at index k that is ready in every pass is served within k + 1 full passes,
      whoever comes, goes or talks in the meantime. */
  lemma {:induction false} ServedWithin(t: Table, ps: seq<Pass>, k: nat)
    requires Consistent(t) && AllPossible(t, ps) && k < |t.clients|
    requires forall i :: 0 <= i < |ps| ==> t.clients[k] in ps[i].ready
    requires FullPasses(t, ps) > k
    ensures Served(t, ps, t.clients[k])
    decreases |ps|
  {
    PassSafe(t, ps[0]);
    PassServesOrMovesDown(t, ps[0], k);
    var fd, t' := t.clients[k], PassOver(t, ps[0]).table;
    if Early(t, ps[0]) {
      ServedWithin(t', ps[1..], k);
    } else if fd !in PassOver(t, ps[0]).served {
      var j :| 0 <= j < k && j < |t'.clients| && t'.clients[j] == fd;
      ServedWithin(t', ps[1..], j);
    }
  }

  // ----- the bound cannot be improved -------------------------------------------------------------

  /** k clients besides the listening descriptor 0, and one more at index k. */
  function Crowd(k: nat): (r: seq<int>)
    ensures |r| == k && forall i :: 0 <= i < k ==> r[i] == i + 1
  {
    seq(k, i => i + 1)
  }

  function Numbers(k: nat): (r: set<int>)
    ensures forall i :: i in r <==> 1 <= i <= k
  {
    if k == 0 then {} else Numbers(k - 1) + {k}
  }

  function Crowded(k: nat, fd: int): Table {
    Table(0, Crowd(k) + [fd], fd, {0, fd} + Numbers(k))
  }

  /** The client before the last one leaves. */
  function LeavingPass(k: nat, fd: int): Pass {
    Pass({k, fd}, -1, map[])
  }

  lemma {:induction false} ScanSkips(t: Table, i: nat, j: nat, nready: int, p: Pass)
    requires i <= j <= |t.clients| && nready > 0
    requires forall h :: i <= h < j ==> t.clients[h] !in p.ready
    ensures Scan(t, i, nready, p) == Scan(t, j, nready, p)
    decreases j - i
  {
    if i < j {
      ScanSkips(t, i + 1, j, nready, p);
    }
  }

  lemma LeavingMovesLast(k: nat, fd: int)
    requires 0 < k < fd
    ensures var o := PassOver(Crowded(k, fd), LeavingPass(k, fd));
            o.served == [k] && o.table == Crowded(k - 1, fd)
  {
    var t, p := Crowded(k, fd), LeavingPass(k, fd);
    ScanSkips(t, 0, k - 1, 2, p);
    var t' := t.(clients := Removed(t.clients, k - 1), allset := t.allset - {k});
    assert t'.clients == Crowd(k - 1) + [fd];
    assert t'.allset == Crowded(k - 1, fd).allset;
  }

  function LeavingPasses(k: nat, fd: int): (r: seq<Pass>)
    ensures |r| == k
  {
    if k == 0 then [] else [LeavingPass(k, fd)] + LeavingPasses(k - 1, fd)
  }

  lemma CrowdedConsistent(k: nat, fd: int)
    requires k < fd && k < MAX_CLIENTS
    ensures Consistent(Crowded(k, fd)) && Crowded(k, fd).clients[k] == fd
  {
    var t := Crowded(k, fd);
    forall x | x in t.allset ensures x == 0 || x in t.clients {
      if 1 <= x <= k {
        assert t.clients[x - 1] == x;
      } else {
        assert x == fd ==> t.clients[k] == x;
      }
    }
  }

  lemma LeavingPossible(k: nat, fd: int)
    requires 0 < k < fd
    ensures Possible(Crowded(k, fd), LeavingPass(k, fd)) && !Early(Crowded(k, fd), LeavingPass(k, fd))
  {
  }

  /** The passes are all full, the client is ready in each, and none serves it. */
  ghost predicate Postpones(t: Table, ps: seq<Pass>, fd: int) {
    && AllPossible(t, ps) && FullPasses(t, ps) == |ps| && !Served(t, ps, fd)
    && forall i :: 0 <= i < |ps| ==> fd in ps[i].ready
  }

  lemma MissedAgain(t: Table, p: Pass, rest: seq<Pass>, o: Outcome, fd: int)
    requires PassOver(t, p) == o && Possible(t, p) && !Early(t, p) && fd !in o.served && fd in p.ready
    requires Postpones(o.table, rest, fd)
    ensures Postpones(t, [p] + rest, fd)
  {
    assert ([p] + rest)[1..] == rest;
  }

  lemma {:induction false} Postponed(k: nat, fd: int)
    requires k < fd
    ensures Postpones(Crowded(k, fd), LeavingPasses(k, fd), fd)
  {
    if k > 0 {
      var t, p := Crowded(k, fd), LeavingPass(k, fd);
      LeavingPossible(k, fd);
      LeavingMovesLast(k, fd);
      Postponed(k - 1, fd);
      MissedAgain(t, p, LeavingPasses(k - 1, fd), PassOver(t, p), fd);
    }
  }

  /** For every k there are k full passes in which the client at index k is ready and is not served. */
  lemma BoundIsTight(k: nat, fd: int)
    requires k < fd && k < MAX_CLIENTS
    ensures var t, ps := Crowded(k, fd), LeavingPasses(k, fd);
            && Consistent(t) && t.clients[k] == fd
            && |ps| == k && Postpones(t, ps, fd)
  {
    CrowdedConsistent(k, fd);
    Postponed(k, fd);
  }

  // ----- the server's variables, changed in place --------------------------------------------------

  class Server {
    const listenfd: int
    const clients: array<int>
    var nclients: nat
    var maxclientFd: int
    var allset: set<int>

    ghost predicate Valid()
      reads this
    {
      clients.Length == FD_SETSIZE && nclients <= MAX_CLIENTS
    }

    ghost function View(): Table
      requires Valid()
      reads this, clients
    {
      Table(listenfd, clients[..nclients], maxclientFd, allset)
    }

    constructor (listenfd: int)
      ensures Valid() && View() == Started(listenfd) && fresh(clients)
    {
      this.listenfd := listenfd;
      clients := new int[FD_SETSIZE];
      nclients := 0;
      maxclientFd := listenfd;
      allset := {listenfd};
    }

    method AddClient(cfd: int) returns (r: int)
      requires Valid()
      modifies this, clients
      ensures Valid() && allset == old(allset)
      ensures if old(nclients) == MAX_CLIENTS then r == -1 && View() == old(View())
              else && r == 0 && clients[..nclients] == old(clients[..nclients]) + [cfd]
                   && maxclientFd == if cfd > old(maxclientFd) then cfd else old(maxclientFd)
    {
      if nclients == MAX_CLIENTS {
        return -1;
      }
      clients[nclients] := cfd;
      nclients := nclients + 1;
      if cfd > maxclientFd {
        maxclientFd := cfd;
      }
      return 0;
    }

    method RemClient(cfd: int, i: nat)
      requires Valid() && i < nclients
      modifies this, clients
      ensures Valid() && maxclientFd == old(maxclientFd)
      ensures clients[..nclients] == Removed(old(clients[..nclients]), i) && allset == old(allset) - {cfd}
    {
      nclients := nclients - 1;
      clients[i] := clients[nclients];
      allset := allset - {cfd};
    }

    /** process, with what the kernel answers in `p`; `served` are the clients it reads from. */
    method Process(p: Pass) returns (served: seq<int>)
      requires Valid()
      modifies this, clients
      ensures Valid() && Outcome(View(), served) == PassOver(old(View()), p)
    {
      served := [];
      var nready: int := |p.ready|;
      if listenfd in p.ready {
        if p.accepted == -1 {
          return;
        }
        var added := -1;
        if nclients != MAX_CLIENTS {
          added := AddClient(p.accepted);
        }
        if added == -1 {
          return;
        }
        allset := allset + {p.accepted};
        nready := nready - 1;
        if nready == 0 {
          return;
        }
      }
      served := ScanClients(p, nready);
    }

    /** The loop over the clients, which shrinks the array that it runs over. */
    method ScanClients(p: Pass, count: int) returns (served: seq<int>)
      requires Valid()
      modifies this, clients
      ensures Valid() && Outcome(View(), served) == Scan(old(View()), 0, count, p)
    {
      served := [];
      var nready := count;
      var i := 0;
      while i < nclients && nready > 0
        invariant Valid()
        invariant Scan(old(View()), 0, count, p) == Following(served, Scan(View(), i, nready, p))
        decreases nclients - i
      {
        var cfd := clients[i];
        ScanStep(View(), i, nready, p, served);
        if cfd != -1 && cfd in p.ready {
          var nr := Received(p, cfd);
          if nr <= 0 {
            RemClient(cfd, i);
            nready := nready - 1;
          }
          served := served + [cfd];
        }
        i := i + 1;
      }
    }
  }

  /** An outcome with what was served before it. */
  function Following(served: seq<int>, o: Outcome): Outcome {
    Outcome(o.table, served + o.served)
  }

  lemma ScanStep(t: Table, i: nat, nready: int, p: Pass, served: seq<int>)
    requires i < |t.clients| && nready > 0
    ensures var fd := t.clients[i];
            Following(served, Scan(t, i, nready, p)) ==
              if fd == -1 || fd !in p.ready then Following(served, Scan(t, i + 1, nready, p))
              else if Received(p, fd) <= 0
              then Following(served + [fd],
                         Scan(t.(clients := Removed(t.clients, i), allset := t.allset - {fd}), i + 1, nready - 1, p))
              else Following(served + [fd], Scan(t, i + 1, nready, p))
  {
  }
}
