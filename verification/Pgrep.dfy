/** The three-thread pipeline of tests/pgrep.c: a reader feeds lines to a filter, the filter feeds
    the matching ones to a presenter, over two bounded queues, with NULL as end of stream.
    Each queue call is two steps (ask, then finish once granted), and between any two steps any
    thread that can run may be scheduled. */
module Pgrep {
  import opened Semaphores
  import opened BoundedQueues
  import opened Runs

  /** What travels through the queues: a line, or the NULL sentinel. */
  datatype Item = Null | Line(text: string)

  /** Progress of a thread in the queue call it is making. */
  datatype Phase = Running | Parked | Granted

  datatype FilterAt = Getting | Putting(item: Item) | Finished

  const READER: nat := 0
  const FILTER: nat := 1
  const PRESENTER: nat := 2

  datatype State = State(
    word: string,
    lines: seq<string>,  // what fgets returns, call after call; none when the file cannot be opened
    size1: int, size2: int,
    q1: Queue<Item>, q2: Queue<Item>,  // qreader, qfilter
    sent: nat, reader: Phase,
    taken: nat, at: FilterAt, filter: Phase,
    out: seq<string>, count: int, done: bool, presenter: Phase)

  /** strstr. */
  predicate Contains(line: string, word: string) {
    exists i :: 0 <= i <= |line| - |word| && StartsAt(line, i, word)
  }

  predicate StartsAt(line: string, i: nat, word: string) {
    i + |word| <= |line| && line[i..i + |word|] == word
  }

  /** That is, the word stands somewhere in the line with anything before and after it. */
  lemma ContainsIff(line: string, word: string)
    ensures Contains(line, word) <==> exists a: string, b: string :: line == a + word + b
  {
    if Contains(line, word) {
      var i :| 0 <= i <= |line| - |word| && StartsAt(line, i, word);
      assert line == line[..i] + word + line[i + |word|..];
    }
    if a: string, b: string :| line == a + word + b {
      assert line[|a|..|a| + |word|] == word;
      assert StartsAt(line, |a|, word);
    }
  }

  /** The answer: the lines that contain the word, in order. */
  function Matching(word: string, lines: seq<string>): (r: seq<string>)
    ensures |r| <= |lines|
  {
    if lines == [] then []
    else (if Contains(lines[0], word) then [lines[0]] else []) + Matching(word, lines[1..])
  }

  function AsItems(lines: seq<string>): (r: seq<Item>)
    ensures |r| == |lines|
    ensures forall i :: 0 <= i < |r| ==> r[i] == Line(lines[i])
  {
    seq(|lines|, i requires 0 <= i < |lines| => Line(lines[i]))
  }

  /** Everything the reader sends. */
  function Feed(lines: seq<string>): (r: seq<Item>)
    ensures |r| == |lines| + 1
  {
    AsItems(lines) + [Null]
  }

  predicate Passes(word: string, item: Item) {
    item.Null? || Contains(item.text, word)
  }

  /** What the filter lets through of a stream. */
  function Kept(word: string, items: seq<Item>): (r: seq<Item>)
    ensures |r| <= |items|
  {
    if items == [] then []
    else (if Passes(word, items[0]) then [items[0]] else []) + Kept(word, items[1..])
  }

  predicate ReaderDone(s: State) { s.sent == |Feed(s.lines)| }

  predicate Enabled(s: State, thread: nat) {
    match thread
    case 0 => s.sent < |Feed(s.lines)| && !s.reader.Parked?
    case 1 => !s.at.Finished? && !s.filter.Parked? && (s.filter.Granted? && s.at.Getting? ==> s.q1.list != [])
    case 2 => !s.done && !s.presenter.Parked? && (s.presenter.Granted? ==> s.q2.list != [])
    case _ => false
  }

  function Asked(sem: Sem): Phase {
    if Immediate(sem, 1) then Granted else Parked
  }

  /** A thread named in a wake-up owns its unit. */
  function Resume(phase: Phase, woken: seq<Request>, thread: nat): Phase {
    if Request(thread, 1) in woken then Granted else phase
  }

  function ReaderStep(s: State): State
    requires Enabled(s, READER)
  {
    if s.reader.Running? then
      s.(q1 := AskSpace(s.q1, READER), reader := Asked(s.q1.hasSpace))
    else
      s.(q1 := Insert(s.q1, Feed(s.lines)[s.sent]), sent := s.sent + 1, reader := Running,
         filter := Resume(s.filter, Woken(s.q1.hasItems, 1), FILTER))
  }

  function FilterStep(s: State): State
    requires Enabled(s, FILTER)
  {
    match s.at
    case Getting =>
      if s.filter.Running? then
        s.(q1 := AskItem(s.q1, FILTER), filter := Asked(s.q1.hasItems))
      else
        var item := s.q1.list[0];
        s.(q1 := Remove(s.q1), taken := s.taken + 1, filter := Running,
           at := if Passes(s.word, item) then Putting(item) else Getting,
           reader := Resume(s.reader, Woken(s.q1.hasSpace, 1), READER))
    case Putting(item) =>
      if s.filter.Running? then
        s.(q2 := AskSpace(s.q2, FILTER), filter := Asked(s.q2.hasSpace))
      else
        s.(q2 := Insert(s.q2, item), filter := Running,
           at := if item.Null? then Finished else Getting,
           presenter := Resume(s.presenter, Woken(s.q2.hasItems, 1), PRESENTER))
  }

  function PresenterStep(s: State): State
    requires Enabled(s, PRESENTER)
  {
    if s.presenter.Running? then
      s.(q2 := AskItem(s.q2, PRESENTER), presenter := Asked(s.q2.hasItems))
    else
      var item := s.q2.list[0];
      s.(q2 := Remove(s.q2), presenter := Running,
         filter := Resume(s.filter, Woken(s.q2.hasSpace, 1), FILTER),
         done := item.Null?,
         out := if item.Null? then s.out else s.out + [item.text],
         count := if item.Null? then s.count else s.count + 1)
  }

  ghost predicate Init(s: State) {
    && s.size1 >= 1 && s.size2 >= 1
    && s.q1 == Created(s.size1) && s.q2 == Created(s.size2)
    && s.sent == s.taken == 0 && s.at == Getting
    && s.reader == s.filter == s.presenter == Running
    && s.out == [] && s.count == 0 && !s.done
  }

  ghost predicate Step(s: State, s': State) {
    || (Enabled(s, READER) && s' == ReaderStep(s))
    || (Enabled(s, FILTER) && s' == FilterStep(s))
    || (Enabled(s, PRESENTER) && s' == PresenterStep(s))
  }

  function Held(active: bool, phase: Phase): nat {
    if active && phase.Granted? then 1 else 0
  }

  function Line1(active: bool, phase: Phase, thread: nat): seq<Request> {
    if active && phase.Parked? then [Request(thread, 1)] else []
  }

  /** The two queues are balanced and each wait list holds the one thread parked on it. */
  ghost predicate QueuesInv(s: State) {
    && Balanced(s.q1, s.size1, Held(s.at.Getting?, s.filter), Held(true, s.reader))
    && Balanced(s.q2, s.size2, Held(true, s.presenter), Held(s.at.Putting?, s.filter))
    && s.q1.hasItems.waiters == Line1(s.at.Getting?, s.filter, FILTER)
    && s.q1.hasSpace.waiters == Line1(true, s.reader, READER)
    && s.q2.hasItems.waiters == Line1(true, s.presenter, PRESENTER)
    && s.q2.hasSpace.waiters == Line1(s.at.Putting?, s.filter, FILTER)
    && (ReaderDone(s) ==> s.reader.Running?)
    && (s.at.Finished? ==> s.filter.Running?)
    && (s.done ==> s.presenter.Running?)
  }

  function Pending(at: FilterAt): seq<Item> {
    if at.Putting? then [at.item] else []
  }

  /** Everything on its way to the presenter, oldest first: shown, queued, held by the filter, and
      what the filter will keep of what it has not taken yet. */
  function Stream(s: State): seq<Item>
    requires s.taken <= |Feed(s.lines)|
  {
    AsItems(s.out) + (if s.done then [Null] else []) + s.q2.list + Pending(s.at)
    + Kept(s.word, Feed(s.lines)[s.taken..])
  }

  ghost predicate StreamInv(s: State) {
    && s.taken <= s.sent <= |Feed(s.lines)|
    && s.q1.list == Feed(s.lines)[s.taken..s.sent]
    && (s.at.Finished? || s.at == Putting(Null) <==> s.taken == |Feed(s.lines)|)
    && Stream(s) == Kept(s.word, Feed(s.lines))
    && s.count == |s.out|
  }

  ghost predicate Inv(s: State) {
    QueuesInv(s) && StreamInv(s)
  }

  lemma InitInv(s: State)
    requires Init(s)
    ensures Inv(s)
  {
  }

  lemma ReaderKeepsQueues(s: State)
    requires QueuesInv(s) && Enabled(s, READER)
    ensures QueuesInv(ReaderStep(s))
  {
    var getters, putters := Held(s.at.Getting?, s.filter), Held(true, s.reader);
    if s.reader.Running? {
      AskSpaceBalanced(s.q1, s.size1, getters, putters, READER);
    } else {
      InsertBalanced(s.q1, s.size1, getters, putters, Feed(s.lines)[s.sent]);
      UnitPost(s.q1.hasItems, s.size1);
    }
  }

  lemma ReaderKeepsStream(s: State)
    requires StreamInv(s) && Enabled(s, READER)
    ensures StreamInv(ReaderStep(s))
  {
  }

  lemma FilterGetKeepsQueues(s: State)
    requires QueuesInv(s) && Enabled(s, FILTER) && s.at.Getting?
    ensures QueuesInv(FilterStep(s))
  {
    var getters, putters := Held(s.at.Getting?, s.filter), Held(true, s.reader);
    if s.filter.Running? {
      AskItemBalanced(s.q1, s.size1, getters, putters, FILTER);
    } else {
      RemoveBalanced(s.q1, s.size1, getters, putters);
      UnitPost(s.q1.hasSpace, s.size1);
    }
  }

  lemma TakeFirst(feed: seq<Item>, i: nat, j: nat)
    requires i < j <= |feed|
    ensures feed[i..j][0] == feed[i] && feed[i..j][1..] == feed[i + 1..j]
  {
  }

  lemma KeptStep(word: string, feed: seq<Item>, i: nat)
    requires i < |feed|
    ensures Kept(word, feed[i..]) == (if Passes(word, feed[i]) then [feed[i]] else []) + Kept(word, feed[i + 1..])
  {
    assert feed[i..][1..] == feed[i + 1..];
  }

  lemma FilterGetKeepsStream(s: State)
    requires StreamInv(s) && Enabled(s, FILTER) && s.at.Getting?
    ensures StreamInv(FilterStep(s))
  {
    if s.filter.Granted? {
      var feed, s' := Feed(s.lines), FilterStep(s);
      TakeFirst(feed, s.taken, s.sent);
      KeptStep(s.word, feed, s.taken);
      assert Pending(s.at) == [];
      assert Stream(s') == Stream(s);
    }
  }

  lemma FilterPutKeepsQueues(s: State)
    requires QueuesInv(s) && Enabled(s, FILTER) && s.at.Putting?
    ensures QueuesInv(FilterStep(s))
  {
    var getters, putters := Held(true, s.presenter), Held(s.at.Putting?, s.filter);
    if s.filter.Running? {
      AskSpaceBalanced(s.q2, s.size2, getters, putters, FILTER);
    } else {
      InsertBalanced(s.q2, s.size2, getters, putters, s.at.item);
      UnitPost(s.q2.hasItems, s.size2);
    }
  }

  lemma FilterPutKeepsStream(s: State)
    requires StreamInv(s) && Enabled(s, FILTER) && s.at.Putting?
    ensures StreamInv(FilterStep(s))
  {
    assert s.filter.Granted? ==> FilterStep(s).q2.list + [] == s.q2.list + Pending(s.at);
  }

  lemma PresenterKeepsQueues(s: State)
    requires QueuesInv(s) && Enabled(s, PRESENTER)
    ensures QueuesInv(PresenterStep(s))
  {
    var getters, putters := Held(true, s.presenter), Held(s.at.Putting?, s.filter);
    if s.presenter.Running? {
      AskItemBalanced(s.q2, s.size2, getters, putters, PRESENTER);
    } else {
      RemoveBalanced(s.q2, s.size2, getters, putters);
      UnitPost(s.q2.hasSpace, s.size2);
    }
  }

  /** An item taken from the front of what is queued and put at the end of what has gone before. */
  lemma Handover(before: seq<Item>, queue: seq<Item>, after: seq<Item>)
    requires queue != []
    ensures (before + [queue[0]]) + queue[1..] + after == before + queue + after
  {
  }

  function Shown(s: State): seq<Item> {
    AsItems(s.out) + if s.done then [Null] else []
  }

  lemma PresenterKeepsStream(s: State)
    requires StreamInv(s) && Enabled(s, PRESENTER)
    ensures StreamInv(PresenterStep(s))
  {
    if s.presenter.Granted? {
      var s', after := PresenterStep(s), Pending(s.at) + Kept(s.word, Feed(s.lines)[s.taken..]);
      assert Shown(s') == Shown(s) + [s.q2.list[0]];
      Handover(Shown(s), s.q2.list, after);
      assert Stream(s) == Shown(s) + s.q2.list + after;
      assert Stream(s') == Shown(s') + s'.q2.list + after;
    }
  }

  lemma StepKeepsInv(s: State, s': State)
    requires Inv(s) && Step(s, s')
    ensures Inv(s')
  {
    if Enabled(s, READER) && s' == ReaderStep(s) {
      ReaderKeepsQueues(s);
      ReaderKeepsStream(s);
    } else if Enabled(s, FILTER) && s' == FilterStep(s) {
      if s.at.Getting? {
        FilterGetKeepsQueues(s);
        FilterGetKeepsStream(s);
      } else {
        FilterPutKeepsQueues(s);
        FilterPutKeepsStream(s);
      }
    } else {
      PresenterKeepsQueues(s);
      PresenterKeepsStream(s);
    }
  }

  lemma {:induction false} KeptFeed(word: string, lines: seq<string>)
    ensures Kept(word, Feed(lines)) == AsItems(Matching(word, lines)) + [Null]
  {
    if lines == [] {
      assert Feed(lines) == [Null];
      assert Kept(word, Feed(lines)[1..]) == [];
    } else {
      KeptFeed(word, lines[1..]);
      assert Feed(lines)[0] == Line(lines[0]);
      assert Feed(lines)[1..] == Feed(lines[1..]);
    }
  }

  /** The end of stream fixes how much text came before it. */
  lemma SameText(a: seq<string>, b: seq<string>, rest: seq<Item>)
    requires AsItems(a) + [Null] + rest == AsItems(b) + [Null]
    ensures a == b && rest == []
  {
    var l, r := AsItems(a) + [Null] + rest, AsItems(b) + [Null];
    assert l[|a|] == Null && r[|b|] == Null;
    assert forall i :: 0 <= i < |a| ==> l[i] == Line(a[i]);
    assert forall i :: 0 <= i < |b| ==> r[i] == Line(b[i]);
    assert |a| == |b|;
    forall i | 0 <= i < |a| ensures a[i] == b[i] {
      assert l[i] == Line(a[i]) && r[i] == Line(b[i]);
    }
  }

  /** Lines followed by something agree with the answer as far as they go. */
  lemma TextPrefix(a: seq<string>, b: seq<string>, rest: seq<Item>)
    requires AsItems(a) + rest == AsItems(b) + [Null]
    ensures a <= b
  {
    var l, r := AsItems(a) + rest, AsItems(b) + [Null];
    assert forall i :: 0 <= i < |a| ==> l[i] == Line(a[i]);
    assert |a| <= |b| by {
      assert r[|b|] == Null;
    }
    forall i | 0 <= i < |a| ensures a[i] == b[i] {
      assert l[i] == r[i];
    }
  }

  /** What comes after the lines shown and the sentinel, if that has been taken. */
  function Ahead(s: State): seq<Item>
    requires s.taken <= |Feed(s.lines)|
  {
    s.q2.list + Pending(s.at) + Kept(s.word, Feed(s.lines)[s.taken..])
  }

  /** What the presenter has shown is always a beginning of the answer. */
  lemma ShownIsPrefix(s: State)
    requires Inv(s)
    ensures s.out <= Matching(s.word, s.lines)
    ensures s.done ==> s.out == Matching(s.word, s.lines) && s.q2.list == [] && s.at.Finished?
  {
    var m := Matching(s.word, s.lines);
    KeptFeed(s.word, s.lines);
    if s.done {
      assert Stream(s) == AsItems(s.out) + [Null] + Ahead(s);
      SameText(s.out, m, Ahead(s));
      if s.taken < |Feed(s.lines)| {
        KeepsSentinel(s.word, Feed(s.lines), s.taken);
      }
    } else {
      assert Stream(s) == AsItems(s.out) + Ahead(s);
      TextPrefix(s.out, m, Ahead(s));
    }
  }

  /** The filter keeps the sentinel at the end of the feed. */
  lemma {:induction false} KeepsSentinel(word: string, items: seq<Item>, k: nat)
    requires k < |items| && items[|items| - 1] == Null
    ensures Kept(word, items[k..]) != []
    decreases |items| - k
  {
    assert items[k..][1..] == items[k + 1..];
    if k + 1 < |items| {
      KeepsSentinel(word, items, k + 1);
    }
  }

  function Owed(phase: Phase): nat {
    if phase.Running? then 0 else 1
  }

  function NonNegative(n: int): nat {
    if n < 0 then 0 else n
  }

  function Work(s: State): int {
    var total := |Feed(s.lines)|;
    2 * (total - s.sent) - Owed(s.reader)
    + (match s.at
       case Getting => 4 * (total - s.taken)
       case Putting(_) => 4 * (total - s.taken) + 2
       case Finished => 0) - Owed(s.filter)
    + (if s.done then 0 else 2 * (total - |s.out|)) - Owed(s.presenter)
  }

  /** Steps still to be made, at most. */
  function Rank(s: State): nat {
    NonNegative(Work(s))
  }

  lemma ReaderLowersWork(s: State)
    requires Enabled(s, READER)
    ensures Work(ReaderStep(s)) < Work(s)
  {
  }

  lemma FilterLowersWork(s: State)
    requires Enabled(s, FILTER) && s.taken <= |s.lines| + 1
    ensures Work(FilterStep(s)) < Work(s)
  {
  }

  lemma PresenterLowersWork(s: State)
    requires Enabled(s, PRESENTER) && |s.out| <= |s.lines|
    ensures Work(PresenterStep(s)) < Work(s)
  {
  }

  /** Every step is progress; waking another thread costs nothing. */
  lemma StepLowersWork(s: State, s': State)
    requires Step(s, s') && s.taken <= |s.lines| + 1 && |s.out| <= |s.lines|
    ensures Work(s') < Work(s)
  {
    if Enabled(s, READER) && s' == ReaderStep(s) {
      ReaderLowersWork(s);
    } else if Enabled(s, FILTER) && s' == FilterStep(s) {
      FilterLowersWork(s);
    } else {
      PresenterLowersWork(s);
    }
  }

  lemma WorkNonNegative(s: State)
    requires Inv(s)
    ensures Work(s) >= 0
  {
    ShownIsPrefix(s);
  }

  lemma StepLowersRank(s: State, s': State)
    requires Inv(s) && Step(s, s')
    ensures Rank(s') < Rank(s)
  {
    StepKeepsInv(s, s');
    ShownIsPrefix(s);
    StepLowersWork(s, s');
    WorkNonNegative(s');
  }

  predicate Finished3(s: State) {
    ReaderDone(s) && s.at.Finished? && s.done
  }

  /** Once the filter has ended, the sentinel is in the second queue until the presenter takes it. */
  lemma SentinelDelivered(s: State)
    requires Inv(s) && s.at.Finished? && !s.done
    ensures s.q2.list != []
  {
    KeptFeed(s.word, s.lines);
    var m := Matching(s.word, s.lines);
    assert (AsItems(m) + [Null])[|m|] == Null;
    assert Stream(s) == AsItems(s.out) + s.q2.list;
  }

  /** Some thread can always run until all three have ended. */
  lemma NeverStuck(s: State)
    requires Inv(s) && !Finished3(s)
    ensures Enabled(s, READER) || Enabled(s, FILTER) || Enabled(s, PRESENTER)
  {
    ShownIsPrefix(s);
    if s.at.Finished? && !s.done {
      SentinelDelivered(s);
    }
  }

  lemma RunInv(run: seq<State>, k: nat)
    requires IsRun(Init, Step, run) && k < |run|
    ensures Inv(run[k])
  {
    forall s | Init(s) ensures Inv(s) { InitInv(s); }
    forall s, s' | Inv(s) && Step(s, s') ensures Inv(s') { StepKeepsInv(s, s'); }
    Always(Init, Step, Inv, run, k);
  }

  lemma {:induction false} InputsFixed(run: seq<State>, k: nat)
    requires IsRun(Init, Step, run) && k < |run|
    ensures run[k].word == run[0].word && run[k].lines == run[0].lines
  {
    if k > 0 {
      InputsFixed(run, k - 1);
      StepAt(Init, Step, run, k);
    }
  }

  lemma RunBounded(run: seq<State>, k: nat)
    requires IsRun(Init, Step, run) && k < |run|
    ensures k <= Rank(run[0])
  {
    forall s | Init(s) ensures Inv(s) { InitInv(s); }
    forall s, s' | Inv(s) && Step(s, s') ensures Inv(s') && Rank(s') < Rank(s) {
      StepKeepsInv(s, s');
      StepLowersRank(s, s');
    }
    Bounded(Init, Step, Inv, Rank, run, k);
  }

  /** Total correctness under every scheduling: a run cannot last longer than 8 steps for each line
      and 8 more; while some thread has not ended one can run; and when none can, all have ended and
      the presenter has shown exactly the matching lines, in order, and counted them. */
  lemma PipelineCorrect(run: seq<State>)
    requires IsRun(Init, Step, run)
    ensures |run| <= 8 * |run[0].lines| + 9
    ensures var s := run[|run| - 1];
            && s.out <= Matching(run[0].word, run[0].lines)
            && ((forall t :: !Enabled(s, t)) <==> Finished3(s))
            && (s.done ==> s.out == Matching(run[0].word, run[0].lines) && s.count == |s.out|)
  {
    var k := |run| - 1;
    RunInv(run, k);
    InputsFixed(run, k);
    ShownIsPrefix(run[k]);
    if !Finished3(run[k]) {
      NeverStuck(run[k]);
    }
    RunBounded(run, k);
  }
}
