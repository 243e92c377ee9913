/** The context switch of the user-thread library (uthread/ctxswitch.s) on a small machine: the stack
    pointer, the callee-saved general registers of the System V AMD64 ABI (section 3.2.1), the two
    argument registers and memory. Addresses count 8-byte words, so a push moves the stack pointer by
    one. A thread descriptor is known by its address, whose first word holds the saved stack pointer. */
module ContextSwitch {
  import opened Runs

  datatype Machine = Machine(
    rip: int, rsp: int, rbp: int, rbx: int, r12: int, r13: int, r14: int, r15: int,
    rdi: int, rsi: int,
    mem: map<int, int>,
    running: int)  // running_thread

  function Read(mem: map<int, int>, a: int): int {
    if a in mem then mem[a] else 0
  }

  /** What a thread must find when it goes on after its call: where, and with which registers. */
  datatype Context = Context(
    rip: int, rsp: int, rbp: int, rbx: int, r12: int, r13: int, r14: int, r15: int)

  function Now(m: Machine): Context {
    Context(m.rip, m.rsp, m.rbp, m.rbx, m.r12, m.r13, m.r14, m.r15)
  }

  /** The same, for a thread about to execute the first instruction of a function it has called: the
      return address is on top of its stack. */
  function AtCall(m: Machine): Context {
    Context(Read(m.mem, m.rsp), m.rsp + 1, m.rbp, m.rbx, m.r12, m.r13, m.r14, m.r15)
  }

  /** The seven words from `sp` up restore context `c`. */
  predicate FrameAt(mem: map<int, int>, sp: int, c: Context) {
    && c.rsp == sp + 7
    && Read(mem, sp) == c.r15 && Read(mem, sp + 1) == c.r14
    && Read(mem, sp + 2) == c.r13 && Read(mem, sp + 3) == c.r12
    && Read(mem, sp + 4) == c.rbx && Read(mem, sp + 5) == c.rbp
    && Read(mem, sp + 6) == c.rip
  }

  /** Memory once the six registers are pushed and the stack pointer is stored in the descriptor. */
  function Saved(m: Machine): map<int, int> {
    m.mem[m.rsp - 1 := m.rbp][m.rsp - 2 := m.rbx][m.rsp - 3 := m.r12][m.rsp - 4 := m.r13]
    [m.rsp - 5 := m.r14][m.rsp - 6 := m.r15][m.rdi := m.rsp - 6]
  }

  /** Pop the six registers from the stack at `sp` and return. */
  function Restored(m: Machine, sp: int): Machine {
    m.(r15 := Read(m.mem, sp), r14 := Read(m.mem, sp + 1), r13 := Read(m.mem, sp + 2),
       r12 := Read(m.mem, sp + 3), rbx := Read(m.mem, sp + 4), rbp := Read(m.mem, sp + 5),
       rip := Read(m.mem, sp + 6), rsp := sp + 7)
  }

  function Switched(m: Machine): Machine {
    Restored(m.(mem := Saved(m), running := m.rsi), Read(Saved(m), m.rsi))
  }

  /** internal_exit, when cleanup_thread leaves memory as `after`. */
  function Exited(m: Machine, after: map<int, int>): Machine {
    Restored(m.(mem := after, running := m.rsi), Read(m.mem, m.rsi))
  }

  /** The processor, changed in place instruction by instruction. */
  class Cpu {
    var rip: int
    var rsp: int
    var rbp: int
    var rbx: int
    var r12: int
    var r13: int
    var r14: int
    var r15: int
    var rdi: int
    var rsi: int
    var mem: map<int, int>
    var running: int

    ghost function Value(): Machine
      reads this
    {
      Machine(rip, rsp, rbp, rbx, r12, r13, r14, r15, rdi, rsi, mem, running)
    }

    method Push(x: int)
      modifies `rsp, `mem
      ensures rsp == old(rsp) - 1 && mem == old(mem)[old(rsp) - 1 := x]
    {
      rsp := rsp - 1;
      mem := mem[rsp := x];
    }

    method Pop() returns (x: int)
      modifies `rsp
      ensures x == Read(mem, old(rsp)) && rsp == old(rsp) + 1
    {
      x := Read(mem, rsp);
      rsp := rsp + 1;
    }

    method PopContextAndReturn()
      modifies `rsp, `rip, `rbp, `rbx, `r12, `r13, `r14, `r15
      ensures r15 == Read(mem, old(rsp)) && r14 == Read(mem, old(rsp) + 1)
      ensures r13 == Read(mem, old(rsp) + 2) && r12 == Read(mem, old(rsp) + 3)
      ensures rbx == Read(mem, old(rsp) + 4) && rbp == Read(mem, old(rsp) + 5)
      ensures rip == Read(mem, old(rsp) + 6) && rsp == old(rsp) + 7
    {
      r15 := Pop();
      r14 := Pop();
      r13 := Pop();
      r12 := Pop();
      rbx := Pop();
      rbp := Pop();
      rip := Pop();  // ret
    }

    method SaveContext()
      modifies `rsp, `mem
      ensures rsp == old(rsp) - 6 && mem == Saved(old(Value()))
    {
      Push(rbp);
      Push(rbx);
      Push(r12);
      Push(r13);
      Push(r14);
      Push(r15);
      mem := mem[rdi := rsp];
    }

    /** context_switch, entered by a call with the current thread in RDI and the next in RSI. */
    method SwitchContext()
      modifies this
      ensures Value() == Switched(old(Value()))
      ensures running == old(rsi) && rsp == Read(mem, old(rsi)) + 7
    {
      SaveContext();
      running := rsi;
      rsp := Read(mem, rsi);
      PopContextAndReturn();
    }

    /** internal_exit. The call of cleanup_thread runs on the next thread's stack, below its saved
        frame; `after` is the memory when it returns, to the address `site` it was called from. */
    method InternalExit(after: map<int, int>, site: int)
      requires Read(after, Read(mem, rsi) - 1) == site
      requires forall a :: Read(mem, rsi) <= a < Read(mem, rsi) + 7 ==> Read(after, a) == Read(mem, a)
      modifies this
      ensures Value() == Exited(old(Value()), after)
      ensures running == old(rsi)
      ensures forall t: Stack, c: Context :: Resumable(old(mem), old(rsi), t, c) ==> Now(Value()) == c
    {
      running := rsi;
      rsp := Read(mem, rsi);
      Push(site);  // call cleanup_thread
      mem := after;
      rip := Pop();  // its ret
      assert rip == site;
      PopContextAndReturn();
    }
  }

  datatype Stack = Stack(lo: int, hi: int) {
    predicate Has(a: int) { lo <= a < hi }
  }

  datatype System = System(
    m: Machine,
    stacks: map<int, Stack>,      // live threads, by descriptor address
    promised: map<int, Context>)  // what each suspended thread is to be resumed with

  datatype Action =
    | Compute(m: Machine)                              // the running thread's own code
    | Switch(next: int)
    | Exit(next: int, after: map<int, int>)
    | Create(thread: int, stack: Stack, start: Context, after: map<int, int>)

  ghost predicate Disjoint(s: Stack, t: Stack) {
    s.hi <= t.lo || t.hi <= s.lo
  }

  /** The word of thread u's descriptor that holds its saved stack pointer, and the frame there. */
  predicate SavedWord(mem: map<int, int>, u: int, a: int) {
    a == u || Read(mem, u) <= a < Read(mem, u) + 7
  }

  ghost predicate SameFrame(mem: map<int, int>, after: map<int, int>, u: int) {
    forall a :: SavedWord(mem, u, a) ==> Read(after, a) == Read(mem, a)
  }

  /** `after` leaves what is saved of every suspended thread. All else may change: the running thread's
      stack, and any other word of a suspended thread's stack, such as the links of a wait block that
      a thread has parked there. */
  ghost predicate KeepsFrames(s: System, after: map<int, int>) {
    forall u :: u in s.stacks && u != s.m.running ==> SameFrame(s.m.mem, after, u)
  }

  ghost predicate Acts(s: System, a: Action, s': System) {
    && s.m.running in s.stacks
    && var current := s.m.running;
    match a
    case Compute(m) =>
      && m.running == current && KeepsFrames(s, m.mem)
      && s' == s.(m := m)
    case Switch(next) =>
      // called with room for the frame on the thread's own stack
      && s.m.rdi == current && s.m.rsi == next && next in s.stacks
      && s.stacks[current].lo + 6 <= s.m.rsp < s.stacks[current].hi
      && s' == s.(m := Switched(s.m), promised := s.promised[current := AtCall(s.m)])
    case Exit(next, after) =>
      && s.m.rsi == next && next in s.stacks && next != current
      && KeepsFrames(s, after)
      && s' == System(Exited(s.m, after), s.stacks - {current}, s.promised - {current})
    case Create(t, stack, start, after) =>
      // a fresh descriptor and a fresh stack with an initial frame near its top (ut_create)
      && t !in s.stacks && !stack.Has(t)
      && stack.lo <= stack.hi - 8 && start.rsp == stack.hi - 1
      && (forall u :: u in s.stacks ==>
            !s.stacks[u].Has(t) && !stack.Has(u) && Disjoint(stack, s.stacks[u]))
      && Read(after, t) == stack.hi - 8 && FrameAt(after, stack.hi - 8, start)
      && KeepsFrames(s, after)
      && s' == System(s.m.(mem := after), s.stacks[t := stack], s.promised[t := start])
  }

  ghost predicate Step(s: System, s': System) {
    exists a :: Acts(s, a, s')
  }

  /** At first only the operating-system thread exists. */
  ghost predicate Init(s: System) {
    && s.stacks.Keys == s.promised.Keys == {s.m.running}
    && !s.stacks[s.m.running].Has(s.m.running)
  }

  ghost predicate Layout(s: System) {
    && s.m.running in s.stacks && s.stacks.Keys == s.promised.Keys
    && (forall t, u :: t in s.stacks && u in s.stacks ==> !s.stacks[t].Has(u))
    && (forall t, u :: t in s.stacks && u in s.stacks && t != u ==> Disjoint(s.stacks[t], s.stacks[u]))
  }

  /** The frame of a suspended thread is on its own stack and restores what it was promised. */
  predicate Resumable(mem: map<int, int>, t: int, stack: Stack, c: Context) {
    var sp := Read(mem, t);
    && stack.lo <= sp && sp + 7 <= stack.hi
    && FrameAt(mem, sp, c)
  }

  ghost predicate Inv(s: System) {
    && Layout(s)
    && forall t :: t in s.stacks && t != s.m.running ==> Resumable(s.m.mem, t, s.stacks[t], s.promised[t])
  }

  lemma InitInv(s: System)
    requires Init(s)
    ensures Inv(s)
  {
  }

  /** The frame that context_switch pushes restores the caller as it was at the call. */
  lemma SavedFrame(m: Machine)
    requires !(m.rsp - 6 <= m.rdi <= m.rsp)
    ensures FrameAt(Saved(m), m.rsp - 6, AtCall(m)) && Read(Saved(m), m.rdi) == m.rsp - 6
    ensures forall a :: a != m.rdi && !(m.rsp - 6 <= a < m.rsp) ==> Read(Saved(m), a) == Read(m.mem, a)
  {
  }

  /** Memory that agrees on what is saved of a thread keeps it resumable. */
  lemma StaysResumable(mem: map<int, int>, after: map<int, int>, t: int, stack: Stack, c: Context)
    requires Resumable(mem, t, stack, c) && SameFrame(mem, after, t)
    ensures Resumable(after, t, stack, c)
  {
    var sp := Read(mem, t);
    assert SavedWord(mem, t, t);
    assert forall a :: sp <= a < sp + 7 ==> SavedWord(mem, t, a);
  }

  /** Saving the context writes the caller's descriptor and its own stack, nothing else. */
  lemma SaveStaysOnOwnStack(s: System)
    requires Layout(s) && s.m.rdi == s.m.running
    requires s.stacks[s.m.running].lo + 6 <= s.m.rsp < s.stacks[s.m.running].hi
    ensures !(s.m.rsp - 6 <= s.m.rdi <= s.m.rsp)
    ensures forall u :: u in s.stacks && u != s.m.running ==> Read(Saved(s.m), u) == Read(s.m.mem, u)
    ensures forall u, a :: u in s.stacks && u != s.m.running && s.stacks[u].Has(a) ==>
              Read(Saved(s.m), a) == Read(s.m.mem, a)
  {
    var own := s.stacks[s.m.running];
    assert !own.Has(s.m.rdi);
    SavedFrame(s.m);
    forall u | u in s.stacks && u != s.m.running ensures Read(Saved(s.m), u) == Read(s.m.mem, u) {
      assert !own.Has(u);
    }
    forall u, a | u in s.stacks && u != s.m.running && s.stacks[u].Has(a)
      ensures Read(Saved(s.m), a) == Read(s.m.mem, a)
    {
      assert Disjoint(own, s.stacks[u]) && !s.stacks[u].Has(s.m.running);
    }
  }

  lemma SaveKeepsFrame(s: System, t: int)
    requires Inv(s) && s.m.rdi == s.m.running && t in s.stacks && t != s.m.running
    requires s.stacks[s.m.running].lo + 6 <= s.m.rsp < s.stacks[s.m.running].hi
    ensures SameFrame(s.m.mem, Saved(s.m), t)
  {
    SaveStaysOnOwnStack(s);
    forall a | SavedWord(s.m.mem, t, a) ensures Read(Saved(s.m), a) == Read(s.m.mem, a) {
      assert a != t ==> s.stacks[t].Has(a);
    }
  }

  /** Once the context is saved every thread is resumable, the caller where it was at its call. */
  lemma SavedAreResumable(s: System, t: int)
    requires Inv(s) && s.m.rdi == s.m.running && t in s.stacks
    requires s.stacks[s.m.running].lo + 6 <= s.m.rsp < s.stacks[s.m.running].hi
    ensures Resumable(Saved(s.m), t, s.stacks[t], if t == s.m.running then AtCall(s.m) else s.promised[t])
  {
    if t == s.m.running {
      SaveStaysOnOwnStack(s);
      SavedFrame(s.m);
    } else {
      SaveKeepsFrame(s, t);
      StaysResumable(s.m.mem, Saved(s.m), t, s.stacks[t], s.promised[t]);
    }
  }

  lemma SwitchKeepsInv(s: System, next: int, s': System)
    requires Inv(s) && Acts(s, Switch(next), s')
    ensures Inv(s')
    ensures Now(s'.m) == s'.promised[next]
  {
    forall t | t in s.stacks ensures Resumable(s'.m.mem, t, s.stacks[t], s'.promised[t]) {
      SavedAreResumable(s, t);
    }
  }

  lemma ExitKeepsInv(s: System, next: int, after: map<int, int>, s': System)
    requires Inv(s) && Acts(s, Exit(next, after), s')
    ensures Inv(s')
    ensures Now(s'.m) == s'.promised[next] == s.promised[next]
    ensures Resumable(after, next, s.stacks[next], s.promised[next])
  {
    forall t | t in s'.stacks ensures Resumable(after, t, s.stacks[t], s.promised[t]) {
      StaysResumable(s.m.mem, after, t, s.stacks[t], s.promised[t]);
    }
  }

  lemma ComputeKeepsInv(s: System, m: Machine, s': System)
    requires Inv(s) && Acts(s, Compute(m), s')
    ensures Inv(s')
  {
    forall t | t in s.stacks && t != s.m.running ensures Resumable(m.mem, t, s.stacks[t], s.promised[t]) {
      StaysResumable(s.m.mem, m.mem, t, s.stacks[t], s.promised[t]);
    }
  }

  lemma CreateKeepsLayout(s: System, t: int, stack: Stack, start: Context, after: map<int, int>, s': System)
    requires Layout(s) && Acts(s, Create(t, stack, start, after), s')
    ensures Layout(s') && Resumable(after, t, stack, start)
  {
  }

  lemma CreateKeepsInv(s: System, t: int, stack: Stack, start: Context, after: map<int, int>, s': System)
    requires Inv(s) && Acts(s, Create(t, stack, start, after), s')
    ensures Inv(s')
  {
    CreateKeepsLayout(s, t, stack, start, after, s');
    forall u | u in s.stacks && u != s.m.running ensures Resumable(after, u, s.stacks[u], s.promised[u]) {
      StaysResumable(s.m.mem, after, u, s.stacks[u], s.promised[u]);
    }
  }

  lemma StepKeepsInv(s: System, s': System)
    requires Inv(s) && Step(s, s')
    ensures Inv(s')
  {
    var a :| Acts(s, a, s');
    match a
    case Switch(next) => SwitchKeepsInv(s, next, s');
    case Exit(next, after) => ExitKeepsInv(s, next, after, s');
    case Compute(m) => ComputeKeepsInv(s, m, s');
    case Create(t, stack, start, after) => CreateKeepsInv(s, t, stack, start, after, s');
  }

  lemma RunInv(run: seq<System>, k: nat)
    requires IsRun(Init, Step, run) && k < |run|
    ensures Inv(run[k])
  {
    forall s | Init(s) ensures Inv(s) { InitInv(s); }
    forall s, s' | Inv(s) && Step(s, s') ensures Inv(s') { StepKeepsInv(s, s'); }
    Always(Init, Step, Inv, run, k);
  }

  lemma StepOfRun(run: seq<System>, j: nat)
    requires IsRun(Init, Step, run) && 0 < j < |run|
    ensures Inv(run[j - 1]) && Step(run[j - 1], run[j])
  {
    RunInv(run, j - 1);
    StepAt(Init, Step, run, j);
  }

  /** A switch gives the processor to the thread it is asked for, and that thread goes on where it was
      promised to, which is right after the call when a thread switches to itself. */
  lemma SwitchGivesTo(s: System, next: int, s': System)
    requires Inv(s) && Acts(s, Switch(next), s')
    ensures s'.m.running == next
    ensures Now(s'.m) == if next == s.m.running then AtCall(s.m) else s.promised[next]
    ensures s'.stacks == s.stacks
    ensures s'.promised == s.promised[s.m.running := AtCall(s.m)]
  {
    SwitchKeepsInv(s, next, s');
  }

  /** An exit gives the processor to the thread it is asked for, and the one that exits is gone. */
  lemma ExitGivesTo(s: System, next: int, after: map<int, int>, s': System)
    requires Inv(s) && Acts(s, Exit(next, after), s')
    ensures s'.m.running == next && Now(s'.m) == s.promised[next]
    ensures forall t :: t in s'.stacks <==> t in s.stacks && t != s.m.running
    ensures forall t :: t in s'.stacks ==> s'.stacks[t] == s.stacks[t] && s'.promised[t] == s.promised[t]
  {
    ExitKeepsInv(s, next, after, s');
  }

  /** A promise changes only when the thread itself switches out, or is created. */
  lemma OwnPromiseOnly(s: System, a: Action, s': System)
    requires Layout(s) && Acts(s, a, s')
    ensures forall t :: t in s.stacks && t != s.m.running ==>
              t in s'.stacks && t in s'.promised && s'.promised[t] == s.promised[t]
    ensures s.m.running in s'.stacks && s'.m.running != s.m.running ==>
              s.m.running in s'.promised && s'.promised[s.m.running] == AtCall(s.m)
  {
  }

  /** One step: whoever gets the processor finds what it was promised, and a promise changes only
      when the thread itself switches out, or is created. */
  lemma StepHonoursPromises(s: System, s': System)
    requires Inv(s) && Step(s, s')
    ensures Inv(s')
    ensures s'.m.running != s.m.running ==>
              s'.m.running in s.promised && Now(s'.m) == s.promised[s'.m.running]
    ensures forall t :: t in s.stacks && t != s.m.running ==>
              t in s'.stacks && t in s'.promised && s'.promised[t] == s.promised[t]
    ensures s.m.running in s'.stacks && s'.m.running != s.m.running ==>
              s.m.running in s'.promised && s'.promised[s.m.running] == AtCall(s.m)
  {
    StepKeepsInv(s, s');
    var a :| Acts(s, a, s');
    OwnPromiseOnly(s, a, s');
    if a.Switch? {
      SwitchKeepsInv(s, a.next, s');
    } else if a.Exit? {
      ExitKeepsInv(s, a.next, a.after, s');
    }
  }

  lemma PromiseLasts(s: System, s': System, t: int)
    requires Inv(s) && Step(s, s') && t in s.stacks && t != s.m.running
    ensures t in s'.stacks && t in s.promised && t in s'.promised && s'.promised[t] == s.promised[t]
  {
    StepHonoursPromises(s, s');
  }

  lemma Resumes(s: System, s': System, t: int)
    requires Inv(s) && Step(s, s') && t == s'.m.running != s.m.running
    ensures t in s.promised && Now(s'.m) == s.promised[t]
  {
    StepHonoursPromises(s, s');
  }

  lemma PromiseMade(s: System, s': System)
    requires Inv(s) && Step(s, s') && s.m.running in s'.stacks && s'.m.running != s.m.running
    ensures s.m.running in s'.promised && s'.promised[s.m.running] == AtCall(s.m)
  {
    StepHonoursPromises(s, s');
  }

  /** Thread t does not run from run[i] up to but not including run[j]. */
  ghost predicate Asleep(run: seq<System>, t: int, i: nat, j: nat) {
    forall k :: i <= k < j && k < |run| ==> run[k].m.running != t
  }

  /** Whatever a thread is promised, it stays promised while others run. */
  lemma {:induction false} PromiseHeld(run: seq<System>, i: nat, j: nat, t: int)
    requires IsRun(Init, Step, run) && i <= j < |run|
    requires t in run[i].stacks && t in run[i].promised
    requires Asleep(run, t, i, j)
    ensures t in run[j].stacks && t in run[j].promised && run[j].promised[t] == run[i].promised[t]
    decreases j - i
  {
    if i < j {
      PromiseHeld(run, i, j - 1, t);
      StepOfRun(run, j);
      PromiseLasts(run[j - 1], run[j], t);
    }
  }

  /** From the moment a thread switches out until it runs again it is promised the context of its call. */
  lemma PromiseKept(run: seq<System>, i: nat, j: nat, t: int)
    requires IsRun(Init, Step, run) && i < j < |run|
    requires t == run[i].m.running && t in run[i + 1].stacks
    requires Asleep(run, t, i + 1, j + 1)
    ensures t in run[j].stacks && t in run[j].promised && run[j].promised[t] == AtCall(run[i].m)
  {
    StepOfRun(run, i + 1);
    PromiseMade(run[i], run[i + 1]);
    PromiseHeld(run, i + 1, j, t);
  }

  /** In every run: when a thread that has called context_switch runs again, however many switches,
      exits and creations have happened in between, it goes on at the return address of its call with
      the stack pointer and the callee-saved registers it had at the call. */
  lemma ResumedAsItLeft(run: seq<System>, i: nat, j: nat, t: int)
    requires IsRun(Init, Step, run) && i + 1 < j < |run|
    requires t == run[i].m.running == run[j].m.running && t in run[i + 1].stacks
    requires Asleep(run, t, i + 1, j)
    ensures Now(run[j].m) == AtCall(run[i].m)
  {
    PromiseKept(run, i, j - 1, t);
    PromiseHonoured(run, j, t);
  }

  /** A thread that gets the processor finds what it was promised just before. */
  lemma PromiseHonoured(run: seq<System>, j: nat, t: int)
    requires IsRun(Init, Step, run) && 0 < j < |run|
    requires run[j].m.running == t != run[j - 1].m.running
    ensures t in run[j - 1].promised && Now(run[j].m) == run[j - 1].promised[t]
  {
    StepOfRun(run, j);
    Resumes(run[j - 1], run[j], t);
  }

  /** In every run: a thread that is switched to goes on at once where it left off or was created to
      start, whichever thread makes the switch. */
  lemma SwitchedToAtOnce(run: seq<System>, i: nat, j: nat, next: int)
    requires IsRun(Init, Step, run) && i + 1 < j && j + 1 < |run|
    requires next == run[i].m.running && next in run[i + 1].stacks && Asleep(run, next, i + 1, j + 1)
    requires Acts(run[j], Switch(next), run[j + 1])
    ensures run[j + 1].m.running == next && Now(run[j + 1].m) == AtCall(run[i].m)
  {
    RunInv(run, j);
    SwitchGivesTo(run[j], next, run[j + 1]);
    PromiseKept(run, i, j, next);
    assert run[j].m.running != next;
  }

  /** What ut_create writes: the frame near the top of the new stack and the descriptor's saved pointer. */
  function LaidOut(mem: map<int, int>, t: int, hi: int, c: Context): map<int, int> {
    mem[hi - 8 := c.r15][hi - 7 := c.r14][hi - 6 := c.r13][hi - 5 := c.r12]
    [hi - 4 := c.rbx][hi - 3 := c.rbp][hi - 2 := c.rip][t := hi - 8]
  }

  /** A thread can always be created with a fresh descriptor and a fresh stack, by just these writes. */
  lemma CreationPossible(s: System, t: int, stack: Stack, start: Context)
    requires Inv(s) && t !in s.stacks && !stack.Has(t) && stack.lo <= stack.hi - 8 && start.rsp == stack.hi - 1
    requires forall u :: u in s.stacks ==> !s.stacks[u].Has(t) && !stack.Has(u) && Disjoint(stack, s.stacks[u])
    ensures var after := LaidOut(s.m.mem, t, stack.hi, start);
            Acts(s, Create(t, stack, start, after),
                 System(s.m.(mem := after), s.stacks[t := stack], s.promised[t := start]))
  {
    var after := LaidOut(s.m.mem, t, stack.hi, start);
    assert FrameAt(after, stack.hi - 8, start);
    forall u | u in s.stacks && u != s.m.running ensures SameFrame(s.m.mem, after, u) {
      forall a | SavedWord(s.m.mem, u, a) ensures Read(after, a) == Read(s.m.mem, a) {
        assert a != u ==> s.stacks[u].Has(a);
        assert !stack.Has(a);
      }
    }
  }

  /** Any thread can be switched to, given room for a frame, and any other thread can be left to. */
  lemma SwitchPossible(s: System, next: int)
    requires Inv(s) && next in s.stacks && s.m.rsi == next
    ensures s.m.rdi == s.m.running && s.stacks[s.m.running].lo + 6 <= s.m.rsp < s.stacks[s.m.running].hi ==>
              Acts(s, Switch(next), s.(m := Switched(s.m), promised := s.promised[s.m.running := AtCall(s.m)]))
    ensures next != s.m.running ==>
              Acts(s, Exit(next, s.m.mem),
                   System(Exited(s.m, s.m.mem), s.stacks - {s.m.running}, s.promised - {s.m.running}))
  {
  }

  lemma PromiseOfCreation(s: System, t: int, stack: Stack, start: Context, after: map<int, int>, s': System)
    requires Acts(s, Create(t, stack, start, after), s')
    ensures t in s'.stacks && t in s'.promised && s'.promised[t] == start && s'.m.running == s.m.running != t
  {
  }

  /** In every run: whenever a created thread first gets the processor, by a switch or an exit of
      whichever thread, it starts where ut_create says, with the registers that it has laid out. */
  lemma StartsAsCreated(run: seq<System>, i: nat, j: nat, t: int, stack: Stack, start: Context, after: map<int, int>)
    requires IsRun(Init, Step, run) && i + 1 < j < |run|
    requires Acts(run[i], Create(t, stack, start, after), run[i + 1])
    requires run[j].m.running == t && Asleep(run, t, i + 1, j)
    ensures Now(run[j].m) == start
  {
    PromiseOfCreation(run[i], t, stack, start, after, run[i + 1]);
    PromiseHeld(run, i + 1, j - 1, t);
    PromiseHonoured(run, j, t);
  }

  /** Exactly what the running thread may write: any word but those saved of a suspended thread. */
  lemma WriteAllowedIff(s: System, a: int, x: int)
    requires Inv(s) && x != Read(s.m.mem, a)
    ensures var m := s.m.(mem := s.m.mem[a := x]);
            Acts(s, Compute(m), s.(m := m)) <==>
              forall u :: u in s.stacks && u != s.m.running ==> !SavedWord(s.m.mem, u, a)
  {
    var after := s.m.mem[a := x];
    assert Read(after, a) == x;
    assert forall b :: b != a ==> Read(after, b) == Read(s.m.mem, b);
    if u :| u in s.stacks && u != s.m.running && SavedWord(s.m.mem, u, a) {
      assert !SameFrame(s.m.mem, after, u);
    }
  }

  /** The call of cleanup_thread pushes its return address just below the next thread's frame. A
      callee that keeps that word and what is saved of every suspended thread is all that an exit
      asks for: it returns to its call, and the next thread resumes as it was promised. */
  lemma CleanupStaysBelowFrame(s: System, next: int, site: int, after: map<int, int>)
    requires Inv(s) && next in s.stacks && next != s.m.running
    requires s.stacks[next].lo < Read(s.m.mem, next)  // room for the return address
    requires var sp := Read(s.m.mem, next);
             var entered := s.m.mem[sp - 1 := site];
             && Read(after, sp - 1) == Read(entered, sp - 1)
             && forall u :: u in s.stacks && u != s.m.running ==> SameFrame(entered, after, u)
    ensures KeepsFrames(s, after)
    ensures Read(after, Read(s.m.mem, next) - 1) == site
    ensures s.m.rsi == next ==> Now(Exited(s.m, after)) == s.promised[next]
  {
    var sp, own := Read(s.m.mem, next), s.stacks[next];
    forall u | u in s.stacks && u != s.m.running ensures SameFrame(s.m.mem, after, u) {
      PushKeepsFrame(s, next, site, u);
    }
    StaysResumable(s.m.mem, after, next, own, s.promised[next]);
  }

  /** The return address lies outside everything that is saved. */
  lemma PushKeepsFrame(s: System, next: int, site: int, u: int)
    requires Inv(s) && next in s.stacks && next != s.m.running && u in s.stacks && u != s.m.running
    requires s.stacks[next].lo < Read(s.m.mem, next)
    ensures var entered := s.m.mem[Read(s.m.mem, next) - 1 := site];
            && SameFrame(s.m.mem, entered, u)
            && forall a :: SavedWord(entered, u, a) <==> SavedWord(s.m.mem, u, a)
  {
    var at := Read(s.m.mem, next) - 1;
    assert s.stacks[next].Has(at) && !s.stacks[next].Has(u);
    forall a | SavedWord(s.m.mem, u, a) ensures a != at {
      if a != u {
        assert s.stacks[u].Has(a);
      }
    }
  }
}
