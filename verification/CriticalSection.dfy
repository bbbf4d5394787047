/** The critical-section discipline: disable_count and nested_count along every run of the kernel.

    A kernel function is seen as the skeleton of what it does to the two counters: the enter_critical() and
    leave_critical() calls, the ASSERTs, the context switches, and the branches and loops around them, whose conditions
    are left open. Any thread may be picked at a switch, and an interrupt may come whenever disable_count is zero. */
module CriticalSection {
  datatype Op =
    | Enter               // ENTER_CRITICAL: panics unless disable_count is 0
    | Leave               // LEAVE_CRITICAL: panics unless disable_count is 1
    | AssertOn            // ASSERT(disable_count)
    | AssertOff           // ASSERT(!disable_count)
    | AssertNested        // ASSERT(current_running->nested_count)
    | AssertNotNested     // ASSERT2(current_running->nested_count == 0, ...)
    | Nest                // current_running->nested_count++
    | Unnest              // current_running->nested_count--
    | Resume              // scheduler() takes another thread, whose scheduler_entry() leaves the critical section
    | Vanish              // the same, but nothing will pick the current thread again
    | Create              // do_spawn(): a new thread, which starts in first_entry()
    | Timer               // timer_irq()
    | AssertFalse         // ASSERT(FALSE)

  datatype Code =
    | Skip
    | Do(op: Op, next: Code)
    | Either(a: Code, b: Code, next: Code)
    | Loop(body: Code, next: Code)

  function Then(c: Code, k: Code): Code {
    match c
    case Skip => k
    case Do(op, next) => Do(op, Then(next, k))
    case Either(a, b, next) => Either(a, b, Then(next, k))
    case Loop(body, next) => Loop(body, Then(next, k))
  }

  // ---------- the kernel's functions ----------

  function One(op: Op): Code { Do(op, Skip) }
  function Maybe(c: Code): Code { Either(c, Skip, Skip) }
  function Critical(c: Code): Code { Do(Enter, Then(c, One(Leave))) }

  /** scheduler_entry() by a thread that is back on the ready queue: the idle loop of scheduler() is not entered. */
  function Preempted(): Code { Do(AssertOn, One(Resume)) }

  /** scheduler_entry() by a thread that is not. While the idle loop opens the critical section, current_running is
      still that thread, and timer_irq() must not put it on the ready queue: hence AssertNested. */
  function Parked(how: Op): Code {
    Do(AssertOn, Loop(Do(AssertNested, Do(Leave, One(Enter))), One(how)))
  }

  function Block(): Code { Do(AssertOn, Then(Parked(Resume), One(Enter))) }
  function Unblock(): Code { One(AssertOn) }
  function UnblockOne(): Code { Do(AssertNested, Maybe(Unblock())) }
  function AcquireHelper(): Code { Do(AssertOn, Maybe(Maybe(Block()))) }
  function ReleaseHelper(): Code { Do(AssertOn, UnblockOne()) }
  function LockAcquire(): Code { Critical(AcquireHelper()) }
  function LockRelease(): Code { Critical(ReleaseHelper()) }
  function UnderLock(): Code { Then(LockAcquire(), LockRelease()) }
  function WaitForRoom(): Code { Critical(Maybe(Block())) }
  function WakeAll(): Code { Critical(Loop(Unblock(), Skip)) }
  function Transfer(): Code { Then(WaitForRoom(), Then(UnderLock(), WakeAll())) }
  function MboxClose(): Code { Then(Critical(Skip), UnderLock()) }

  datatype Call =
    | LockAcquireCall | LockReleaseCall
    | ConditionWait | ConditionSignal | ConditionBroadcast
    | SemaphoreUp | SemaphoreDown
    | BarrierWait
    | Yield | Sleep | Exit
    | GetPid | SetPriority
    | MboxOpen | MboxCloseCall | MboxSend | MboxRecv
    | Spawn | Kill
    | Wait(found: bool)
    | Elsewhere           // a call that touches neither counter

  function Body(call: Call): Code {
    match call
    case LockAcquireCall => LockAcquire()
    case LockReleaseCall => LockRelease()
    case ConditionWait => Critical(Then(ReleaseHelper(), Then(Block(), AcquireHelper())))
    case ConditionSignal => Critical(UnblockOne())
    case ConditionBroadcast => Critical(Loop(UnblockOne(), Skip))
    case SemaphoreUp => Critical(Maybe(UnblockOne()))
    case SemaphoreDown => Critical(Maybe(Block()))
    case BarrierWait => Critical(Either(Loop(UnblockOne(), Skip), Block(), Skip))
    case Yield => Do(Enter, Preempted())
    case Sleep => Do(AssertOff, Critical(Maybe(Then(Parked(Resume), One(Enter)))))
    case Exit => Do(Enter, Parked(Vanish))
    case GetPid => Critical(Skip)
    case SetPriority => Maybe(Critical(Skip))
    case MboxOpen => Maybe(UnderLock())
    case MboxCloseCall => MboxClose()
    case MboxSend => Transfer()
    case MboxRecv => Transfer()
    case Spawn => Critical(Maybe(One(Create)))
    case Kill => Maybe(Loop(Maybe(MboxClose()), WakeAll()))
    case Wait(found) => if found then Critical(Block()) else One(Enter)
    case Elsewhere => Skip
  }

  /** system_call_helper(), with the end of handle_syscall(). */
  function Syscall(c: Code): Code {
    Do(AssertNotNested, Do(Enter, Do(Nest, Do(Leave, Then(c, Do(Enter, Do(Unnest, Do(AssertNotNested, One(Leave)))))))))
  }

  function HandleInt(): Code { Critical(Maybe(One(Timer))) }
  function Preempt(): Code { Then(Preempted(), One(Enter)) }
  function SimpleHandler(): Code { One(Leave) }
  function FirstEntry(): Code { Critical(Skip) }

  /** The end of _start(): "init" is on the ready queue, and nothing is to come back here. */
  function Start(): Code { Then(Body(Spawn), Do(Enter, Do(AssertOn, Do(Vanish, One(AssertFalse))))) }

  // ---------- threads and runs ----------

  datatype Kind = Process | KernelThread

  /** nested_count outside any system call. */
  function Base(kind: Kind): int { if kind == Process then 0 else 1 }

  function Program(call: Call, kind: Kind): Code { if kind == Process then Syscall(Body(call)) else Body(call) }

  datatype Thread = Thread(kind: Kind, code: Code, nested: int, gone: bool)

  datatype State = State(disable: int, current: nat, threads: seq<Thread>, panicked: bool)

  ghost predicate Wellformed(s: State) { s.current < |s.threads| }

  datatype Event =
    | CallOf(call: Call)                            // a thread outside the kernel calls it
    | Interrupt                                     // handle_int()
    | Exception                                     // simple_handler()
    | Advance(to: nat, left: bool, kind: Kind)      // the next operation, with its choices

  function Boot(): State { State(0, 0, [Thread(Process, Start(), 0, false)], false) }

  function Now(s: State): Thread requires Wellformed(s) { s.threads[s.current] }

  function WithCode(s: State, c: Code): State
    requires Wellformed(s)
  {
    s.(threads := s.threads[s.current := Now(s).(code := c)])
  }

  /** Whether op passes at these values of the two counters. */
  predicate Passes(op: Op, d: int, n: int) {
    match op
    case Enter => d == 0
    case Leave => d == 1
    case AssertOn => d != 0
    case AssertOff => d == 0
    case AssertNested => n != 0
    case AssertNotNested => n == 0
    case Resume => d == 1
    case Vanish => d == 1
    case AssertFalse => false
    case _ => true
  }

  function Perform(s: State, op: Op, rest: Code, e: Event): State
    requires Wellformed(s) && e.Advance?
  {
    var t := Now(s);
    var s' := WithCode(s, rest);
    if !Passes(op, s.disable, t.nested) then s.(panicked := true)
    else match op
      case Enter => s'.(disable := s.disable + 1)
      case Leave => s'.(disable := s.disable - 1)
      case Nest => s'.(threads := s.threads[s.current := t.(code := rest, nested := t.nested + 1)])
      case Unnest => s'.(threads := s.threads[s.current := t.(code := rest, nested := t.nested - 1)])
      case Resume => if Alive(s, e.to) then s'.(disable := s.disable - 1, current := e.to) else s
      case Vanish =>
        if Alive(s, e.to) && e.to != s.current
        then s'.(disable := s.disable - 1, current := e.to, threads := s.threads[s.current := t.(gone := true)])
        else s
      case Create => s'.(threads := s'.threads + [Thread(e.kind, FirstEntry(), Base(e.kind), false)])
      case Timer => if t.nested != 0 then s' else WithCode(s, Then(Preempt(), rest))
      case _ => s'
  }

  predicate Alive(s: State, t: nat) { t < |s.threads| && !s.threads[t].gone }

  /** An event that is not possible changes nothing. */
  function Step(s: State, e: Event): (s': State)
    requires Wellformed(s)
    ensures Wellformed(s')
  {
    if s.panicked then s
    else match e
      case CallOf(call) => if Now(s).code == Skip then WithCode(s, Program(call, Now(s).kind)) else s
      case Interrupt => if s.disable == 0 then WithCode(s, Then(HandleInt(), Now(s).code)) else s
      case Exception => WithCode(s, Then(SimpleHandler(), Now(s).code))
      case Advance(to, left, kind) =>
        match Now(s).code
        case Skip => s
        case Do(op, next) => Perform(s, op, next, e)
        case Either(a, b, next) => WithCode(s, Then(if left then a else b, next))
        case Loop(body, next) => WithCode(s, if left then Then(body, Now(s).code) else next)
  }

  // ---------- what a piece of code does to the counters, whatever its branches ----------

  datatype Effect = Panics | Never | Reaches(d: int, n: int)

  function EffectOf(op: Op, d: int, n: int): Effect {
    if !Passes(op, d, n) then Panics
    else match op
      case Enter => Reaches(d + 1, n)
      case Leave => Reaches(d - 1, n)
      case Nest => Reaches(d, n + 1)
      case Unnest => Reaches(d, n - 1)
      case Resume => Reaches(0, n)
      case Vanish => Never
      case Timer => if d == 1 then Reaches(d, n) else Panics
      case _ => Reaches(d, n)
  }

  function Join(a: Effect, b: Effect): Effect {
    if a == Never then b else if b == Never || a == b then a else Panics
  }

  function Flow(c: Code, d: int, n: int): Effect
    decreases c, n
  {
    match c
    case Skip => Reaches(d, n)
    case Do(op, next) =>
      var e := EffectOf(op, d, n);
      if e.Reaches? then Flow(next, e.d, e.n) else e
    case Either(a, b, next) =>
      var e := Join(Flow(a, d, n), Flow(b, d, n));
      if e.Reaches? then Flow(next, e.d, e.n) else e
    case Loop(body, next) =>
      var e := Flow(body, d, n);
      if e == Never || e == Reaches(d, n) then Flow(next, d, n) else Panics
  }

  lemma {:induction false} FlowThen(a: Code, b: Code, d: int, n: int)
    ensures Flow(Then(a, b), d, n) == var e := Flow(a, d, n); if e.Reaches? then Flow(b, e.d, e.n) else e
    decreases a
  {
    match a
    case Skip =>
    case Do(op, next) =>
      var e := EffectOf(op, d, n);
      if e.Reaches? { FlowThen(next, b, e.d, e.n); }
    case Either(x, y, next) =>
      var e := Join(Flow(x, d, n), Flow(y, d, n));
      if e.Reaches? { FlowThen(next, b, e.d, e.n); }
    case Loop(body, next) => FlowThen(next, b, d, n);
  }

  /** The code neither panics nor ends anywhere but outside the critical section at the thread's own nesting. */
  predicate Disciplined(c: Code, d: int, n: int, kind: Kind) {
    var e := Flow(c, d, n);
    e == Never || e == Reaches(0, Base(kind))
  }

  lemma CriticalFlow(c: Code, n: int)
    requires Flow(c, 1, n) == Reaches(1, n)
    ensures Flow(Critical(c), 0, n) == Reaches(0, n)
  {
    FlowThen(c, One(Leave), 1, n);
  }

  lemma ThenFlow(a: Code, b: Code, d: int, n: int)
    requires Flow(a, d, n) == Reaches(d, n)
    ensures Flow(Then(a, b), d, n) == Flow(b, d, n)
  {
    FlowThen(a, b, d, n);
  }

  lemma IdleFlow(how: Op, n: int)
    requires (how == Resume || how == Vanish) && n != 0
    ensures Flow(Parked(how), 1, n) == EffectOf(how, 1, n)
  {
    var turn := Do(AssertNested, Do(Leave, One(Enter)));
    assert Flow(One(Enter), 0, n) == Reaches(1, n);
    assert Flow(Do(Leave, One(Enter)), 1, n) == Reaches(1, n);
    assert Flow(turn, 1, n) == Reaches(1, n);
    assert Flow(Loop(turn, One(how)), 1, n) == Flow(One(how), 1, n) == EffectOf(how, 1, n);
  }

  lemma PartsFlow(n: int)
    requires n != 0
    ensures Flow(Block(), 1, n) == Reaches(1, n)
    ensures Flow(UnblockOne(), 1, n) == Reaches(1, n)
    ensures Flow(AcquireHelper(), 1, n) == Reaches(1, n)
    ensures Flow(ReleaseHelper(), 1, n) == Reaches(1, n)
    ensures Flow(Loop(UnblockOne(), Skip), 1, n) == Reaches(1, n)
    ensures Flow(Loop(Unblock(), Skip), 1, n) == Reaches(1, n)
  {
    IdleFlow(Resume, n);
    FlowThen(Parked(Resume), One(Enter), 1, n);
    assert Flow(One(Enter), 0, n) == Reaches(1, n);
    assert Flow(Unblock(), 1, n) == Reaches(1, n);
    assert Flow(Maybe(Block()), 1, n) == Reaches(1, n);
  }

  lemma LocksFlow(n: int)
    requires n != 0
    ensures Flow(LockAcquire(), 0, n) == Reaches(0, n)
    ensures Flow(LockRelease(), 0, n) == Reaches(0, n)
    ensures Flow(UnderLock(), 0, n) == Reaches(0, n)
    ensures Flow(MboxClose(), 0, n) == Reaches(0, n)
  {
    PartsFlow(n);
    CriticalFlow(AcquireHelper(), n);
    CriticalFlow(ReleaseHelper(), n);
    ThenFlow(LockAcquire(), LockRelease(), 0, n);
    CriticalFlow(Skip, n);
    ThenFlow(Critical(Skip), UnderLock(), 0, n);
  }

  lemma MaybeFlow(c: Code, d: int, n: int)
    requires Flow(c, d, n) == Reaches(d, n)
    ensures Flow(Maybe(c), d, n) == Reaches(d, n) && Flow(Loop(c, Skip), d, n) == Reaches(d, n)
  {
  }

  lemma SyncFlow(call: Call, n: int)
    requires n != 0
    requires call.LockAcquireCall? || call.LockReleaseCall? || call.ConditionWait? || call.ConditionSignal?
          || call.ConditionBroadcast? || call.SemaphoreUp? || call.SemaphoreDown? || call.BarrierWait?
    ensures Flow(Body(call), 0, n) == Reaches(0, n)
  {
    PartsFlow(n);
    match call
    case LockAcquireCall => LocksFlow(n);
    case LockReleaseCall => LocksFlow(n);
    case ConditionWait =>
      ThenFlow(Block(), AcquireHelper(), 1, n);
      ThenFlow(ReleaseHelper(), Then(Block(), AcquireHelper()), 1, n);
      CriticalFlow(Then(ReleaseHelper(), Then(Block(), AcquireHelper())), n);
    case ConditionSignal => CriticalFlow(UnblockOne(), n);
    case ConditionBroadcast => CriticalFlow(Loop(UnblockOne(), Skip), n);
    case SemaphoreUp => MaybeFlow(UnblockOne(), 1, n); CriticalFlow(Maybe(UnblockOne()), n);
    case SemaphoreDown => MaybeFlow(Block(), 1, n); CriticalFlow(Maybe(Block()), n);
    case BarrierWait => CriticalFlow(Either(Loop(UnblockOne(), Skip), Block(), Skip), n);
  }

  lemma OpenFlow(n: int)
    requires n != 0
    ensures Flow(Body(MboxOpen), 0, n) == Reaches(0, n)
  {
    LocksFlow(n);
    MaybeFlow(UnderLock(), 0, n);
  }

  lemma MboxPartsFlow(n: int)
    requires n != 0
    ensures Flow(WaitForRoom(), 0, n) == Reaches(0, n) && Flow(WakeAll(), 0, n) == Reaches(0, n)
  {
    PartsFlow(n);
    MaybeFlow(Block(), 1, n);
    CriticalFlow(Maybe(Block()), n);
    CriticalFlow(Loop(Unblock(), Skip), n);
  }

  lemma InSequence(a: Code, b: Code, c: Code, d: int, n: int)
    requires Flow(a, d, n) == Flow(b, d, n) == Flow(c, d, n) == Reaches(d, n)
    ensures Flow(Then(a, Then(b, c)), d, n) == Reaches(d, n)
  {
    ThenFlow(b, c, d, n);
    ThenFlow(a, Then(b, c), d, n);
  }

  lemma TransferFlow(n: int)
    requires n != 0
    ensures Flow(Transfer(), 0, n) == Reaches(0, n)
  {
    MboxPartsFlow(n);
    LocksFlow(n);
    InSequence(WaitForRoom(), UnderLock(), WakeAll(), 0, n);
  }

  lemma SleepFlow(n: int)
    requires n != 0
    ensures Flow(Body(Sleep), 0, n) == Reaches(0, n)
  {
    var nap := Then(Parked(Resume), One(Enter));
    IdleFlow(Resume, n);
    FlowThen(Parked(Resume), One(Enter), 1, n);
    assert Flow(One(Enter), 0, n) == Reaches(1, n);
    MaybeFlow(nap, 1, n);
    CriticalFlow(Maybe(nap), n);
  }

  lemma KillFlow(n: int)
    requires n != 0
    ensures Flow(Body(Kill), 0, n) == Reaches(0, n)
  {
    ClosePartsFlow(n);
    LoopThenFlow(MboxClose(), WakeAll(), 0, n);
  }

  lemma ClosePartsFlow(n: int)
    requires n != 0
    ensures Flow(MboxClose(), 0, n) == Flow(WakeAll(), 0, n) == Reaches(0, n)
  {
    LocksFlow(n);
    MboxPartsFlow(n);
  }

  lemma LoopThenFlow(body: Code, next: Code, d: int, n: int)
    requires Flow(body, d, n) == Flow(next, d, n) == Reaches(d, n)
    ensures Flow(Maybe(Loop(Maybe(body), next)), d, n) == Reaches(d, n)
  {
    MaybeFlow(body, d, n);
    MaybeFlow(Loop(Maybe(body), next), d, n);
  }

  lemma SpawnFlow(n: int)
    ensures Flow(Body(Spawn), 0, n) == Reaches(0, n)
  {
    assert Flow(One(Create), 1, n) == Reaches(1, n);
    MaybeFlow(One(Create), 1, n);
    CriticalFlow(Maybe(One(Create)), n);
  }

  lemma YieldFlow(n: int)
    requires n != 0
    ensures Flow(Body(Yield), 0, n) == Reaches(0, n)
  {
    assert Flow(One(Resume), 1, n) == Reaches(0, n);
    assert Flow(Preempted(), 1, n) == Reaches(0, n);
  }

  lemma ExitFlow(n: int)
    requires n != 0
    ensures Flow(Body(Exit), 0, n) == Never
  {
    IdleFlow(Vanish, n);
  }

  lemma CounterFlow(n: int)
    requires n != 0
    ensures Flow(Body(GetPid), 0, n) == Flow(Body(SetPriority), 0, n) == Reaches(0, n)
  {
    CriticalFlow(Skip, n);
    MaybeFlow(Critical(Skip), 0, n);
  }

  lemma WaitFlow(found: bool, n: int)
    requires n != 0
    ensures Flow(Body(Wait(found)), 0, n) == if found then Reaches(0, n) else Reaches(1, n)
  {
    if found {
      PartsFlow(n);
      CriticalFlow(Block(), n);
    }
  }

  predicate IsMailbox(call: Call) { call.MboxOpen? || call.MboxCloseCall? || call.MboxSend? || call.MboxRecv? }

  predicate IsProcess(call: Call) {
    call.Yield? || call.Sleep? || call.GetPid? || call.SetPriority? || call.Spawn? || call.Kill? || call.Elsewhere?
  }

  lemma MailboxFlow(call: Call, n: int)
    requires n != 0
    requires IsMailbox(call)
    ensures Flow(Body(call), 0, n) == Reaches(0, n)
  {
    if call.MboxOpen? { OpenFlow(n); } else if call.MboxCloseCall? { LocksFlow(n); } else { TransferFlow(n); }
  }

  lemma ProcessFlow(call: Call, n: int)
    requires n != 0
    requires IsProcess(call)
    ensures Flow(Body(call), 0, n) == Reaches(0, n)
  {
    if call.Yield? { YieldFlow(n); }
    else if call.Sleep? { SleepFlow(n); }
    else if call.Spawn? { SpawnFlow(n); }
    else if call.Kill? { KillFlow(n); }
    else if !call.Elsewhere? { CounterFlow(n); }
  }

  /** What each call does to a thread inside the kernel. */
  lemma BodyFlow(call: Call, n: int)
    requires n != 0
    ensures Flow(Body(call), 0, n)
         == if call == Exit then Never else if call == Wait(false) then Reaches(1, n) else Reaches(0, n)
  {
    if call.Exit? { ExitFlow(n); }
    else if call.Wait? { WaitFlow(call.found, n); }
    else if IsMailbox(call) { MailboxFlow(call, n); }
    else if IsProcess(call) { ProcessFlow(call, n); }
    else { SyncFlow(call, n); }
  }

  lemma SyscallFlow(c: Code)
    ensures Flow(Syscall(c), 0, 0)
         == match Flow(c, 0, 1)
            case Panics => Panics
            case Never => Never
            case Reaches(d, n) => if d == 0 && n == 1 then Reaches(0, 0) else Panics
  {
    var exit := Do(Enter, Do(Unnest, Do(AssertNotNested, One(Leave))));
    var inside := Then(c, exit);
    FlowThen(c, exit, 0, 1);
    assert Flow(Do(Nest, Do(Leave, inside)), 1, 0) == Flow(inside, 0, 1);
    var e := Flow(c, 0, 1);
    if e.Reaches? {
      assert e.d == 0 ==> Flow(exit, 0, e.n) == Flow(Do(AssertNotNested, One(Leave)), 1, e.n - 1);
    }
  }

  /** Every kernel function keeps the discipline, called directly by a kernel thread or through a system call, with one
      exception: do_wait() for a pid that does not exist stays in the critical section. */
  lemma CallIsDisciplined(call: Call, kind: Kind)
    ensures Disciplined(Program(call, kind), 0, Base(kind), kind) <==> call != Wait(false)
  {
    BodyFlow(call, Base(KernelThread));
    SyscallFlow(Body(call));
  }

  // ---------- every run ----------

  predicate ThreadOk(t: Thread, d: int) { t.gone || Disciplined(t.code, d, t.nested, t.kind) }

  /** disable_count is 0 or 1, the running thread keeps the discipline from there, and every other thread keeps it from
      outside the critical section, which is how a switch will resume it. */
  ghost predicate Inv(s: State) {
    Alive(s, s.current) && !s.panicked && (s.disable == 0 || s.disable == 1) &&
    forall i :: 0 <= i < |s.threads| ==> ThreadOk(s.threads[i], if i == s.current then s.disable else 0)
  }

  /** No call of do_wait() for an unknown pid, and no exception other than interrupts and system calls. */
  predicate Allowed(e: Event) { e != Exception && e != CallOf(Wait(false)) }

  lemma HandlerFlow(n: int)
    ensures Flow(HandleInt(), 0, n) == Reaches(0, n)
    ensures Flow(Preempt(), 1, n) == Reaches(1, n)
  {
    assert Flow(One(Timer), 1, n) == Reaches(1, n);
    MaybeFlow(One(Timer), 1, n);
    CriticalFlow(Maybe(One(Timer)), n);
    assert Flow(One(Enter), 0, n) == Reaches(1, n);
  }

  lemma StartsOk()
    ensures Inv(Boot())
    ensures forall kind :: Flow(FirstEntry(), 0, Base(kind)) == Reaches(0, Base(kind))
  {
    SpawnFlow(0);
    var rest := Do(Enter, Do(AssertOn, Do(Vanish, One(AssertFalse))));
    ThenFlow(Body(Spawn), rest, 0, 0);
    assert Flow(Do(AssertOn, Do(Vanish, One(AssertFalse))), 1, 0) == Never;
    assert Flow(rest, 0, 0) == Never;
    forall kind ensures Flow(FirstEntry(), 0, Base(kind)) == Reaches(0, Base(kind)) { CriticalFlow(Skip, Base(kind)); }
  }

  lemma BranchOk(s: State, left: bool)
    requires Inv(s) && (Now(s).code.Either? || Now(s).code.Loop?)
    ensures Inv(Step(s, Advance(0, left, Process)))
  {
    var t, d := Now(s), s.disable;
    match t.code
    case Either(a, b, next) => FlowThen(if left then a else b, next, d, t.nested);
    case Loop(body, next) => FlowThen(body, t.code, d, t.nested);
    case _ =>
  }

  lemma OperationOk(s: State, e: Event)
    requires Inv(s) && Now(s).code.Do? && e.Advance?
    ensures Inv(Step(s, e))
  {
    var t, d := Now(s), s.disable;
    var op, rest := t.code.op, t.code.next;
    assert EffectOf(op, d, t.nested) != Panics;
    if op == Create { StartsOk(); }
    if op == Timer {
      HandlerFlow(t.nested);
      FlowThen(Preempt(), rest, 1, t.nested);
    }
  }

  lemma StepKeeps(s: State, e: Event)
    requires Inv(s) && Allowed(e)
    ensures Inv(Step(s, e))
  {
    match e
    case CallOf(call) => CallIsDisciplined(call, Now(s).kind);
    case Interrupt =>
      HandlerFlow(Now(s).nested);
      FlowThen(HandleInt(), Now(s).code, 0, Now(s).nested);
    case Advance(_, left, _) =>
      if Now(s).code.Do? { OperationOk(s, e); } else if Now(s).code != Skip { BranchOk(s, left); }
    case _ =>
  }

  function Run(s: State, es: seq<Event>): (s': State)
    requires Wellformed(s)
    ensures Wellformed(s')
    decreases |es|
  {
    if es == [] then s else Run(Step(s, es[0]), es[1..])
  }

  lemma {:induction false} RunKeeps(s: State, es: seq<Event>)
    requires Inv(s) && forall e <- es :: Allowed(e)
    ensures Inv(Run(s, es))
    decreases |es|
  {
    if es != [] {
      StepKeeps(s, es[0]);
      RunKeeps(Step(s, es[0]), es[1..]);
    }
  }

  /** No panic and no failed assertion in any run; the counter is 0 or 1; and a thread that is outside the kernel,
      running or not, has left every critical section and has the nesting it was created with. */
  lemma EveryRunIsDisciplined(es: seq<Event>)
    requires forall e <- es :: Allowed(e)
    ensures var s := Run(Boot(), es);
            !s.panicked && 0 <= s.disable <= 1 &&
            (Now(s).code == Skip ==> s.disable == 0) &&
            forall i :: 0 <= i < |s.threads| && !s.threads[i].gone && s.threads[i].code == Skip
                     ==> s.threads[i].nested == Base(s.threads[i].kind)
  {
    StartsOk();
    RunKeeps(Boot(), es);
  }

  /** n times the same event. */
  function Again(s: State, e: Event, n: nat): State
    requires Wellformed(s)
    decreases n
  {
    if n == 0 then s else Again(Step(s, e), e, n - 1)
  }

  // ---------- the two exclusions ----------

  /** Code that is sound inside a critical section is not sound when the section has been left under it: what it does
      next to disable_count, or asserts about it, fails. Only code that does neither gets through. */
  lemma {:induction false} SoundInsideFailsOutside(c: Code, n: int)
    requires Flow(c, 1, n) != Panics
    ensures Flow(c, 0, n) == Panics || (Flow(c, 0, n).Reaches? && Flow(c, 1, n) == Reaches(1, Flow(c, 0, n).n))
    ensures Flow(c, 0, n).Reaches? ==> Flow(c, 0, n).d == 0
    decreases c
  {
    match c
    case Skip =>
    case Do(op, next) =>
      var e := EffectOf(op, 0, n);
      if e.Reaches? { SoundInsideFailsOutside(next, e.n); }
    case Either(a, b, next) =>
      SoundInsideFailsOutside(a, n);
      SoundInsideFailsOutside(b, n);
      var e := Join(Flow(a, 0, n), Flow(b, 0, n));
      if e.Reaches? { SoundInsideFailsOutside(next, e.n); }
    case Loop(body, next) =>
      SoundInsideFailsOutside(body, n);
      SoundInsideFailsOutside(next, n);
  }

  /** An exception without a handler of its own runs simple_handler(), which leaves a critical section that it never
      entered. Whether it interrupts a critical section or not, the running thread no longer keeps the discipline. */
  lemma ExceptionBreaksDiscipline(s: State)
    requires Inv(s)
    ensures var s' := Step(s, Exception); Flow(Now(s').code, s'.disable, Now(s').nested) == Panics
  {
    HandlerLeaves(Now(s).code);
    if s.disable == 1 { SoundInsideFailsOutside(Now(s).code, Now(s).nested); }
  }

  lemma HandlerLeaves(c: Code)
    ensures Then(SimpleHandler(), c) == Do(Leave, c)
  {
    assert Then(Skip, c) == c;
  }

  /** The invariant is kept by exactly the events that StepKeeps allows, and by calls that nobody is there to make. */
  lemma KeptExactlyWhenAllowed(s: State, e: Event)
    requires Inv(s)
    ensures Inv(Step(s, e)) <==> Allowed(e) || (e == CallOf(Wait(false)) && Now(s).code != Skip)
  {
    if Allowed(e) {
      StepKeeps(s, e);
    } else if e == Exception {
      ExceptionBreaksDiscipline(s);
    } else {
      CallIsDisciplined(Wait(false), Now(s).kind);
    }
  }

  /** When the panic comes: at once when no critical section was interrupted ... */
  lemma LoneLeave(s: State, e: Event)
    requires Inv(s) && e.Advance?
    ensures Step(Step(s, Exception), e).panicked <==> s.disable == 0
  {
  }

  function Size(c: Code): nat {
    match c
    case Skip => 0
    case Do(_, next) => 1 + Size(next)
    case Either(a, b, next) => 1 + Size(a) + Size(b) + Size(next)
    case Loop(body, next) => 1 + Size(body) + Size(next)
  }

  lemma {:induction false} SizeOfThen(a: Code, b: Code)
    ensures Size(Then(a, b)) == Size(a) + Size(b)
    decreases a
  {
    match a
    case Skip =>
    case Do(_, next) => SizeOfThen(next, b);
    case Either(_, _, next) => SizeOfThen(next, b);
    case Loop(_, next) => SizeOfThen(next, b);
  }

  const GoOn: Event := Advance(0, false, Process)

  /** ... and otherwise when the thread gets to the end of its own section, here along one way through its code. */
  lemma {:induction false} LeftSectionPanics(s: State, c: Code, n: int) returns (k: nat)
    requires Wellformed(s) && !s.panicked && s.disable == 0 && Now(s).code == c && Now(s).nested == n
    requires Flow(c, 1, n) == Never || (Flow(c, 1, n).Reaches? && Flow(c, 1, n).d == 0)
    ensures Again(s, GoOn, k).panicked
    decreases Size(c)
  {
    var s' := Step(s, GoOn);
    match c
    case Do(op, next) =>
      if !Passes(op, 0, n) {
        k := 1;
        assert Again(s', GoOn, 0).panicked;
      } else if op == Timer && n == 0 {
        k := 2;
        assert Step(s', GoOn).panicked;
        assert Again(s', GoOn, 1) == Again(Step(s', GoOn), GoOn, 0);
      } else {
        k := LeftSectionPanics(s', next, EffectOf(op, 1, n).n);
        k := k + 1;
      }
    case Either(a, b, next) =>
      FlowThen(b, next, 1, n);
      SizeOfThen(b, next);
      k := LeftSectionPanics(s', Then(b, next), n);
      k := k + 1;
    case Loop(_, next) =>
      k := LeftSectionPanics(s', next, n);
      k := k + 1;
  }

  /** So after every exception a panic is within reach, without any further event from outside. */
  lemma ExceptionLeadsToPanic(s: State) returns (k: nat)
    requires Inv(s)
    ensures Again(Step(s, Exception), GoOn, k).panicked
  {
    HandlerLeaves(Now(s).code);
    var s1 := Step(s, Exception);
    var s2 := Step(s1, GoOn);
    if s.disable == 0 {
      k := 1;
      assert Again(s1, GoOn, 1) == Again(s2, GoOn, 0);
    } else {
      k := LeftSectionPanics(s2, Now(s).code, Now(s).nested);
      assert Again(s1, GoOn, k + 1) == Again(s2, GoOn, k);
      k := k + 1;
    }
  }

  lemma Passing(s: State, e: Event, op: Op, next: Code)
    requires Wellformed(s) && !s.panicked && e.Advance? && Now(s).code == Do(op, next)
    requires Passes(op, s.disable, Now(s).nested) && op in {Enter, Leave, Nest, AssertNotNested}
    ensures var s' := Step(s, e);
            !s'.panicked && Now(s').code == next &&
            Reaches(s'.disable, Now(s').nested) == EffectOf(op, s.disable, Now(s).nested)
  {
  }

  /** And a process that waits for an unknown pid panics on its way out of the system call. */
  lemma FailedWaitPanics(s: State, e: Event)
    requires Inv(s) && Now(s).kind == Process && Now(s).code == Skip && e.Advance?
    ensures Again(Step(s, CallOf(Wait(false))), e, 6).panicked
  {
    var rest := Do(Unnest, Do(AssertNotNested, One(Leave)));
    var inside := Do(Enter, Do(Enter, rest));
    var s1 := Step(s, CallOf(Wait(false)));
    assert Now(s1).code == Do(AssertNotNested, Do(Enter, Do(Nest, Do(Leave, inside))));
    Passing(s1, e, AssertNotNested, Do(Enter, Do(Nest, Do(Leave, inside))));
    var s2 := Step(s1, e);
    Passing(s2, e, Enter, Do(Nest, Do(Leave, inside)));
    var s3 := Step(s2, e);
    Passing(s3, e, Nest, Do(Leave, inside));
    var s4 := Step(s3, e);
    Passing(s4, e, Leave, inside);
    FailedExitPanics(Step(s4, e), e, rest);
    assert Again(s4, e, 3) == Again(Step(s4, e), e, 2);
    assert Again(s2, e, 5) == Again(s3, e, 4) == Again(s4, e, 3);
    assert Again(s1, e, 6) == Again(s2, e, 5);
  }

  lemma FailedExitPanics(s: State, e: Event, rest: Code)
    requires Wellformed(s) && !s.panicked && s.disable == 0 && Now(s).code == Do(Enter, Do(Enter, rest)) && e.Advance?
    ensures Again(s, e, 2).panicked
  {
    Passing(s, e, Enter, Do(Enter, rest));
    var s' := Step(s, e);
    assert Step(s', e).panicked;
    assert Again(s, e, 2) == Again(s', e, 1);
  }
}
