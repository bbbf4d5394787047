/** The project 4 scheduler: plain round robin, and a sleep queue in arrival order of which only the head is
    looked at. As in Ageing, leaving the processor and choosing the next thread are separate steps. */
module RoundRobin {
  import opened Seqs
  import opened Placement

  datatype Kernel = Kernel(tasks: Tasks, deadline: map<Tid, int>, time: nat)

  function CheckSleeping(k: Kernel): Kernel
    decreases |k.tasks.sleepers|
  {
    if k.tasks.sleepers != [] && Field(k.deadline, k.tasks.sleepers[0]) <= k.time
    then CheckSleeping(k.(tasks := Apply(k.tasks, WakeSleeper)))
    else k
  }

  lemma CheckSleepingKeepsCurrent(k: Kernel)
    ensures var k' := CheckSleeping(k);
      k'.tasks.current == k.tasks.current && k'.tasks.waits == k.tasks.waits && k.tasks.ready <= k'.tasks.ready
    decreases |k.tasks.sleepers|
  {
  }

  datatype Event =
    | Dispatch
    | Tick
    | Yield
    | Sleep(ms: int)       // do_sleep(ms)
    | Block(q: QueueId)
    | Unblock(q: QueueId)  // no effect when q is empty
    | Exit
    | Start(t: Tid)        // an exited pcb is given to a new process

  predicate Enabled(k: Kernel, e: Event) {
    match e
    case Dispatch => k.tasks.current.None?
    case Tick => true
    case Block(q) => k.tasks.current.Some? && q in k.tasks.waits
    case Unblock(q) => k.tasks.current.Some? && q in k.tasks.waits
    case Start(t) => t in k.tasks.status && k.tasks.status[t] == Exited
    case _ => k.tasks.current.Some?
  }

  function Step(k: Kernel, e: Event): Kernel
    requires Enabled(k, e)
  {
    match e
    case Dispatch =>
      CheckSleepingKeepsCurrent(k);
      var k1 := CheckSleeping(k);
      if k1.tasks.ready == [] then k1 else k1.(tasks := Apply(k1.tasks, TakeReady(0)))
    case Tick => k.(time := k.time + 1)
    case Yield => k.(tasks := Apply(k.tasks, PutReady))
    case Sleep(ms) => PutToSleep(k, WakeTime(k.time, ms))
    case Block(q) => k.(tasks := Apply(k.tasks, PutWaiting(q)))
    case Unblock(q) => if k.tasks.waits[q] == [] then k else k.(tasks := Apply(k.tasks, WakeWaiter(q)))
    case Exit => k.(tasks := Apply(k.tasks, PutExited))
    case Start(t) => k.(tasks := Apply(k.tasks, Spawn(t)))
  }

  /** do_sleep() only leaves the processor when the deadline lies ahead. */
  function PutToSleep(k: Kernel, d: int): Kernel
    requires k.tasks.current.Some?
  {
    var k1 := k.(deadline := k.deadline[k.tasks.current.value := d]);
    if k.time < d then k1.(tasks := Apply(k.tasks, PutSleeping(|k.tasks.sleepers|))) else k1
  }

  /** `time_elapsed + milliseconds/1000`: C division truncates towards zero, the sum is a uint64_t. */
  function WakeTime(time: nat, ms: int): int {
    (time + if ms < 0 then -(-ms / 1000) else ms / 1000) % U64
  }

  /** scheduler() watched for at most `window` clock ticks of its idle loop. */
  function Schedule(k: Kernel, window: nat): Kernel
    requires k.tasks.current.None?
    decreases window
  {
    var k1 := Step(k, Dispatch);
    if k1.tasks.current.Some? || window == 0 then k1 else Schedule(Step(k1, Tick), window - 1)
  }

  /** One turn of the idle loop. */
  lemma ScheduleTurn(k: Kernel, window: nat)
    requires k.tasks.current.None? && CheckSleeping(k).tasks.ready == [] && 0 < window
    ensures CheckSleeping(k).tasks.current.None?
    ensures Schedule(k, window) == Schedule(Step(CheckSleeping(k), Tick), window - 1)
  {
    CheckSleepingKeepsCurrent(k);
  }

  lemma ScheduleEnds(k: Kernel, window: nat)
    requires k.tasks.current.None? && (window == 0 || CheckSleeping(k).tasks.ready != [])
    ensures Schedule(k, window) == Step(k, Dispatch)
  {
  }

  /** unblock_one() until the queue is empty. */
  function UnblockAll(k: Kernel, q: QueueId): Kernel
    requires q in k.tasks.waits && k.tasks.current.Some?
    decreases |k.tasks.waits[q]|
  {
    if k.tasks.waits[q] == [] then k else UnblockAll(Step(k, Unblock(q)), q)
  }

  /** Every waiter, in order, goes to the end of the ready queue and is READY; nothing else changes. */
  lemma UnblockAllWakesEach(k: Kernel, q: QueueId)
    requires q in k.tasks.waits && k.tasks.current.Some?
    ensures var k', s, s' := UnblockAll(k, q), k.tasks, UnblockAll(k, q).tasks;
      && k'.time == k.time && k'.deadline == k.deadline
      && s'.current == s.current && s'.sleepers == s.sleepers
      && s'.ready == s.ready + s.waits[q] && s'.waits == s.waits[q := []]
      && (forall t :: t in s'.status <==> t in s.status || t in s.waits[q])
      && (forall t :: t in s'.status ==> s'.status[t] == if t in s.waits[q] then Ready else s.status[t])
    ensures Placed(k.tasks) ==> Placed(UnblockAll(k, q).tasks)
  {
    UnblockAllMovesEach(k, q);
    UnblockAllMarksEach(k, q);
    if Placed(k.tasks) { UnblockAllKeepsPlaced(k, q); }
  }

  lemma {:induction false} UnblockAllMovesEach(k: Kernel, q: QueueId)
    requires q in k.tasks.waits && k.tasks.current.Some?
    ensures var k', s, s' := UnblockAll(k, q), k.tasks, UnblockAll(k, q).tasks;
      && k'.time == k.time && k'.deadline == k.deadline
      && s'.current == s.current && s'.sleepers == s.sleepers
      && s'.ready == s.ready + s.waits[q] && s'.waits == s.waits[q := []]
    decreases |k.tasks.waits[q]|
  {
    var w := k.tasks.waits[q];
    if w != [] {
      UnblockAllMovesEach(Step(k, Unblock(q)), q);
      assert w == [w[0]] + w[1..];
      assert k.tasks.ready + [w[0]] + w[1..] == k.tasks.ready + ([w[0]] + w[1..]);
    }
  }

  lemma {:induction false} UnblockAllMarksEach(k: Kernel, q: QueueId)
    requires q in k.tasks.waits && k.tasks.current.Some?
    ensures var s, s' := k.tasks, UnblockAll(k, q).tasks;
      && (forall t :: t in s'.status <==> t in s.status || t in s.waits[q])
      && (forall t :: t in s'.status ==> s'.status[t] == if t in s.waits[q] then Ready else s.status[t])
    decreases |k.tasks.waits[q]|
  {
    var w := k.tasks.waits[q];
    if w != [] {
      UnblockAllMarksEach(Step(k, Unblock(q)), q);
      assert w == [w[0]] + w[1..];
    }
  }

  lemma {:induction false} UnblockAllKeepsPlaced(k: Kernel, q: QueueId)
    requires q in k.tasks.waits && k.tasks.current.Some? && Placed(k.tasks)
    ensures Placed(UnblockAll(k, q).tasks)
    decreases |k.tasks.waits[q]|
  {
    if k.tasks.waits[q] != [] {
      MoveKeepsPlaced(k.tasks, WakeWaiter(q));
      UnblockAllKeepsPlaced(Step(k, Unblock(q)), q);
    }
  }

  // ---------- every run ----------

  /** _start() marks the pcbs 1..n EXITED and spawns the first one. */
  function Boot(n: nat, queues: set<QueueId>): Kernel
    requires 1 <= n
  {
    assert Pids(n)[0] == 1;
    Step(AllExited(n, queues), Start(1))
  }

  function AllExited(n: nat, queues: set<QueueId>): Kernel {
    Kernel(Tasks(None, [], [], map q | q in queues :: [], map t | t in Pids(n) :: Exited), map[], 0)
  }

  function Pids(n: nat): seq<Tid> { seq(n, i => i + 1) }

  lemma BootIsPlaced(n: nat, queues: set<QueueId>)
    requires 1 <= n
    ensures Placed(AllExited(n, queues).tasks) && Placed(Boot(n, queues).tasks)
    ensures var k := Boot(n, queues);
      && k.time == 0 && k.tasks.current == None && k.tasks.ready == [1] && k.tasks.sleepers == []
      && (forall q :: q in k.tasks.waits <==> q in queues) && (forall q :: q in queues ==> k.tasks.waits[q] == [])
      && (forall t :: t in k.tasks.status <==> 1 <= t <= n)
      && (forall t :: t in k.tasks.status ==> k.tasks.status[t] == if t == 1 then FirstTime else Exited)
  {
    assert Pids(n)[0] == 1;
    forall t: nat | 1 <= t <= n ensures t in Pids(n) { assert Pids(n)[t - 1] == t; }
    StepKeepsPlaced(AllExited(n, queues), Start(1));
  }

  ghost predicate IsRun(ks: seq<Kernel>, es: seq<Event>, n: nat, queues: set<QueueId>) {
    && |ks| == |es| + 1 && 1 <= n && ks[0] == Boot(n, queues)
    && forall i :: 0 <= i < |es| ==> Enabled(ks[i], es[i]) && ks[i + 1] == Step(ks[i], es[i])
  }

  lemma {:induction false} CheckSleepingKeepsPlaced(k: Kernel)
    requires Placed(k.tasks)
    ensures Placed(CheckSleeping(k).tasks)
    decreases |k.tasks.sleepers|
  {
    if k.tasks.sleepers != [] && Field(k.deadline, k.tasks.sleepers[0]) <= k.time {
      MoveKeepsPlaced(k.tasks, WakeSleeper);
      CheckSleepingKeepsPlaced(k.(tasks := Apply(k.tasks, WakeSleeper)));
    }
  }

  lemma StepKeepsPlaced(k: Kernel, e: Event)
    requires Placed(k.tasks) && Enabled(k, e)
    ensures Placed(Step(k, e).tasks)
  {
    match e
    case Dispatch =>
      CheckSleepingKeepsPlaced(k);
      CheckSleepingKeepsCurrent(k);
      var k1 := CheckSleeping(k);
      if k1.tasks.ready != [] { MoveKeepsPlaced(k1.tasks, TakeReady(0)); }
    case Tick =>
    case Yield => MoveKeepsPlaced(k.tasks, PutReady);
    case Sleep(ms) => if k.time < WakeTime(k.time, ms) { MoveKeepsPlaced(k.tasks, PutSleeping(|k.tasks.sleepers|)); }
    case Block(q) => MoveKeepsPlaced(k.tasks, PutWaiting(q));
    case Unblock(q) => if k.tasks.waits[q] != [] { MoveKeepsPlaced(k.tasks, WakeWaiter(q)); }
    case Exit => MoveKeepsPlaced(k.tasks, PutExited);
    case Start(t) => MoveKeepsPlaced(k.tasks, Spawn(t));
  }

  /** In every reachable state each live pcb is the running one or in exactly one queue exactly once, its status
      says which kind, and exited pcbs are nowhere. */
  lemma {:induction false} EveryRunIsPlaced(ks: seq<Kernel>, es: seq<Event>, n: nat, queues: set<QueueId>, i: nat)
    requires IsRun(ks, es, n, queues) && i < |ks|
    ensures Placed(ks[i].tasks) && OneHomeEach(ks[i].tasks)
  {
    if i == 0 {
      BootIsPlaced(n, queues);
    } else {
      EveryRunIsPlaced(ks, es, n, queues, i - 1);
      StepKeepsPlaced(ks[i - 1], es[i - 1]);
    }
    PlacedMeansOneHomeEach(ks[i].tasks);
  }

  // ---------- round robin is first come, first served ----------

  predicate Dispatched(k: Kernel, e: Event, k': Kernel) { e.Dispatch? && k'.tasks.current.Some? }

  ghost function Dispatches(ks: seq<Kernel>, es: seq<Event>, i: nat, j: nat): nat
    requires i <= j <= |es| && |ks| == |es| + 1
  {
    if i == j then 0
    else Dispatches(ks, es, i, j - 1) + if Dispatched(ks[j - 1], es[j - 1], ks[j]) then 1 else 0
  }

  /** A dispatch takes the head of the ready queue; every other step only appends. */
  lemma StepQueue(k: Kernel, e: Event, p: nat)
    requires Enabled(k, e) && p < |k.tasks.ready|
    ensures var k' := Step(k, e);
      if Dispatched(k, e, k') then
        (p == 0 ==> k'.tasks.current == Some(k.tasks.ready[0]))
        && (p > 0 ==> p - 1 < |k'.tasks.ready| && k'.tasks.ready[p - 1] == k.tasks.ready[p])
      else p < |k'.tasks.ready| && k'.tasks.ready[p] == k.tasks.ready[p]
  {
    if e.Dispatch? { CheckSleepingKeepsCurrent(k); }
  }

  lemma {:induction false} PositionsShift(ks: seq<Kernel>, es: seq<Event>, i: nat, j: nat, p: nat)
    requires i <= j <= |es| && |ks| == |es| + 1 && p < |ks[i].tasks.ready| && Dispatches(ks, es, i, j) <= p
    requires forall m :: i <= m < j ==> Enabled(ks[m], es[m]) && ks[m + 1] == Step(ks[m], es[m])
    ensures var left := p - Dispatches(ks, es, i, j);
            left < |ks[j].tasks.ready| && ks[j].tasks.ready[left] == ks[i].tasks.ready[p]
  {
    if i < j {
      PositionsShift(ks, es, i, j - 1, p);
      StepQueue(ks[j - 1], es[j - 1], p - Dispatches(ks, es, i, j - 1));
    }
  }

  /** The thread at position p of the ready queue is dispatched by exactly the (p+1)-th dispatch from now. */
  lemma FirstComeFirstServed(ks: seq<Kernel>, es: seq<Event>, n: nat, queues: set<QueueId>, i: nat, j: nat, p: nat)
    requires IsRun(ks, es, n, queues) && i <= j <= |es| && p < |ks[i].tasks.ready|
    requires Dispatches(ks, es, i, j) <= p
    ensures var left := p - Dispatches(ks, es, i, j);
      && left < |ks[j].tasks.ready| && ks[j].tasks.ready[left] == ks[i].tasks.ready[p]
      && (j < |es| && left == 0 && Dispatched(ks[j], es[j], ks[j + 1])
          ==> ks[j + 1].tasks.current == Some(ks[i].tasks.ready[p]))
  {
    PositionsShift(ks, es, i, j, p);
    if j < |es| { StepQueue(ks[j], es[j], p - Dispatches(ks, es, i, j)); }
  }

  // ---------- nobody wakes up early ----------

  lemma {:induction false} CheckSleepingWakesTheDue(k: Kernel, t: Tid)
    requires t in k.tasks.sleepers && k.time < Field(k.deadline, t)
    ensures t in CheckSleeping(k).tasks.sleepers
    decreases |k.tasks.sleepers|
  {
    var s := k.tasks.sleepers;
    if Field(k.deadline, s[0]) <= k.time {
      assert s == [s[0]] + s[1..];
      CheckSleepingWakesTheDue(k.(tasks := Apply(k.tasks, WakeSleeper)), t);
    }
  }

  /** Whoever leaves the sleep queue does so in a dispatch, and its deadline has come. That it leaves as soon as it has
      is not so: the queue is in arrival order, and only its head is looked at. */
  lemma WokenIsDue(k: Kernel, e: Event, t: Tid)
    requires Placed(k.tasks) && Enabled(k, e)
    requires t in k.tasks.sleepers && t !in Step(k, e).tasks.sleepers
    ensures e.Dispatch? && Field(k.deadline, t) <= k.time
  {
    if e.Dispatch? && k.time < Field(k.deadline, t) { CheckSleepingWakesTheDue(k, t); }
  }

  /** And its deadline is still the one it went to sleep with. */
  lemma SleeperKeepsDeadline(k: Kernel, e: Event, t: Tid)
    requires Placed(k.tasks) && Enabled(k, e) && t in k.tasks.sleepers
    ensures Field(Step(k, e).deadline, t) == Field(k.deadline, t)
  {
    if e.Dispatch? { CheckSleepingKeepsDeadlines(k); }
  }

  lemma CheckSleepingKeepsDeadlines(k: Kernel)
    ensures CheckSleeping(k).deadline == k.deadline
    decreases |k.tasks.sleepers|
  {
  }
}
