/** What the project 3 scheduler does with each thread, in one step and over whole runs: where the thread that had the
    processor goes, who runs next and at which priority, and when a sleeper wakes up. */
module AgeingRuns {
  import opened Seqs
  import opened Placement
  import opened Ageing

  /** At start-up all n threads are ready, in the order of their pids, each at its base priority. */
  lemma BootIs(n: nat, levels: int, queues: set<QueueId>)
    ensures var k := Ageing.Boot(n, levels, queues);
      && k.time == 0 && k.levels == levels && k.tasks.current == None && k.tasks.sleepers == []
      && |k.tasks.ready| == n && (forall i :: 0 <= i < n ==> k.tasks.ready[i] == i + 1)
      && (forall t :: 1 <= t <= n ==> t in k.tasks.status && k.tasks.status[t] == FirstTime
                                      && Field(k.prio, t) == 10 * (levels - t))
  {
    var k := Ageing.Boot(n, levels, queues);
    forall t | 1 <= t <= n ensures t in k.tasks.ready { assert k.tasks.ready[t - 1] == t; }
  }

  // ---------- one step ----------

  predicate IsLast(s: seq<Tid>, t: Tid) { s != [] && s[|s| - 1] == t }

  /** The thread that had the processor: where it is now, and with which status. */
  lemma RunnerGoes(k: Kernel, e: Event, t: Tid)
    requires Placed(k.tasks) && Enabled(k, e) && k.tasks.current == Some(t)
    ensures var s' := Step(k, e).tasks;
      && t in s'.status
      && match e
         case Yield => s'.current == None && IsLast(s'.ready, t) && s'.status[t] == Ready
         case Block(q) => s'.current == None && q in s'.waits && IsLast(s'.waits[q], t) && s'.status[t] == Blocked
         case Exit => s'.current == None && s'.status[t] == Exited && forall h :: !IsHome(s', t, h)
         case Sleep(ms) => s'.current == None && t in s'.sleepers && s'.status[t] == Sleeping
         case _ => s'.current == Some(t) && s'.status[t] == k.tasks.status[t]
  {
    match e
    case Exit => ExitLeavesAll(k, t);
    case Sleep(ms) => SleepGoes(k, ms, t);
    case Unblock(q) => if k.tasks.waits[q] != [] { assert k.tasks.waits[q][0] in k.tasks.waits[q]; }
    case _ =>
  }

  lemma ExitLeavesAll(k: Kernel, t: Tid)
    requires Placed(k.tasks) && k.tasks.current == Some(t)
    ensures t in Step(k, Exit).tasks.status && Step(k, Exit).tasks.status[t] == Exited
    ensures forall h :: !IsHome(Step(k, Exit).tasks, t, h)
  {
    var s' := Step(k, Exit).tasks;
    MoveKeepsPlaced(k.tasks, PutExited);
    forall h ensures !IsHome(s', t, h) { if IsHome(s', t, h) { HomeAgrees(s', t, h); } }
  }

  /** Below 2^64 the deadline of do_sleep(ms) is ms milliseconds after the tick of the call. */
  lemma SleepGoes(k: Kernel, ms: int, t: Tid)
    requires Placed(k.tasks) && k.tasks.current == Some(t)
    ensures var k' := Step(k, Sleep(ms));
      && k'.time == k.time && k'.tasks.current == None && t in k'.tasks.sleepers
      && t in k'.tasks.status && k'.tasks.status[t] == Sleeping
      && (0 <= ms && k.time * 1000 + ms < U64 ==> Field(k'.deadline, t) == k.time * 1000 + ms)
  {
    var d := WakeTime(k.time, ms);
    var at := SleepPosition(k.deadline, k.tasks.sleepers, d);
    InsertAtIndex(k.tasks.sleepers, at, t, at);
    assert InsertAt(k.tasks.sleepers, at, t)[at] in InsertAt(k.tasks.sleepers, at, t);
  }

  lemma {:induction false} CheckSleepingStatus(k: Kernel, t: Tid)
    requires t in k.tasks.status
    ensures t in CheckSleeping(k).tasks.status
    ensures CheckSleeping(k).tasks.status[t] == k.tasks.status[t]
         || (t in k.tasks.sleepers && CheckSleeping(k).tasks.status[t] == Ready)
    decreases |k.tasks.sleepers|
  {
    if k.tasks.sleepers != [] && Field(k.deadline, k.tasks.sleepers[0]) <= Now(k) {
      CheckSleepingStatus(k.(tasks := Apply(k.tasks, WakeSleeper)), t);
    }
  }

  /** Nobody is taken off but by its own do_exit(). */
  lemma OnlyExitExits(k: Kernel, e: Event, t: Tid)
    requires Placed(k.tasks) && Enabled(k, e)
    requires t in k.tasks.status && k.tasks.status[t] != Exited
    ensures t in Step(k, e).tasks.status
    ensures Step(k, e).tasks.status[t] == Exited <==> e.Exit? && k.tasks.current == Some(t)
  {
    if e.Dispatch? { CheckSleepingStatus(k, t); }
    if e.Unblock? && k.tasks.waits[e.q] != [] { assert k.tasks.waits[e.q][0] in k.tasks.waits[e.q]; }
  }

  /** A waiter stays where it is until it is the first one in its queue and that queue is signalled; then it is the
      last ready thread. */
  lemma WaiterGoes(k: Kernel, e: Event, q: QueueId, t: Tid)
    requires Placed(k.tasks) && Enabled(k, e) && q in k.tasks.waits && t in k.tasks.waits[q]
    ensures var s' := Step(k, e).tasks;
      if e == Unblock(q) && k.tasks.waits[q][0] == t then IsLast(s'.ready, t) && t in s'.status && s'.status[t] == Ready
      else q in s'.waits && t in s'.waits[q]
  {
    if e.Dispatch? { var w := CheckSleepingShape(k); }
    if e == Unblock(q) { assert k.tasks.waits[q] == [k.tasks.waits[q][0]] + k.tasks.waits[q][1..]; }
  }

  /** A ready thread stays ready until it is dispatched. */
  lemma ReadyGoes(k: Kernel, e: Event, t: Tid)
    requires Enabled(k, e) && t in k.tasks.ready
    ensures t in Step(k, e).tasks.ready || (e.Dispatch? && Step(k, e).tasks.current == Some(t))
  {
    if e.Dispatch? {
      var w := CheckSleepingShape(k);
      var r := CheckSleeping(k).tasks.ready;
      InRest(r, FirstMax(k.prio, r), t);
    }
  }

  lemma InRest(r: seq<Tid>, i: nat, t: Tid)
    requires i < |r| && t in r
    ensures t == r[i] || t in RemoveAt(r, i)
  {
    assert r == r[..i] + [r[i]] + r[i + 1..];
  }

  /** A dispatch first wakes who is due; then the first of the highest priority runs. Its priority goes down by 10, or back
      to its base when it is at 10 or below; nobody else's changes. */
  lemma DispatchRunsHighest(k: Kernel) returns (w: nat, i: nat)
    requires k.tasks.current.None?
    ensures IsDuePrefix(k.deadline, Now(k), k.tasks.sleepers, w)
    ensures var r, k' := k.tasks.ready + k.tasks.sleepers[..w], Step(k, Dispatch);
      && k'.tasks.sleepers == k.tasks.sleepers[w..]
      && if r == [] then k'.tasks.ready == [] && k'.tasks.current == None && k'.prio == k.prio
         else
           && i < |r| && k'.tasks.current == Some(r[i]) && k'.tasks.ready == r[..i] + r[i + 1..]
           && (forall j :: 0 <= j < |r| ==> Field(k.prio, r[j]) <= Field(k.prio, r[i]))
           && (forall j :: 0 <= j < i ==> Field(k.prio, r[j]) < Field(k.prio, r[i]))
           && Field(k'.prio, r[i]) == (if Field(k.prio, r[i]) > 10 then Field(k.prio, r[i]) - 10 else 10 * (k.levels - r[i]))
           && (forall u :: u != r[i] ==> Field(k'.prio, u) == Field(k.prio, u))
  {
    w := CheckSleepingShape(k);
    CheckSleepingKeepsCurrent(k);
    var k1 := CheckSleeping(k);
    i := if k1.tasks.ready == [] then 0 else FirstMax(k1.prio, k1.tasks.ready);
  }

  /** Outside a dispatch no priority changes. */
  lemma PrioritiesKept(k: Kernel, e: Event)
    requires Enabled(k, e) && !e.Dispatch?
    ensures Step(k, e).prio == k.prio && Step(k, e).levels == k.levels
  {
  }

  // ---------- the clock ----------

  ghost function Ticks(es: seq<Event>, i: nat, j: nat): nat
    requires i <= j <= |es|
  {
    if i == j then 0 else Ticks(es, i, j - 1) + if es[j - 1] == Tick then 1 else 0
  }

  lemma StepClock(k: Kernel, e: Event)
    requires Enabled(k, e)
    ensures Step(k, e).time == k.time + if e == Tick then 1 else 0
  {
    if e.Dispatch? { var w := CheckSleepingShape(k); }
  }

  lemma {:induction false} ClockCountsTicks(ks: seq<Kernel>, es: seq<Event>, n: nat, levels: int, queues: set<QueueId>,
                                            i: nat, j: nat)
    requires IsRun(ks, es, n, levels, queues) && i <= j <= |es|
    ensures ks[j].time == ks[i].time + Ticks(es, i, j)
  {
    if i < j {
      ClockCountsTicks(ks, es, n, levels, queues, i, j - 1);
      StepClock(ks[j - 1], es[j - 1]);
    }
  }

  // ---------- sleeping ----------

  /** No event but a dispatch at which it is due takes a sleeper off the queue or changes its deadline. */
  lemma SleepsOn(k: Kernel, e: Event, t: Tid)
    requires Sane(k) && Enabled(k, e) && t in k.tasks.sleepers
    requires e == Dispatch ==> Now(k) < Field(k.deadline, t)
    ensures t in Step(k, e).tasks.sleepers && Field(Step(k, e).deadline, t) == Field(k.deadline, t)
  {
    if e.Dispatch? {
      WakesExactlyTheDue(k, t);
      CheckSleepingKeepsCurrent(k);
      var w := CheckSleepingShape(k);
    }
    if e.Sleep? { SleepersStay(k, e.ms, t); }
  }

  lemma SleepersStay(k: Kernel, ms: int, t: Tid)
    requires Sane(k) && k.tasks.current.Some? && t in k.tasks.sleepers
    ensures t in Step(k, Sleep(ms)).tasks.sleepers && Field(Step(k, Sleep(ms)).deadline, t) == Field(k.deadline, t)
  {
    var at := SleepPosition(k.deadline, k.tasks.sleepers, WakeTime(k.time, ms));
    InsertAtKeepsNoDup(k.tasks.sleepers, at, k.tasks.current.value);
  }

  lemma {:induction false} StaysAsleep(ks: seq<Kernel>, es: seq<Event>, i: nat, j: nat, t: Tid, d: int)
    requires i <= j <= |es| && |ks| == |es| + 1 && t in ks[i].tasks.sleepers && Field(ks[i].deadline, t) == d
    requires forall m :: i <= m < j ==> Sane(ks[m]) && Enabled(ks[m], es[m]) && ks[m + 1] == Step(ks[m], es[m])
    requires forall m :: i <= m < j && es[m] == Dispatch ==> Now(ks[m]) < d
    ensures t in ks[j].tasks.sleepers && Field(ks[j].deadline, t) == d
  {
    if i < j {
      StaysAsleep(ks, es, i, j - 1, t, d);
      SleepsOn(ks[j - 1], es[j - 1], t);
    }
  }

  /** Below 2^64, a thread that called do_sleep(ms) at tick T is asleep in every later state up to a dispatch at a tick t
      with T*1000 + ms <= t*1000 ... */
  lemma SleepsUntilDue(ks: seq<Kernel>, es: seq<Event>, n: nat, levels: int, queues: set<QueueId>,
                       i: nat, j: nat, ms: nat, t: Tid)
    requires IsRun(ks, es, n, levels, queues) && i < j < |ks|
    requires es[i] == Sleep(ms) && ks[i].tasks.current == Some(t)
    requires ks[i].time * 1000 + ms < U64 && ks[j].time * 1000 < U64
    requires forall m :: i < m < j && es[m] == Dispatch ==> ks[m].time * 1000 < ks[i].time * 1000 + ms
    ensures t in ks[j].tasks.sleepers && Field(ks[j].deadline, t) == ks[i].time * 1000 + ms
  {
    RunIsSane(ks, es, n, levels, queues);
    RunBelow(ks, es, n, levels, queues, j);
    SleepStarts(ks, es, n, levels, queues, i, ms, t);
    StaysAsleep(ks, es, i + 1, j, t, ks[i].time * 1000 + ms);
  }

  lemma RunIsSane(ks: seq<Kernel>, es: seq<Event>, n: nat, levels: int, queues: set<QueueId>)
    requires IsRun(ks, es, n, levels, queues)
    ensures forall m: nat :: m < |ks| ==> Sane(ks[m])
  {
    forall m: nat | m < |ks| ensures Sane(ks[m]) { EveryRunIsSane(ks, es, n, levels, queues, m); }
  }

  lemma RunBelow(ks: seq<Kernel>, es: seq<Event>, n: nat, levels: int, queues: set<QueueId>, j: nat)
    requires IsRun(ks, es, n, levels, queues) && j < |ks| && ks[j].time * 1000 < U64
    ensures forall m: nat :: m <= j ==> Now(ks[m]) == ks[m].time * 1000
  {
    forall m: nat | m <= j ensures Now(ks[m]) == ks[m].time * 1000 { ClockCountsTicks(ks, es, n, levels, queues, m, j); }
  }

  lemma SleepStarts(ks: seq<Kernel>, es: seq<Event>, n: nat, levels: int, queues: set<QueueId>, i: nat, ms: nat, t: Tid)
    requires IsRun(ks, es, n, levels, queues) && i < |es| && es[i] == Sleep(ms) && ks[i].tasks.current == Some(t)
    requires Sane(ks[i]) && ks[i].time * 1000 + ms < U64
    ensures t in ks[i + 1].tasks.sleepers && Field(ks[i + 1].deadline, t) == ks[i].time * 1000 + ms
  {
    SleepGoes(ks[i], ms, t);
  }

  /** ... and the first such dispatch wakes it: it is ready, or running at once. */
  lemma FirstDueDispatchWakes(ks: seq<Kernel>, es: seq<Event>, n: nat, levels: int, queues: set<QueueId>,
                              i: nat, j: nat, ms: nat, t: Tid)
    requires IsRun(ks, es, n, levels, queues) && i < j < |es|
    requires es[i] == Sleep(ms) && ks[i].tasks.current == Some(t)
    requires ks[i].time * 1000 + ms < U64 && ks[j].time * 1000 < U64
    requires forall m :: i < m < j && es[m] == Dispatch ==> ks[m].time * 1000 < ks[i].time * 1000 + ms
    requires es[j] == Dispatch && ks[i].time * 1000 + ms <= ks[j].time * 1000
    ensures t !in ks[j + 1].tasks.sleepers
    ensures t in ks[j + 1].tasks.ready || ks[j + 1].tasks.current == Some(t)
  {
    SleepsUntilDue(ks, es, n, levels, queues, i, j, ms, t);
    EveryRunIsSane(ks, es, n, levels, queues, j);
    RunBelow(ks, es, n, levels, queues, j);
    RunSteps(ks, es, n, levels, queues, j);
    DueIsWoken(ks[j], t);
  }

  lemma RunSteps(ks: seq<Kernel>, es: seq<Event>, n: nat, levels: int, queues: set<QueueId>, j: nat)
    requires IsRun(ks, es, n, levels, queues) && j < |es| && es[j] == Dispatch
    ensures ks[j].tasks.current.None? && ks[j + 1] == Step(ks[j], Dispatch)
  {
  }

  lemma DueIsWoken(k: Kernel, t: Tid)
    requires Sane(k) && k.tasks.current.None? && t in k.tasks.sleepers && Field(k.deadline, t) <= Now(k)
    ensures t !in Step(k, Dispatch).tasks.sleepers
    ensures t in Step(k, Dispatch).tasks.ready || Step(k, Dispatch).tasks.current == Some(t)
  {
    WakesExactlyTheDue(k, t);
    CheckSleepingKeepsCurrent(k);
    var r := CheckSleeping(k).tasks.ready;
    InRest(r, FirstMax(CheckSleeping(k).prio, r), t);
  }
}
