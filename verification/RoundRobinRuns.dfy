/** What the project 4 scheduler does with each thread, in one step and over whole runs: where the thread that had the
    processor goes, when it runs again, and when a sleeper wakes up. */
module RoundRobinRuns {
  import opened Seqs
  import opened Placement
  import opened RoundRobin

  // ---------- one step ----------

  predicate IsLast(s: seq<Tid>, t: Tid) { s != [] && s[|s| - 1] == t }

  /** The thread that had the processor: where it is now, and with which status. */
  lemma RunnerGoes(k: Kernel, e: Event, t: Tid)
    requires Placed(k.tasks) && Enabled(k, e) && k.tasks.current == Some(t)
    ensures var s' := Step(k, e).tasks;
      && t in s'.status
      && match e
         case Yield => s'.current == None && IsLast(s'.ready, t) && s'.status[t] == Ready
         case Block(q) => s'.current == None && q in s'.waits && IsLast(s'.waits[q], t) && s'.status[t] == Blocked
         case Exit => s'.current == None && s'.status[t] == Exited && forall h :: !IsHome(s', t, h)
         case Sleep(ms) =>
           (s'.current == None && IsLast(s'.sleepers, t) && s'.status[t] == Sleeping) || s'.current == Some(t)
         case _ => s'.current == Some(t) && s'.status[t] == k.tasks.status[t]
  {
    if e.Exit? { ExitLeavesAll(k, t); }
    if e.Unblock? && k.tasks.waits[e.q] != [] { assert k.tasks.waits[e.q][0] in k.tasks.waits[e.q]; }
  }

  lemma ExitLeavesAll(k: Kernel, t: Tid)
    requires Placed(k.tasks) && k.tasks.current == Some(t)
    ensures t in Step(k, Exit).tasks.status && Step(k, Exit).tasks.status[t] == Exited
    ensures forall h :: !IsHome(Step(k, Exit).tasks, t, h)
  {
    var s' := Step(k, Exit).tasks;
    StepKeepsPlaced(k, Exit);
    forall h ensures !IsHome(s', t, h) { if IsHome(s', t, h) { HomeAgrees(s', t, h); } }
  }

  /** Nobody is taken off but by its own do_exit(). */
  lemma OnlyExitExits(k: Kernel, e: Event, t: Tid)
    requires Placed(k.tasks) && Enabled(k, e)
    requires t in k.tasks.status && k.tasks.status[t] != Exited
    ensures t in Step(k, e).tasks.status
    ensures Step(k, e).tasks.status[t] == Exited <==> e.Exit? && k.tasks.current == Some(t)
  {
    if e.Dispatch? { CheckSleepingStatus(k, t); }
    if e.Unblock? && k.tasks.waits[e.q] != [] { assert k.tasks.waits[e.q][0] in k.tasks.waits[e.q]; }
  }

  /** A waiter stays where it is until it is the first one in its queue and that queue is signalled; then it is the
      last ready thread. */
  lemma WaiterGoes(k: Kernel, e: Event, q: QueueId, t: Tid)
    requires Placed(k.tasks) && Enabled(k, e) && q in k.tasks.waits && t in k.tasks.waits[q]
    ensures var s' := Step(k, e).tasks;
      if e == Unblock(q) && k.tasks.waits[q][0] == t then IsLast(s'.ready, t) && t in s'.status && s'.status[t] == Ready
      else q in s'.waits && t in s'.waits[q]
  {
    if e.Dispatch? { CheckSleepingKeepsCurrent(k); }
    if e == Unblock(q) { assert k.tasks.waits[q] == [k.tasks.waits[q][0]] + k.tasks.waits[q][1..]; }
  }

  /** A new process is the last ready thread. */
  lemma StartedGoes(k: Kernel, t: Tid)
    requires Placed(k.tasks) && Enabled(k, Start(t))
    ensures var s' := Step(k, Start(t)).tasks; IsLast(s'.ready, t) && t in s'.status && s'.status[t] == FirstTime
  {
  }

  // ---------- round robin ----------

  /** A thread that yields, or is preempted, with n others ready is the one dispatched by the (n+1)-th dispatch. */
  lemma YielderRunsAfterTheOthers(ks: seq<Kernel>, es: seq<Event>, n: nat, queues: set<QueueId>, i: nat, j: nat, t: Tid)
    requires IsRun(ks, es, n, queues) && i < j <= |es| && es[i] == Yield && ks[i].tasks.current == Some(t)
    requires Dispatches(ks, es, i + 1, j) <= |ks[i].tasks.ready|
    ensures var left := |ks[i].tasks.ready| - Dispatches(ks, es, i + 1, j);
      && left < |ks[j].tasks.ready| && ks[j].tasks.ready[left] == t
      && (j < |es| && left == 0 && Dispatched(ks[j], es[j], ks[j + 1]) ==> ks[j + 1].tasks.current == Some(t))
  {
    EveryRunIsPlaced(ks, es, n, queues, i);
    EveryRunIsPlaced(ks, es, n, queues, i + 1);
    RunnerGoes(ks[i], Yield, t);
    YieldAddsOne(ks[i]);
    FirstComeFirstServed(ks, es, n, queues, i + 1, j, |ks[i].tasks.ready|);
  }

  lemma YieldAddsOne(k: Kernel)
    requires Enabled(k, Yield)
    ensures |Step(k, Yield).tasks.ready| == |k.tasks.ready| + 1
  {
  }

  // ---------- the clock ----------

  ghost function Ticks(es: seq<Event>, i: nat, j: nat): nat
    requires i <= j <= |es|
  {
    if i == j then 0 else Ticks(es, i, j - 1) + if es[j - 1] == Tick then 1 else 0
  }

  lemma {:induction false} ClockCountsTicks(ks: seq<Kernel>, es: seq<Event>, n: nat, queues: set<QueueId>, i: nat, j: nat)
    requires IsRun(ks, es, n, queues) && i <= j <= |es|
    ensures ks[j].time == ks[i].time + Ticks(es, i, j)
  {
    if i < j {
      ClockCountsTicks(ks, es, n, queues, i, j - 1);
      if es[j - 1].Dispatch? { var w := CheckSleepingShape(ks[j - 1]); }
    }
  }

  // ---------- sleeping ----------

  /** check_sleeping() wakes the sleepers up to the first one whose deadline has not come, in order: those and no others. */
  lemma {:induction false} CheckSleepingShape(k: Kernel) returns (w: nat)
    ensures w <= |k.tasks.sleepers|
    ensures forall i :: 0 <= i < w ==> Field(k.deadline, k.tasks.sleepers[i]) <= k.time
    ensures w < |k.tasks.sleepers| ==> k.time < Field(k.deadline, k.tasks.sleepers[w])
    ensures var k' := CheckSleeping(k);
      && k'.time == k.time && k'.deadline == k.deadline
      && k'.tasks.current == k.tasks.current && k'.tasks.waits == k.tasks.waits
      && k'.tasks.sleepers == k.tasks.sleepers[w..] && k'.tasks.ready == k.tasks.ready + k.tasks.sleepers[..w]
    decreases |k.tasks.sleepers|
  {
    var s := k.tasks.sleepers;
    if s != [] && Field(k.deadline, s[0]) <= k.time {
      var v := CheckSleepingShape(k.(tasks := Apply(k.tasks, WakeSleeper)));
      w := v + 1;
      ConsSlice(s, v);
      assert k.tasks.ready + [s[0]] + s[1..][..v] == k.tasks.ready + ([s[0]] + s[1..][..v]);
      assert forall i :: 0 < i < w ==> s[i] == s[1..][i - 1];
    } else {
      w := 0;
      assert s[0..] == s && k.tasks.ready + s[..0] == k.tasks.ready;
    }
  }

  /** It changes the status of no others. */
  lemma {:induction false} CheckSleepingStatus(k: Kernel, t: Tid)
    requires t in k.tasks.status
    ensures t in CheckSleeping(k).tasks.status
    ensures CheckSleeping(k).tasks.status[t] == k.tasks.status[t]
         || (t in k.tasks.sleepers && CheckSleeping(k).tasks.status[t] == Ready)
    decreases |k.tasks.sleepers|
  {
    if k.tasks.sleepers != [] && Field(k.deadline, k.tasks.sleepers[0]) <= k.time {
      CheckSleepingStatus(k.(tasks := Apply(k.tasks, WakeSleeper)), t);
    }
  }

  lemma ConsSlice(s: seq<Tid>, w: nat)
    requires s != [] && w < |s|
    ensures s[1..][w..] == s[w + 1..] && s[..w + 1] == [s[0]] + s[1..][..w]
  {
  }

  /** do_sleep(ms) below a second goes on; otherwise it sleeps, with a deadline ms/1000 ticks from now. */
  lemma SleepGoes(k: Kernel, ms: nat, t: Tid)
    requires Placed(k.tasks) && k.tasks.current == Some(t) && k.time + ms / 1000 < U64
    ensures var k' := Step(k, Sleep(ms));
      && k'.time == k.time && Field(k'.deadline, t) == k.time + ms / 1000
      && if ms < 1000 then k'.tasks == k.tasks
         else k'.tasks.current == None && t in k'.tasks.sleepers
  {
  }

  lemma {:induction false} StaysAsleep(ks: seq<Kernel>, es: seq<Event>, i: nat, j: nat, t: Tid, d: int)
    requires i <= j <= |es| && |ks| == |es| + 1 && t in ks[i].tasks.sleepers && Field(ks[i].deadline, t) == d
    requires forall m :: i <= m < j ==> Placed(ks[m].tasks) && Enabled(ks[m], es[m]) && ks[m + 1] == Step(ks[m], es[m])
    requires forall m :: i <= m < j && es[m] == Dispatch ==> ks[m].time < d
    ensures t in ks[j].tasks.sleepers && Field(ks[j].deadline, t) == d
  {
    if i < j {
      StaysAsleep(ks, es, i, j - 1, t, d);
      SleepsOn(ks[j - 1], es[j - 1], t);
    }
  }

  /** A thread that called do_sleep(ms) at tick T is asleep in every later state up to a dispatch at tick T + ms/1000 or
      later. */
  lemma SleepsUntilDue(ks: seq<Kernel>, es: seq<Event>, n: nat, queues: set<QueueId>, i: nat, j: nat, ms: nat, t: Tid)
    requires IsRun(ks, es, n, queues) && i < j < |ks|
    requires es[i] == Sleep(ms) && 1000 <= ms && ks[i].tasks.current == Some(t) && ks[i].time + ms / 1000 < U64
    requires forall m :: i < m < j && es[m] == Dispatch ==> ks[m].time < ks[i].time + ms / 1000
    ensures t in ks[j].tasks.sleepers && Field(ks[j].deadline, t) == ks[i].time + ms / 1000
  {
    forall m | 0 <= m < |ks| ensures Placed(ks[m].tasks) { EveryRunIsPlaced(ks, es, n, queues, m); }
    SleepGoes(ks[i], ms, t);
    StaysAsleep(ks, es, i + 1, j, t, ks[i].time + ms / 1000);
  }

  lemma SleepsOn(k: Kernel, e: Event, t: Tid)
    requires Placed(k.tasks) && Enabled(k, e) && t in k.tasks.sleepers
    requires e == Dispatch ==> k.time < Field(k.deadline, t)
    ensures t in Step(k, e).tasks.sleepers && Field(Step(k, e).deadline, t) == Field(k.deadline, t)
  {
    SleeperKeepsDeadline(k, e, t);
    if t !in Step(k, e).tasks.sleepers { WokenIsDue(k, e, t); }
  }

  /** The dispatches that wake a sleeper are exactly those in which it and all who went to sleep before it are due. */
  lemma WokenExactly(k: Kernel, p: nat)
    requires Placed(k.tasks) && k.tasks.current.None? && p < |k.tasks.sleepers|
    ensures var t := k.tasks.sleepers[p];
      t !in Step(k, Dispatch).tasks.sleepers <==> forall i :: 0 <= i <= p ==> Field(k.deadline, k.tasks.sleepers[i]) <= k.time
  {
    var w := CheckSleepingShape(k);
    var s := k.tasks.sleepers;
    if p < w {
      assert forall i :: 0 <= i < |s[w..]| ==> s[w..][i] == s[w + i];
    } else {
      assert s[w..][p - w] == s[p];
    }
  }

  /** And it is then ready, or running at once. */
  lemma WokenIsReady(k: Kernel, t: Tid)
    requires Placed(k.tasks) && k.tasks.current.None? && t in k.tasks.sleepers && t !in Step(k, Dispatch).tasks.sleepers
    ensures var s' := Step(k, Dispatch).tasks; t in s'.ready || s'.current == Some(t)
  {
    var w := CheckSleepingShape(k);
    var s, r := k.tasks.sleepers, CheckSleeping(k).tasks.ready;
    assert s == s[..w] + s[w..];
    InQueue(r, t);
  }

  lemma InQueue(r: seq<Tid>, t: Tid)
    ensures t in r ==> r[0] == t || t in RemoveAt(r, 0)
  {
    if r != [] { assert r == [r[0]] + r[1..] && RemoveAt(r, 0) == r[1..]; }
  }

  // ---------- the idle loop ----------

  /** With nobody ready, the idle loop ends exactly when the clock reaches the deadline of the first sleeper. */
  lemma {:induction false} IdleUntilFirstDeadline(k: Kernel, window: nat)
    requires k.tasks.current.None? && k.tasks.ready == []
    ensures var k' := Schedule(k, window);
      if k.tasks.sleepers != [] && Field(k.deadline, k.tasks.sleepers[0]) <= k.time + window
      then k'.tasks.current == Some(k.tasks.sleepers[0]) && k'.time == Max(k.time, Field(k.deadline, k.tasks.sleepers[0]))
      else k' == k.(time := k.time + window)
    decreases window
  {
    var w := CheckSleepingShape(k);
    CheckSleepingKeepsCurrent(k);
    if w > 0 {
      assert CheckSleeping(k).tasks.ready[0] == k.tasks.sleepers[0];
    } else {
      assert CheckSleeping(k) == k;
      if window > 0 { IdleUntilFirstDeadline(Step(k, Tick), window - 1); }
    }
  }

  function Max(a: int, b: int): int { if a < b then b else a }

  /** With somebody ready, the first one runs, and no time passes. */
  lemma ReadyRunsAtOnce(k: Kernel, window: nat)
    requires k.tasks.current.None? && k.tasks.ready != []
    ensures Schedule(k, window).tasks.current == Some(k.tasks.ready[0]) && Schedule(k, window).time == k.time
  {
    var w := CheckSleepingShape(k);
  }

  /** The ready queue is served from its head and otherwise only grows. */
  lemma ScheduleServesHead(k: Kernel, window: nat)
    requires k.tasks.current.None? && k.tasks.ready != []
    ensures var s' := Schedule(k, window).tasks;
            s'.current == Some(k.tasks.ready[0]) && k.tasks.ready <= [k.tasks.ready[0]] + s'.ready
  {
    ReadyRunsAtOnce(k, window);
    var w := CheckSleepingShape(k);
    var r := CheckSleeping(k).tasks.ready;
    assert RemoveAt(r, 0) == r[1..] && r == [r[0]] + r[1..];
  }

  /** Who is not asleep has the same status when the scheduler is through. */
  lemma {:induction false} ScheduleKeepsStatus(k: Kernel, window: nat, t: Tid)
    requires k.tasks.current.None? && t in k.tasks.status && t !in k.tasks.sleepers
    ensures var s' := Schedule(k, window).tasks; t in s'.status && s'.status[t] == k.tasks.status[t]
    decreases window
  {
    CheckSleepingStatus(k, t);
    var w := CheckSleepingShape(k);
    var k1 := Step(k, Dispatch);
    if k1.tasks.current.None? && window > 0 { ScheduleKeepsStatus(Step(k1, Tick), window - 1, t); }
  }

  lemma {:induction false} ScheduleKeepsKeys(k: Kernel, window: nat, t: Tid)
    requires k.tasks.current.None? && t in k.tasks.status
    ensures t in Schedule(k, window).tasks.status
    decreases window
  {
    CheckSleepingStatus(k, t);
    var w := CheckSleepingShape(k);
    var k1 := Step(k, Dispatch);
    if k1.tasks.current.None? && window > 0 { ScheduleKeepsKeys(Step(k1, Tick), window - 1, t); }
  }
}
