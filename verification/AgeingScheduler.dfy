/** project3_start_code/scheduler.c as an object: its globals are the fields, its functions the methods.
    Every method is tied to the steps of the Ageing machine. */
module AgeingScheduler {
  import opened Seqs
  import opened Placement
  import opened Ageing

  class Scheduler {
    var current: Option<Tid>
    var readyQueue: seq<Tid>
    var sleepWaitQueue: seq<Tid>
    var waitQueues: map<QueueId, seq<Tid>>
    var status: map<Tid, Status>
    var priority: map<Tid, int>
    var deadline: map<Tid, int>
    var timeElapsed: nat
    var disableCount: nat
    const levels: int

    ghost function Abs(): Kernel
      reads this
    {
      Kernel(Tasks(current, readyQueue, sleepWaitQueue, waitQueues, status), priority, deadline, timeElapsed, levels)
    }

    /** _start(): pids 1..n with base priorities, all on the ready queue. */
    constructor (n: nat, levels: int, queues: set<QueueId>)
      ensures Abs() == Ageing.Boot(n, levels, queues) && disableCount == 0
    {
      var ids := seq(n, i => i + 1);
      current := None;
      readyQueue := ids;
      sleepWaitQueue := [];
      waitQueues := map q | q in queues :: [];
      status := map t | t in ids :: FirstTime;
      priority := map t | t in ids :: Base(levels, t);
      deadline := map t | t in ids :: 0xffff_ffff;
      timeElapsed := 0;
      disableCount := 0;
      this.levels := levels;
    }

    /** Entering twice or leaving twice is a panic in entry.S; callers must show it cannot happen. */
    method EnterCritical()
      requires disableCount == 0
      modifies this`disableCount
      ensures disableCount == 1
    {
      disableCount := 1;
    }

    method LeaveCritical()
      requires disableCount == 1
      modifies this`disableCount
      ensures disableCount == 0
    {
      disableCount := 0;
    }

    method CheckSleeping()
      modifies this`readyQueue, this`sleepWaitQueue, this`status
      ensures Abs() == Ageing.CheckSleeping(old(Abs()))
    {
      var currentTime := timeElapsed;
      while sleepWaitQueue != []
        invariant Ageing.CheckSleeping(Abs()) == Ageing.CheckSleeping(old(Abs()))
        decreases |sleepWaitQueue|
      {
        var sleeping := sleepWaitQueue[0];
        if Field(deadline, sleeping) <= currentTime * 1000 % U64 {
          status := status[sleeping := Ready];
          readyQueue := readyQueue + [sleeping];
          sleepWaitQueue := sleepWaitQueue[1..];
        } else {
          return;
        }
      }
    }

    method PutCurrentRunning()
      requires current.Some?
      modifies this`current, this`readyQueue, this`status
      ensures Abs() == Step(old(Abs()), Yield)
    {
      status := status[current.value := Ready];
      readyQueue := readyQueue + [current.value];
      current := None;
    }

    /** The scan of scheduler() for the first highest priority. */
    method FirstHighest() returns (temp: nat)
      requires readyQueue != []
      ensures temp < |readyQueue| && temp == FirstMax(priority, readyQueue)
    {
      temp := 0;
      var item := 0;
      while item < |readyQueue|
        invariant temp < |readyQueue| && temp <= item <= |readyQueue|
        invariant forall j :: 0 <= j < item ==> Field(priority, readyQueue[j]) <= Field(priority, readyQueue[temp])
        invariant forall j :: 0 <= j < temp ==> Field(priority, readyQueue[j]) < Field(priority, readyQueue[temp])
      {
        if Field(priority, readyQueue[temp]) < Field(priority, readyQueue[item]) {
          temp := item;
        }
        item := item + 1;
      }
    }

    /** The non-empty half of scheduler(): unlink the winner, make it current, age it. */
    method RunFirstHighest()
      requires current.None? && readyQueue != []
      modifies this`current, this`readyQueue, this`priority
      ensures Abs() == Pick(old(Abs()))
    {
      var at := FirstHighest();
      var temp := readyQueue[at];
      readyQueue := RemoveAt(readyQueue, at);
      current := Some(temp);
      if Field(priority, temp) > STEP {
        priority := priority[temp := Field(priority, temp) - STEP];
      } else {
        priority := priority[temp := STEP * (levels - temp)];
      }
    }

    /** One turn of scheduler()'s idle loop in which the timer fires. */
    method IdleTick()
      requires disableCount == 1 && current.None?
      modifies this
      ensures Abs() == Ageing.CheckSleeping(Step(old(Abs()), Tick)) && disableCount == 1 && current.None?
    {
      LeaveCritical();
      timeElapsed := timeElapsed + 1;
      EnterCritical();
      CheckSleepingKeepsCurrent(Abs());
      CheckSleeping();
    }

    /** scheduler(), watched for at most `window` ticks of the idle loop; false when it is still idle then. */
    method Dispatch(window: nat) returns (dispatched: bool)
      requires disableCount == 1 && current.None?
      modifies this
      ensures Abs() == Schedule(old(Abs()), window)
      ensures dispatched == current.Some? && disableCount == 1
    {
      var ticks := 0;
      ghost var k := Abs();
      CheckSleepingKeepsCurrent(k);
      CheckSleeping();
      while readyQueue == [] && ticks < window
        invariant ticks <= window && disableCount == 1 && k.tasks.current.None? && current.None?
        invariant Abs() == Ageing.CheckSleeping(k) && Schedule(k, window - ticks) == Schedule(old(Abs()), window)
        decreases window - ticks
      {
        k := Step(Abs(), Tick);
        IdleTick();
        ticks := ticks + 1;
      }
      dispatched := readyQueue != [];
      if dispatched { RunFirstHighest(); }
    }

    /** scheduler_entry: the switch itself ends with LEAVE_CRITICAL in the context of the chosen pcb. */
    method SchedulerEntry(window: nat) returns (dispatched: bool)
      requires disableCount == 1 && current.None?
      modifies this
      ensures Abs() == Schedule(old(Abs()), window)
      ensures dispatched == current.Some? && disableCount == if dispatched then 0 else 1
    {
      dispatched := Dispatch(window);
      if dispatched { LeaveCritical(); }
    }

    /** enqueue_sort(&sleep_wait_queue, current_running, lte_deadline): the search for the place. */
    method SortedPlace(d: int) returns (at: nat)
      ensures at <= |sleepWaitQueue| && at == SleepPosition(deadline, sleepWaitQueue, d)
    {
      at := 0;
      while at < |sleepWaitQueue|
        invariant at <= |sleepWaitQueue|
        invariant SleepPosition(deadline, sleepWaitQueue, d, at) == SleepPosition(deadline, sleepWaitQueue, d)
      {
        if d <= Field(deadline, sleepWaitQueue[at]) { return; }
        at := at + 1;
      }
    }

    /** Leave for the sleep queue until d. */
    method PutSleepingUntil(d: int)
      requires current.Some?
      modifies this`current, this`sleepWaitQueue, this`status, this`deadline
      ensures Abs() == SleepUntil(old(Abs()), d)
    {
      status := status[current.value := Sleeping];
      var at := SortedPlace(d);
      deadline := deadline[current.value := d];
      sleepWaitQueue := InsertAt(sleepWaitQueue, at, current.value);
      current := None;
    }

    method DoSleep(milliseconds: int, window: nat) returns (dispatched: bool)
      requires disableCount == 0 && current.Some?
      modifies this
      ensures Abs() == Schedule(Step(old(Abs()), Sleep(milliseconds)), window)
      ensures dispatched == current.Some? && disableCount == if dispatched then 0 else 1
    {
      EnterCritical();
      var d := WakeTime(timeElapsed, milliseconds);
      PutSleepingUntil(d);
      dispatched := SchedulerEntry(window);
    }

    method DoYield(window: nat) returns (dispatched: bool)
      requires disableCount == 0 && current.Some?
      modifies this
      ensures Abs() == Schedule(Step(old(Abs()), Yield), window)
      ensures dispatched && disableCount == 0
    {
      EnterCritical();
      PutCurrentRunning();
      YieldNeverIdles(Abs(), window);
      dispatched := SchedulerEntry(window);
    }

    method DoExit(window: nat) returns (dispatched: bool)
      requires disableCount == 0 && current.Some?
      modifies this
      ensures Abs() == Schedule(Step(old(Abs()), Exit), window)
      ensures dispatched == current.Some? && disableCount == if dispatched then 0 else 1
    {
      EnterCritical();
      status := status[current.value := Exited];
      current := None;
      dispatched := SchedulerEntry(window);
    }

    method Block(q: QueueId, window: nat) returns (dispatched: bool)
      requires disableCount == 1 && current.Some? && q in waitQueues
      modifies this
      ensures Abs() == Schedule(Step(old(Abs()), Event.Block(q)), window)
      ensures dispatched == current.Some? && disableCount == if dispatched then 0 else 1
    {
      status := status[current.value := Blocked];
      waitQueues := waitQueues[q := waitQueues[q] + [current.value]];
      current := None;
      dispatched := SchedulerEntry(window);
    }

    /** unblock(dequeue(q)), the way unblock_one() of sync.c calls it. */
    method UnblockOne(q: QueueId) returns (woke: bool)
      requires disableCount == 1 && current.Some? && q in waitQueues
      modifies this`readyQueue, this`status, this`waitQueues
      ensures Abs() == Step(old(Abs()), Unblock(q)) && woke == (old(waitQueues[q]) != [])
    {
      woke := waitQueues[q] != [];
      if woke {
        var pcb := waitQueues[q][0];
        waitQueues := waitQueues[q := waitQueues[q][1..]];
        status := status[pcb := Ready];
        readyQueue := readyQueue + [pcb];
      }
    }

    /** timer_irq(): a running pcb inside the kernel (nested_count != 0) is not preempted. */
    method TimerIrq(nestedCount: nat, window: nat)
      requires disableCount == 0 && current.Some?
      modifies this
      ensures disableCount == 0 && current.Some?
      ensures var k := Step(old(Abs()), Tick);
              Abs() == if nestedCount == 0 then Schedule(Step(k, Yield), window) else k
    {
      timeElapsed := timeElapsed + 1;
      if nestedCount == 0 {
        EnterCritical();
        PutCurrentRunning();
        YieldNeverIdles(Abs(), window);
        var dispatched := SchedulerEntry(window);
      }
    }
  }

  /** Somebody is dispatched at once when the ready queue is not empty. */
  lemma YieldNeverIdles(k: Kernel, window: nat)
    requires k.tasks.current.None? && k.tasks.ready != []
    ensures Schedule(k, window).tasks.current.Some?
  {
    var w := CheckSleepingShape(k);
  }
}
