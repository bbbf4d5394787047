/** project4_start_code/scheduler.c and sync.c as one object: the kernel's globals and the fields of its pcbs,
    locks, semaphores and barriers. A lock, condition, semaphore or barrier is known by the address of its wait
    queue; absent map entries stand for NULL. A call runs up to the point where it returns or switches to another
    thread; what it does after being resumed is a method of its own. */
module SyncKernel {
  import opened Seqs
  import opened Placement
  import opened RoundRobin
  import RoundRobinRuns
  import opened WaitGraph
  import P = Primitives

  class Kernel {
    var current: Option<Tid>
    var readyQueue: seq<Tid>
    var sleepWaitQueue: seq<Tid>
    var waitQueues: map<QueueId, seq<Tid>>
    var status: map<Tid, Status>
    var deadline: map<Tid, int>
    var timeElapsed: nat
    var disableCount: nat

    var locked: map<QueueId, bool>      // lock_t.status == LOCKED
    var heldTask: map<QueueId, Tid>     // lock_t.held_task
    var blockingLock: map<Tid, QueueId> // pcb_t.blocking_lock
    var sem: map<QueueId, int>
    var total: map<QueueId, int>
    var count: map<QueueId, int>

    /** The kernel as _start() leaves it: one pcb spawned, the others EXITED, and no lock or semaphore initialised. */
    constructor (n: nat, queues: set<QueueId>)
      requires 1 <= n
      ensures Abs() == RoundRobin.Boot(n, queues) && disableCount == 1
      ensures locked == map[] && heldTask == map[] && blockingLock == map[] && sem == map[] && total == map[] && count == map[]
    {
      current, readyQueue, sleepWaitQueue := None, [1], [];
      waitQueues := map q | q in queues :: [];
      status := (map t | t in Pids(n) :: Exited)[1 := FirstTime];
      deadline, timeElapsed, disableCount := map[], 0, 1;
      locked, heldTask, blockingLock, sem, total, count := map[], map[], map[], map[], map[], map[];
    }

    ghost function Abs(): RoundRobin.Kernel
      reads this
    {
      RoundRobin.Kernel(Tasks(current, readyQueue, sleepWaitQueue, waitQueues, status), deadline, timeElapsed)
    }

    predicate IsLock(l: QueueId) reads this { l in waitQueues && l in locked }
    predicate IsSemaphore(s: QueueId) reads this { s in waitQueues && s in sem }
    predicate IsBarrier(b: QueueId) reads this { b in waitQueues && b in total && b in count }

    ghost function LockAt(l: QueueId): P.Lock
      requires IsLock(l)
      reads this
    {
      P.Lock(locked[l], waitQueues[l])
    }

    ghost function SemaphoreAt(s: QueueId): P.Semaphore
      requires IsSemaphore(s)
      reads this
    {
      P.Semaphore(sem[s], waitQueues[s])
    }

    ghost function BarrierAt(b: QueueId): P.Barrier
      requires IsBarrier(b)
      reads this
    {
      P.Barrier(total[b], count[b], waitQueues[b])
    }

    /** Who waits for whom. */
    ghost function Waits(): Edges
      reads this
    {
      map t | t in blockingLock && blockingLock[t] in heldTask :: heldTask[blockingLock[t]]
    }

    /** All waiters on q have gone, in order, to the end of the ready queue and are READY; nothing else has changed. */
    twostate predicate AllWoken(q: QueueId)
      requires old(q in waitQueues)
      reads this
    {
      && waitQueues == old(waitQueues[q := []]) && readyQueue == old(readyQueue + waitQueues[q])
      && (forall t :: t in status <==> t in old(status) || t in old(waitQueues[q]))
      && (forall t :: t in status ==> status[t] == if t in old(waitQueues[q]) then Ready else old(status[t]))
      && current == old(current) && sleepWaitQueue == old(sleepWaitQueue)
      && (old(Placed(Abs().tasks)) ==> Placed(Abs().tasks))
    }

    /** The first waiter on q, if there is one, has; nothing else has changed. */
    twostate predicate FirstWoken(q: QueueId)
      requires old(q in waitQueues)
      reads this
    {
      if old(waitQueues[q]) == [] then waitQueues == old(waitQueues) && readyQueue == old(readyQueue) && status == old(status)
      else
        var t := old(waitQueues[q][0]);
        && waitQueues == old(waitQueues[q := waitQueues[q][1..]])
        && readyQueue == old(readyQueue) + [t] && status == old(status[t := Ready])
    }

    /** Thread t, which had the processor, is behind all that were ready, and the first of them has it now. */
    twostate predicate WentBehind(t: Tid)
      reads this
    {
      && current.Some? && old(readyQueue) + [t] <= [current.value] + readyQueue
      && t in status && (t !in old(sleepWaitQueue) ==> status[t] == Ready)
    }

    /** A thread is running with interrupts on, as outside every call; or inside a critical section. */
    predicate Running(d: nat) reads this { current.Some? && disableCount == d }

    /** Either somebody was dispatched and has interrupts on, or scheduler() still idles. */
    predicate Switched(dispatched: bool) reads this {
      dispatched == current.Some? && disableCount == if dispatched then 0 else 1
    }

    // ---------- scheduler.c ----------

    /** Entering twice or leaving twice is a panic in entry.S; callers must show it cannot happen. */
    method EnterCritical()
      requires disableCount == 0
      modifies this`disableCount
      ensures disableCount == 1
    {
      disableCount := 1;
    }

    method LeaveCritical()
      requires disableCount == 1
      modifies this`disableCount
      ensures disableCount == 0
    {
      disableCount := 0;
    }

    method CheckSleeping()
      modifies this`readyQueue, this`sleepWaitQueue, this`status
      ensures Abs() == RoundRobin.CheckSleeping(old(Abs()))
    {
      while sleepWaitQueue != []
        invariant RoundRobin.CheckSleeping(Abs()) == RoundRobin.CheckSleeping(old(Abs()))
        decreases |sleepWaitQueue|
      {
        var sleeping := sleepWaitQueue[0];
        if Field(deadline, sleeping) <= timeElapsed {
          status := status[sleeping := Ready];
          readyQueue := readyQueue + [sleeping];
          sleepWaitQueue := sleepWaitQueue[1..];
        } else {
          return;
        }
      }
    }

    /** One turn of scheduler()'s idle loop in which the timer fires. */
    method IdleTick()
      requires disableCount == 1 && current.None?
      modifies this`disableCount, this`timeElapsed, this`readyQueue, this`sleepWaitQueue, this`status
      ensures Abs() == RoundRobin.CheckSleeping(Step(old(Abs()), Tick)) && disableCount == 1 && current.None?
    {
      LeaveCritical();
      timeElapsed := timeElapsed + 1;
      EnterCritical();
      RoundRobin.CheckSleepingKeepsCurrent(Abs());
      CheckSleeping();
    }

    /** scheduler_entry with scheduler() inside it, watched for at most `window` ticks of the idle loop; the
        switch ends with LEAVE_CRITICAL in the context of the chosen pcb. */
    method SchedulerEntry(window: nat) returns (dispatched: bool)
      requires disableCount == 1 && current.None?
      modifies this`current, this`disableCount, this`timeElapsed, this`readyQueue, this`sleepWaitQueue, this`status
      ensures Abs() == Schedule(old(Abs()), window) && Switched(dispatched)
    {
      var ticks := 0;
      ghost var k := Abs();
      RoundRobin.CheckSleepingKeepsCurrent(k);
      CheckSleeping();
      while readyQueue == [] && ticks < window
        invariant ticks <= window && disableCount == 1 && k.tasks.current.None? && current.None?
        invariant Abs() == RoundRobin.CheckSleeping(k) && Schedule(k, window - ticks) == Schedule(old(Abs()), window)
        decreases window - ticks
      {
        k := Step(Abs(), Tick);
        IdleTick();
        ticks := ticks + 1;
      }
      dispatched := readyQueue != [];
      if dispatched {
        current := Some(readyQueue[0]);
        readyQueue := RemoveAt(readyQueue, 0);
        LeaveCritical();
      }
    }

    method DoSleep(milliseconds: int, window: nat) returns (dispatched: bool)
      requires Running(0)
      modifies this`current, this`disableCount, this`timeElapsed, this`readyQueue, this`sleepWaitQueue, this`status, this`deadline
      ensures Switched(dispatched)
      ensures var k := Step(old(Abs()), Sleep(milliseconds));
              Abs() == if k.tasks.current.None? then Schedule(k, window) else k
    {
      EnterCritical();
      var d := WakeTime(timeElapsed, milliseconds);
      deadline := deadline[current.value := d];
      if d > timeElapsed {
        status := status[current.value := Sleeping];
        sleepWaitQueue := InsertAt(sleepWaitQueue, |sleepWaitQueue|, current.value);
        current := None;
        dispatched := SchedulerEntry(window);
      } else {
        LeaveCritical();
        dispatched := true;
      }
    }

    method DoYield(window: nat) returns (dispatched: bool)
      requires Running(0)
      modifies this`current, this`disableCount, this`timeElapsed, this`readyQueue, this`sleepWaitQueue, this`status
      ensures Abs() == Schedule(Step(old(Abs()), Yield), window) && Switched(dispatched)
      ensures dispatched && WentBehind(old(current.value))
    {
      EnterCritical();
      status := status[current.value := Ready];
      readyQueue := readyQueue + [current.value];
      ghost var me := current.value;
      current := None;
      RoundRobinRuns.ScheduleServesHead(Abs(), window);
      if me !in sleepWaitQueue { RoundRobinRuns.ScheduleKeepsStatus(Abs(), window, me); }
      else { RoundRobinRuns.ScheduleKeepsKeys(Abs(), window, me); }
      dispatched := SchedulerEntry(window);
    }

    method DoExit(window: nat) returns (dispatched: bool)
      requires Running(0)
      modifies this`current, this`disableCount, this`timeElapsed, this`readyQueue, this`sleepWaitQueue, this`status
      ensures Abs() == Schedule(Step(old(Abs()), Exit), window) && Switched(dispatched)
      ensures old(current.value !in sleepWaitQueue) ==> old(current.value) in status && status[old(current.value)] == Exited
    {
      EnterCritical();
      status := status[current.value := Exited];
      ghost var me := current.value;
      current := None;
      if me !in sleepWaitQueue { RoundRobinRuns.ScheduleKeepsStatus(Abs(), window, me); }
      dispatched := SchedulerEntry(window);
    }

    method BlockOn(q: QueueId, window: nat) returns (dispatched: bool)
      requires Running(1) && q in waitQueues
      modifies this`current, this`disableCount, this`timeElapsed, this`readyQueue, this`sleepWaitQueue, this`status, this`waitQueues
      ensures Abs() == Schedule(Step(old(Abs()), Block(q)), window) && Switched(dispatched)
      ensures waitQueues == old(waitQueues[q := waitQueues[q] + [current.value]])
      ensures old(current.value !in sleepWaitQueue) ==> old(current.value) in status && status[old(current.value)] == Blocked
    {
      status := status[current.value := Blocked];
      waitQueues := waitQueues[q := waitQueues[q] + [current.value]];
      ghost var me := current.value;
      current := None;
      if me !in sleepWaitQueue { RoundRobinRuns.ScheduleKeepsStatus(Abs(), window, me); }
      ScheduleKeepsWaits(Abs(), window);
      dispatched := SchedulerEntry(window);
    }

    // ---------- sync.c ----------

    method UnblockOne(q: QueueId) returns (woke: bool)
      requires Running(1) && q in waitQueues
      modifies this`readyQueue, this`status, this`waitQueues
      ensures Abs() == Step(old(Abs()), Unblock(q)) && woke == (old(waitQueues[q]) != [])
      ensures FirstWoken(q)
    {
      woke := waitQueues[q] != [];
      if woke {
        var pcb := waitQueues[q][0];
        waitQueues := waitQueues[q := waitQueues[q][1..]];
        status := status[pcb := Ready];
        readyQueue := readyQueue + [pcb];
      }
    }

    method UnblockEach(q: QueueId)
      requires Running(1) && q in waitQueues
      modifies this`readyQueue, this`status, this`waitQueues
      ensures Abs() == UnblockAll(old(Abs()), q) && waitQueues == old(waitQueues[q := []])
      ensures AllWoken(q)
    {
      UnblockAllWakesEach(Abs(), q);
      var more := UnblockOne(q);
      while more
        invariant Running(1) && q in waitQueues && waitQueues[q := []] == old(waitQueues[q := []])
        invariant UnblockAll(Abs(), q) == UnblockAll(old(Abs()), q)
        invariant !more ==> waitQueues[q] == []
        decreases |waitQueues[q]|, more
      {
        more := UnblockOne(q);
      }
      assert waitQueues == waitQueues[q := []];
    }

    /** The while loop of lock_acquire_helper(): does following holder and blocking_lock from l lead back here? */
    method WouldDeadlock(l: QueueId) returns (deadlock: bool)
      requires current.Some? && l in waitQueues && current.value !in blockingLock
      requires l in heldTask ==> Ends(Waits(), heldTask[l])
      modifies this`blockingLock
      ensures deadlock <==> l in heldTask && Reaches(old(Waits()), heldTask[l], current.value)
      ensures blockingLock == if deadlock then old(blockingLock) else old(blockingLock)[current.value := l]
    {
      ghost var e := Waits();
      var me := current.value;
      blockingLock := blockingLock[me := l];
      var curTask := current;
      ghost var left: nat := 0;
      if l in heldTask { left :| Follow(e, heldTask[l], left) == None; }
      ghost var first := true;
      while curTask.Some?
        invariant blockingLock == old(blockingLock)[me := l]
        invariant first ==> curTask == Some(me) && (l in heldTask ==> Follow(e, heldTask[l], left) == None)
        invariant !first && curTask.Some? ==> l in heldTask && curTask.value != me && Follow(e, curTask.value, left) == None
                                              && (Reaches(e, heldTask[l], me) <==> Reaches(e, curTask.value, me))
        invariant !first && curTask.None? ==> !(l in heldTask && Reaches(e, heldTask[l], me))
        decreases first, left, curTask.Some?
      {
        if curTask.value !in blockingLock {
          if !first { ReachesNext(e, curTask.value, me); }
          break;
        }
        var curLock := blockingLock[curTask.value];
        var tmpTask := if curLock in heldTask then Some(heldTask[curLock]) else None;
        if tmpTask == Some(me) {
          blockingLock := blockingLock - {me};
          assert blockingLock == old(blockingLock);
          assert Follow(e, me, 0) == Some(me);
          if !first { ReachesNext(e, curTask.value, me); }
          return true;
        }
        if !first {
          ReachesNext(e, curTask.value, me);
          left := left - 1;
        }
        first := false;
        curTask := tmpTask;
      }
      deadlock := false;
    }

    /** The same test, with what it means for the graph of waits. */
    method MarkWaiting(l: QueueId) returns (deadlock: bool)
      requires current.Some? && l in waitQueues && current.value !in blockingLock
      requires l in heldTask ==> Ends(Waits(), heldTask[l])
      modifies this`blockingLock
      ensures deadlock <==> l in heldTask && Reaches(old(Waits()), heldTask[l], current.value)
      ensures blockingLock == if deadlock then old(blockingLock) else old(blockingLock)[current.value := l]
      ensures old(Acyclic(Waits())) ==> Acyclic(Waits())
    {
      ghost var e, me := Waits(), current.value;
      deadlock := WouldDeadlock(l);
      if !deadlock && l in heldTask {
        if Acyclic(e) { NewWait(e, me, heldTask[l]); }
        assert Waits() == e[me := heldTask[l]];
      } else {
        assert Waits() == e;
      }
    }

    /** lock_acquire_helper(); blocked when the caller must wait for its turn, after which LockGranted follows. */
    method LockAcquireHelper(l: QueueId, window: nat) returns (result: int, blocked: bool)
      requires Running(1) && IsLock(l) && current.value !in blockingLock
      requires locked[l] && l in heldTask ==> Ends(Waits(), heldTask[l])
      modifies this`current, this`disableCount, this`timeElapsed, this`readyQueue, this`sleepWaitQueue, this`status,
               this`waitQueues, this`blockingLock, this`locked
      ensures IsLock(l) && locked == old(locked)[l := locked[l]] && (old(Acyclic(Waits())) ==> Acyclic(Waits()))
      ensures result == 1 <==> old(locked[l] && l in heldTask && Reaches(Waits(), heldTask[l], current.value))
      ensures result != 1 ==> result == 0 && LockAt(l) == P.Acquire(old(LockAt(l)), old(current.value)).0
                              && blocked == P.Acquire(old(LockAt(l)), old(current.value)).1
      ensures blocked ==> Abs() == Schedule(Step(old(Abs()), Block(l)), window) && Switched(current.Some?)
                          && blockingLock == old(blockingLock[current.value := l])
      ensures !blocked ==> Abs() == old(Abs()) && disableCount == 1 && blockingLock == old(blockingLock)
      ensures result == 1 ==> !blocked && locked[l]
      ensures result == 0 ==> locked[l] && (blocked <==> old(locked[l]))
      ensures blocked ==> waitQueues == old(waitQueues[l := waitQueues[l] + [current.value]])
    {
      blocked := false;
      if locked[l] {
        var deadlock := MarkWaiting(l);
        if deadlock { return 1, false; }
        blocked := true;
        var dispatched := BlockOn(l, window);
      } else {
        locked := locked[l := true];
      }
      result := 0;
    }

    /** lock_acquire() up to the switch, if there is one; and the rest of condition_wait() in a thread that was woken. */
    method LockAcquire(l: QueueId, window: nat) returns (result: int, blocked: bool)
      requires Running(0) && IsLock(l) && current.value !in blockingLock
      requires locked[l] && l in heldTask ==> Ends(Waits(), heldTask[l])
      modifies this`current, this`disableCount, this`timeElapsed, this`readyQueue, this`sleepWaitQueue, this`status,
               this`waitQueues, this`blockingLock, this`locked
      ensures IsLock(l) && locked == old(locked)[l := locked[l]]
      ensures result == 1 <==> old(locked[l] && l in heldTask && Reaches(Waits(), heldTask[l], current.value))
      ensures result != 1 ==> result == 0 && LockAt(l) == P.Acquire(old(LockAt(l)), old(current.value)).0
                              && blocked == P.Acquire(old(LockAt(l)), old(current.value)).1
      ensures blocked ==> Abs() == Schedule(Step(old(Abs()), Block(l)), window) && Switched(current.Some?)
                          && blockingLock == old(blockingLock[current.value := l])
      ensures !blocked ==> Abs() == old(Abs()) && disableCount == 0 && blockingLock == old(blockingLock)
      ensures result == 1 ==> !blocked && locked[l]
      ensures result == 0 ==> locked[l] && (blocked <==> old(locked[l]))
      ensures blocked ==> waitQueues == old(waitQueues[l := waitQueues[l] + [current.value]])
    {
      EnterCritical();
      result, blocked := LockAcquireHelper(l, window);
      if !blocked {
        LeaveCritical();
      }
    }

    /** What the resumed thread does after block() in lock_acquire_helper(). */
    method LockGranted()
      requires Running(0)
      modifies this`disableCount, this`blockingLock
      ensures disableCount == 1 && blockingLock == old(blockingLock - {current.value})
    {
      EnterCritical();
      blockingLock := blockingLock - {current.value};
    }

    method LockReleaseHelper(l: QueueId)
      requires Running(1) && IsLock(l)
      modifies this`readyQueue, this`status, this`waitQueues, this`locked, this`heldTask
      ensures IsLock(l) && LockAt(l) == P.Release(old(LockAt(l))).0
      ensures locked == old(locked)[l := locked[l]] && heldTask == old(heldTask) - {l}
      ensures Abs() == Step(old(Abs()), Unblock(l))
      ensures FirstWoken(l)
      ensures locked[l] <==> old(waitQueues[l]) != [] && old(locked[l])
    {
      var woke := UnblockOne(l);
      if !woke {
        locked := locked[l := false];
      }
      heldTask := heldTask - {l};
    }

    method LockRelease(l: QueueId)
      requires Running(0) && IsLock(l)
      modifies this`disableCount, this`readyQueue, this`status, this`waitQueues, this`locked, this`heldTask
      ensures IsLock(l) && LockAt(l) == P.Release(old(LockAt(l))).0 && disableCount == 0
      ensures locked == old(locked)[l := locked[l]] && heldTask == old(heldTask) - {l}
      ensures Abs() == Step(old(Abs()), Unblock(l))
      ensures FirstWoken(l)
      ensures locked[l] <==> old(waitQueues[l]) != [] && old(locked[l])
    {
      EnterCritical();
      LockReleaseHelper(l);
      LeaveCritical();
    }

    /** condition_wait() up to the switch: release and wait are one critical section. */
    method ConditionWait(m: QueueId, c: QueueId, window: nat) returns (dispatched: bool)
      requires Running(0) && IsLock(m) && c in waitQueues && c != m
      modifies this`current, this`disableCount, this`timeElapsed, this`readyQueue, this`sleepWaitQueue, this`status,
               this`waitQueues, this`locked, this`heldTask
      ensures IsLock(m) && LockAt(m) == P.Release(old(LockAt(m))).0 && Switched(dispatched)
      ensures locked == old(locked)[m := locked[m]] && heldTask == old(heldTask) - {m}
      ensures c in waitQueues && waitQueues[c] == old(waitQueues[c] + [current.value])
      ensures Abs() == Schedule(Step(Step(old(Abs()), Unblock(m)), Block(c)), window)
      ensures locked[m] <==> old(waitQueues[m]) != [] && old(locked[m])
      ensures old(current.value) !in old(sleepWaitQueue) ==> old(current.value) in status && status[old(current.value)] == Blocked
    {
      EnterCritical();
      LockReleaseHelper(m);
      dispatched := BlockOn(c, window);
    }

    method ConditionSignal(c: QueueId)
      requires Running(0) && c in waitQueues
      modifies this`disableCount, this`readyQueue, this`status, this`waitQueues
      ensures Abs() == Step(old(Abs()), Unblock(c)) && disableCount == 0
      ensures FirstWoken(c)
    {
      EnterCritical();
      var woke := UnblockOne(c);
      LeaveCritical();
    }

    method ConditionBroadcast(c: QueueId)
      requires Running(0) && c in waitQueues
      modifies this`disableCount, this`readyQueue, this`status, this`waitQueues
      ensures Abs() == UnblockAll(old(Abs()), c) && waitQueues == old(waitQueues[c := []]) && disableCount == 0
      ensures AllWoken(c)
    {
      EnterCritical();
      UnblockEach(c);
      LeaveCritical();
    }

    method SemaphoreUp(s: QueueId)
      requires Running(0) && IsSemaphore(s)
      modifies this`disableCount, this`readyQueue, this`status, this`waitQueues, this`sem
      ensures IsSemaphore(s) && SemaphoreAt(s) == P.Up(old(SemaphoreAt(s))).0 && disableCount == 0
      ensures sem == old(sem)[s := sem[s]]
      ensures Abs() == if P.Up(old(SemaphoreAt(s))).1.Some? then Step(old(Abs()), Unblock(s)) else old(Abs())
      ensures if old(sem[s] < 1 && waitQueues[s] != []) then FirstWoken(s) && sem == old(sem)
              else readyQueue == old(readyQueue) && status == old(status) && sem == old(sem[s := sem[s] + 1])
    {
      EnterCritical();
      if sem[s] < 1 && waitQueues[s] != [] {
        var woke := UnblockOne(s);
      } else {
        sem := sem[s := sem[s] + 1];
      }
      LeaveCritical();
    }

    method SemaphoreDown(s: QueueId, window: nat) returns (blocked: bool)
      requires Running(0) && IsSemaphore(s)
      modifies this`current, this`disableCount, this`timeElapsed, this`readyQueue, this`sleepWaitQueue, this`status,
               this`waitQueues, this`sem
      ensures IsSemaphore(s) && sem == old(sem)[s := sem[s]]
      ensures SemaphoreAt(s) == P.Down(old(SemaphoreAt(s)), old(current.value)).0
      ensures blocked == P.Down(old(SemaphoreAt(s)), old(current.value)).1
      ensures blocked ==> Abs() == Schedule(Step(old(Abs()), Block(s)), window) && Switched(current.Some?)
      ensures !blocked ==> Abs() == old(Abs()) && disableCount == 0
      ensures blocked <==> old(sem[s]) <= 0
      ensures if blocked then sem == old(sem) && waitQueues == old(waitQueues[s := waitQueues[s] + [current.value]])
              else sem == old(sem[s := sem[s] - 1]) && waitQueues == old(waitQueues)
    {
      EnterCritical();
      blocked := sem[s] <= 0;
      if blocked {
        var dispatched := BlockOn(s, window);
      } else {
        sem := sem[s := sem[s] - 1];
        LeaveCritical();
      }
    }

    method BarrierWait(b: QueueId, window: nat) returns (blocked: bool)
      requires Running(0) && IsBarrier(b)
      modifies this`current, this`disableCount, this`timeElapsed, this`readyQueue, this`sleepWaitQueue, this`status,
               this`waitQueues, this`count
      ensures IsBarrier(b) && count == old(count)[b := count[b]]
      ensures BarrierAt(b) == P.Arrive(old(BarrierAt(b)), old(current.value)).0
      ensures blocked == P.Arrive(old(BarrierAt(b)), old(current.value)).1
      ensures blocked ==> Abs() == Schedule(Step(old(Abs()), Block(b)), window) && Switched(current.Some?)
      ensures !blocked ==> Abs() == UnblockAll(old(Abs()), b) && disableCount == 0
      ensures !blocked ==> AllWoken(b)
      ensures blocked <==> old(count[b] + 1 < total[b])
      ensures if blocked then count == old(count[b := count[b] + 1]) && waitQueues == old(waitQueues[b := waitQueues[b] + [current.value]])
              else count == old(count[b := 0])
    {
      EnterCritical();
      blocked := !(count[b] + 1 >= total[b]);
      if !blocked {
        UnblockEach(b);
        count := count[b := 0];
        LeaveCritical();
      } else {
        count := count[b := count[b] + 1];
        var dispatched := BlockOn(b, window);
      }
    }

    /** timer_irq() between the ENTER_CRITICAL and LEAVE_CRITICAL of handle_int, up to the switch. */
    method TimerIrq(nestedCount: nat, window: nat)
      requires Running(0)
      modifies this`current, this`disableCount, this`timeElapsed, this`readyQueue, this`sleepWaitQueue, this`status
      ensures Switched(current.Some?)
      ensures var k := Step(old(Abs()), Tick);
              Abs() == if nestedCount == 0 then Schedule(Step(k, Yield), window) else k
      ensures nestedCount == 0 ==> WentBehind(old(current.value))
      ensures nestedCount != 0 ==> current == old(current) && readyQueue == old(readyQueue) && status == old(status)
    {
      EnterCritical();
      timeElapsed := timeElapsed + 1;
      if nestedCount != 0 {
        LeaveCritical();
      } else {
        status := status[current.value := Ready];
        readyQueue := readyQueue + [current.value];
        ghost var me := current.value;
        current := None;
        RoundRobinRuns.ScheduleServesHead(Abs(), window);
        if me !in sleepWaitQueue { RoundRobinRuns.ScheduleKeepsStatus(Abs(), window, me); }
        else { RoundRobinRuns.ScheduleKeepsKeys(Abs(), window, me); }
        var dispatched := SchedulerEntry(window);
      }
    }

    // ---------- any sequence of calls ----------

    /** lock_init(), for a lock that is not in use. */
    method LockInit(l: QueueId)
      requires l in waitQueues && waitQueues[l] == []
      modifies this`locked, this`heldTask
      ensures IsLock(l) && LockAt(l) == P.Lock(false, [])
      ensures locked == old(locked)[l := false] && heldTask == old(heldTask) - {l}
    {
      locked := locked[l := false];
      heldTask := heldTask - {l};
    }

    /** One call on a lock, if it is possible now; result is what lock_acquire_helper() returned in it. */
    method ServeLock(call: LockCall, window: nat) returns (result: Option<int>)
      requires Running(0) && heldTask == map[]
      modifies this
      ensures heldTask == map[] && (result == None || result == Some(0))
    {
      result := None;
      match call
      case Initialize(l) => if l in waitQueues && waitQueues[l] == [] { LockInit(l); }
      case Acquire(l) =>
        if IsLock(l) && current.value !in blockingLock {
          var r, blocked := LockAcquire(l, window);
          result := Some(r);
        }
      case Resume => LockGranted(); LeaveCritical();
      case Release(l) => if IsLock(l) { LockRelease(l); }
      case Wait(m, c) => if IsLock(m) && c in waitQueues && c != m { var dispatched := ConditionWait(m, c, window); }
    }

    /** Any other call of sync.c. */
    method ServeSync(call: SyncCall, window: nat)
      requires Running(0) && heldTask == map[]
      modifies this
      ensures heldTask == map[]
    {
      match call
      case Signal(c) => if c in waitQueues { ConditionSignal(c); }
      case Broadcast(c) => if c in waitQueues { ConditionBroadcast(c); }
      case Up(s) => if IsSemaphore(s) { SemaphoreUp(s); }
      case Down(s) => if IsSemaphore(s) { var blocked := SemaphoreDown(s, window); }
      case Arrive(b) => if IsBarrier(b) { var blocked := BarrierWait(b, window); }
    }

    /** Any other call of scheduler.c, and the timer. */
    method ServeThread(call: ThreadCall, window: nat)
      requires Running(0) && heldTask == map[]
      modifies this
      ensures heldTask == map[]
    {
      match call
      case DoSleepCall(ms) => var dispatched := DoSleep(ms, window);
      case DoYieldCall => var dispatched := DoYield(window);
      case DoExitCall => var dispatched := DoExit(window);
      case Timer(nestedCount) => TimerIrq(nestedCount, window);
    }

    /** held_task stays NULL through any sequence of calls, by whichever threads; so the walk never refuses, and every
        lock_acquire() returns 0. */
    method Run(calls: seq<Call>, window: nat) returns (results: seq<int>)
      requires heldTask == map[]
      modifies this
      ensures heldTask == map[] && forall r <- results :: r == 0
    {
      results := [];
      for i := 0 to |calls|
        invariant heldTask == map[] && forall r <- results :: r == 0
      {
        if current.None? && disableCount == 1 {
          var dispatched := SchedulerEntry(window);
        } else if Running(0) {
          match calls[i]
          case OfLock(call) =>
            var result := ServeLock(call, window);
            if result.Some? { results := results + [result.value]; }
          case OfSync(call) => ServeSync(call, window);
          case OfThread(call) => ServeThread(call, window);
        }
      }
    }
  }

  datatype LockCall = Initialize(l: QueueId) | Acquire(l: QueueId) | Resume | Release(l: QueueId) | Wait(m: QueueId, c: QueueId)
  datatype SyncCall = Signal(c: QueueId) | Broadcast(c: QueueId) | Up(s: QueueId) | Down(s: QueueId) | Arrive(b: QueueId)
  datatype ThreadCall = DoSleepCall(ms: int) | DoYieldCall | DoExitCall | Timer(nestedCount: nat)
  datatype Call = OfLock(lockCall: LockCall) | OfSync(syncCall: SyncCall) | OfThread(threadCall: ThreadCall)

  lemma {:induction false} ScheduleKeepsWaits(k: RoundRobin.Kernel, window: nat)
    requires k.tasks.current.None?
    ensures Schedule(k, window).tasks.waits == k.tasks.waits && Schedule(k, window).deadline == k.deadline
    decreases window
  {
    RoundRobin.CheckSleepingKeepsCurrent(k);
    CheckSleepingKeepsDeadlines(k);
    var k1 := Step(k, Dispatch);
    if k1.tasks.current.None? && window > 0 { ScheduleKeepsWaits(Step(k1, Tick), window - 1); }
  }

  /** Reaching `me` from somebody else is reaching it from the next one on the chain. */
  lemma ReachesNext(e: Edges, t: Tid, me: Tid)
    requires t != me
    ensures Reaches(e, t, me) <==> t in e && Reaches(e, e[t], me)
  {
    if Reaches(e, t, me) {
      var n: nat :| Follow(e, t, n) == Some(me);
      assert n > 0;
      assert Follow(e, e[t], n - 1) == Some(me);
    }
    if t in e && Reaches(e, e[t], me) { ReachesFromBefore(e, t, me); }
  }
}
