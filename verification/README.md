# A verified model of the teaching kernel

The repository is a small MIPS kernel kept in one snapshot per project. This project models the parts of it in which
a mistake would show only under some interleaving or after a long run, and proves what the code promises about them:

* **Where threads are.** Both schedulers move pcbs between the running slot, the ready queue, the sleep queue and the
  wait queues. `Placement` states that every live pcb is in exactly one of them, exactly once, with the status that
  belongs there; `Ageing` (project 3) and `RoundRobin` (project 4) are the two schedulers as machines, and every run of
  either keeps it. `AgeingRuns` and `RoundRobinRuns` say where each call leaves its caller and everybody else, and when a
  sleeper wakes up, over whole runs. `AgeingScheduler` and `SyncKernel` are the C functions as methods over the kernel's globals, each
  tied to a step of its machine.
* **Fairness.** With ageing priorities a ready thread is overtaken a bounded number of times if and only if every base
  priority is positive; with round robin, threads are dispatched in arrival order.
* **Synchronisation** (project 4). Locks with direct hand-off, condition variables, semaphores and barriers are functions
  on values in `Primitives`, proved to be what the methods of `SyncKernel` do, and then studied over all interleavings:
  `Locks`, `Semaphores`, `Barriers`, and the two other clients `Philosophers` and `Monitor`. `WaitGraph` is about the
  walk that looks for deadlocks. `CriticalSection` is about `disable_count` and `nested_count` along whole runs.
* **Queues.** `Rings` proves the pointer surgery of `queue.c` on a heap of doubly linked nodes against sequences, and
  `RingScheduler` runs the whole project 4 scheduler on such rings: all queues share one set of pcb nodes, no node is on
  two of them, and every call is a step of `RoundRobin`.
* **Mailboxes** (project 4), **demand paging** (project 5) and **number formatting**: a machine and its
  runs in `Mailboxes` and `Paging`, the in-place code in `MessageBoxes`, `MemoryManagers` and `Numbers`.

A machine has a `Step` function, and a run is a sequence of states in which each follows from the one before by an
enabled event. Theorems whose name begins with `EveryRun` are about every state of every run. The number of threads,
philosophers, participants, iterations and frames is arbitrary where the source fixes a number.

Granularity: inside the kernel and in kernel threads `timer_irq()` returns without switching, so another thread runs only
after `scheduler_entry()`. The clients are modelled more finely than that: between any two statements that touch shared
data, any thread that is not blocked may go on.

The calls that switch to another thread end, in the methods, at the switch; what a thread does when it is resumed is a
method of its own (`SyncKernel.Kernel.LockGranted`) or one more step of its machine. The idle loop of `scheduler()`
need not end. Methods that can enter it take the number of clock ticks to watch it for (`window`), and say whether a
thread has been dispatched by then; `Ageing.IdleUntilEarliestDeadline` and `RoundRobinRuns.IdleUntilFirstDeadline` say when that is.

Where the code does not meet what one would expect of it, the project says exactly when it does:

* `do_mbox_send()` and `do_mbox_recv()` test with `if` and wake all waiters: the bounds of the box hold if and only if
  nobody shares an end of it with somebody at the other end (`Mailboxes.BoundsHoldExactlyFor`).
* A thread whose pid is 5 or more has a base priority of 0 or less and can starve (`Ageing.BoundedExactlyWithPositiveBases`).
* `do_wait()` for an unknown pid stays in the critical section (`CriticalSection.CallIsDisciplined`), and every exception
  that `simple_handler` handles, inside a critical section or not, breaks the discipline and leads to a panic
  (`CriticalSection.ExceptionBreaksDiscipline`, `ExceptionLeadsToPanic`). Nothing else does
  (`CriticalSection.KeptExactlyWhenAllowed`).
* `refresh_page_q()` re-enqueues without unlinking. The page queue is still a ring if and only if no entry of `page_map`
  matches or the first match is not queued (`Rings.RefreshPageQ`). In that second case a pinned frame becomes
  replaceable, and can be handed out while it is still mapped (`Paging.RefillQueuesPinned`, `PinnedVictimStaysNamed`).
  So a refill is harmless if and only if no frame is recorded at its address (`Paging.RefillKeepsExactly`).
* Off the stack, `handle_tlb_c()` loads the entry page whatever the address. No frame is ever shared by that, but the
  fault is resolved if and only if the address is on the entry page (`Paging.ResolvedExactly`), and otherwise comes again
  for ever (`Paging.UnresolvedComesAgain`). If the process's page of code was in memory and is not the page being
  replaced, its first frame stays in the queue unmapped (`Paging.LoadCodeKeepsExactly`), and the eviction of an unmapped
  frame takes the live page of its process away instead (`Paging.ClearsOwnEntryExactly`).
* The walk of `lock_acquire_helper()` ends if and only if the chain of waits from the lock's holder does
  (`WaitGraph.WalkEndsExactly`).
* In `atoi()` the sum `n * 10 + c` is formed before `'0'` is taken away, so that the `int` is exceeded from
  2^31 - 48 on, not from 2^31 on (`Numbers.SafeExactlyBelow`).

## Model

| member | source | states |
|---|---|---|
| Placement.PlacedMeansOneHomeEach | project4_start_code/scheduler.c:15-106 | the queue-membership invariant is the promise: each live pcb has one and only one place, which agrees with its status, and an exited one has none |
| Placement.MoveKeepsPlaced | project4_start_code/scheduler.c:15-106 | every move (wake, put ready, sleep, block, unblock, exit, take, spawn) keeps each pcb in exactly one place |
| Placement.BootIsPlaced | project3_start_code/kernel.c:47-50 | the ready queue built at start-up satisfies the invariant |
| Ageing.SleepPosition | project3_start_code/queue.c:48-57 | the place found is before the first deadline that is not earlier |
| Ageing.FirstMax | project3_start_code/scheduler.c:60-66 | the chosen pcb has the highest priority, and is the first that has it |
| Ageing.CheckSleepingShape | project3_start_code/scheduler.c:27-40 | the due prefix of the sleep queue, and nothing else, moves in order to the end of the ready queue |
| Ageing.WakesExactlyTheDue | project3_start_code/scheduler.c:27-40 | on a sorted queue a sleeper is woken if and only if its deadline has passed |
| Ageing.InsertKeepsSorted | project3_start_code/scheduler.c:93-107 | a new sleeper goes in where it keeps the queue sorted |
| Ageing.StepKeepsSane | project3_start_code/scheduler.c:27-135 | every step keeps every pcb in one place, the sleep queue sorted and the set of threads unchanged |
| Ageing.EveryRunIsSane | project3_start_code/scheduler.c:27-135 | the same in every reachable state from the start-up of n threads |
| Ageing.PickUsesATurn | project3_start_code/scheduler.c:60-76 | a dispatch uses up one of the chosen pcb's remaining turns before t, and raises nobody's |
| Ageing.EveryRunIsInBand | project3_start_code/scheduler.c:72-75 | with all pids below the number of levels, every priority stays between 10 and its base, in steps of 10 |
| Ageing.BoundedWaiting | project3_start_code/scheduler.c:42-80 | while t is ready, the others are dispatched at most the sum of (levels - j) times before it, whatever sleeps, blocks, wakes and exits meanwhile |
| Ageing.Starves | project3_start_code/scheduler.c:60-76 | with a base of 0 or less the last thread waits through any given number of dispatches |
| Ageing.BoundedExactlyWithPositiveBases | project3_start_code/kernel.c:101 | waiting is bounded if and only if every base priority 10*(levels-pid) is positive |
| Ageing.IdleUntilEarliestDeadline | project3_start_code/scheduler.c:49-56 | with nobody ready the idle loop ends exactly when the clock reaches the earliest deadline |
| AgeingRuns.BootIs | project3_start_code/kernel.c:33-102 | start-up: all n threads ready in pid order, each at priority 10*(levels-pid) |
| AgeingRuns.RunnerGoes | project3_start_code/scheduler.c:43-129 | where the thread that had the processor is after each call: last ready, last in its wait queue, asleep, or exited and nowhere; or still running |
| AgeingRuns.OnlyExitExits | project3_start_code/scheduler.c:116-121 | a live thread becomes EXITED in its own do_exit() and in no other step |
| AgeingRuns.WaiterGoes | project3_start_code/scheduler.c:131-135 | a waiter stays in its queue until it is first and the queue is signalled; then it is last ready and READY |
| AgeingRuns.ReadyGoes | project3_start_code/scheduler.c:49-80 | a ready thread stays ready until it is dispatched |
| AgeingRuns.DispatchRunsHighest | project3_start_code/scheduler.c:49-80 | scheduler() wakes who is due and runs the first ready thread of the highest priority, which loses 10 or goes back to 10*(levels-pid); nobody else's priority changes |
| AgeingRuns.ClockCountsTicks | project3_start_code/interrupt.c:80-89 | time_elapsed counts the timer interrupts of a run and nothing else |
| AgeingRuns.SleepGoes | project3_start_code/scheduler.c:93-107 | below 2^64 the deadline of do_sleep(ms) is ms milliseconds after the tick of the call |
| AgeingRuns.SleepsUntilDue | project3_start_code/scheduler.c:27-40 | a thread that calls do_sleep(ms) at tick T is asleep in every later state until a dispatch at a tick t with T*1000 + ms <= t*1000 |
| AgeingRuns.FirstDueDispatchWakes | project3_start_code/scheduler.c:27-40 | and the first such dispatch makes it ready, or runs it |
| AgeingScheduler.Scheduler.constructor | project3_start_code/kernel.c:33-66 | start-up: pids 1..n with their base priorities, all ready |
| AgeingScheduler.Scheduler.CheckSleeping | project3_start_code/scheduler.c:27-40 | the loop does what the machine's CheckSleeping says |
| AgeingScheduler.Scheduler.PutCurrentRunning | project3_start_code/scheduler.c:43-46 | the Yield step |
| AgeingScheduler.Scheduler.FirstHighest | project3_start_code/scheduler.c:60-66 | the scan finds the first highest priority |
| AgeingScheduler.Scheduler.RunFirstHighest | project3_start_code/scheduler.c:60-76 | unlinking, ageing and making current are the machine's Pick |
| AgeingScheduler.Scheduler.Dispatch | project3_start_code/scheduler.c:49-80 | scheduler() with its idle loop is Schedule, and keeps disable_count |
| AgeingScheduler.Scheduler.SchedulerEntry | project3_start_code/entry.S:207-216 | the switch leaves the critical section in the context of the chosen pcb |
| AgeingScheduler.Scheduler.DoSleep | project3_start_code/scheduler.c:93-107 | the Sleep step, whose deadline AgeingRuns.SleepGoes gives, then dispatch |
| AgeingScheduler.Scheduler.DoYield | project3_start_code/scheduler.c:109-114 | back to the ready queue, then dispatch without idling |
| AgeingScheduler.Scheduler.DoExit | project3_start_code/scheduler.c:116-121 | leave for good, then dispatch |
| AgeingScheduler.Scheduler.Block | project3_start_code/scheduler.c:123-129 | wait on the given queue, then dispatch |
| AgeingScheduler.Scheduler.UnblockOne | project3_start_code/scheduler.c:131-135 | the first waiter goes to the end of the ready queue; says whether there was one |
| AgeingScheduler.Scheduler.TimerIrq | project3_start_code/interrupt.c:80-89 | a tick, and a preemption exactly when nested_count is 0 |
| RoundRobin.BootIsPlaced | project4_start_code/kernel.c:54-64 | at start-up one pcb is ready and FIRST_TIME, the others are EXITED, every queue is empty, and the placement invariant holds |
| RoundRobin.EveryRunIsPlaced | project4_start_code/scheduler.c:15-106 | in every reachable state each live pcb is in exactly one place that agrees with its status, and exited ones are in none |
| RoundRobin.FirstComeFirstServed | project4_start_code/scheduler.c:32-52 | the thread at position p of the ready queue is dispatched by exactly the (p+1)-th dispatch from now |
| RoundRobin.WokenIsDue | project4_start_code/scheduler.c:15-29 | nobody is woken early: whoever leaves the sleep queue does so in scheduler(), and its deadline has come |
| RoundRobin.SleeperKeepsDeadline | project4_start_code/scheduler.c:65-79 | a sleeper's deadline is the one it went to sleep with |
| RoundRobin.UnblockAllWakesEach | project4_start_code/sync.c:112-117 | every waiter goes, in order, to the end of the ready queue and is READY; every other thread and queue stays as it is |
| RoundRobinRuns.RunnerGoes | project4_start_code/scheduler.c:32-100 | where the thread that had the processor is after each call: last ready, last in its wait queue, last asleep, or exited and nowhere; or still running |
| RoundRobinRuns.OnlyExitExits | project4_start_code/scheduler.c:87-92 | a live thread becomes EXITED in its own do_exit() and in no other step |
| RoundRobinRuns.WaiterGoes | project4_start_code/scheduler.c:102-106 | a waiter stays in its queue until it is first and the queue is signalled; then it is last ready and READY |
| RoundRobinRuns.StartedGoes | project4_start_code/kernel.c:249-255 | a new process is last ready, with status FIRST_TIME |
| RoundRobinRuns.YielderRunsAfterTheOthers | project4_start_code/scheduler.c:32-52 | a thread that yields or is preempted with n others ready is the one dispatched by the (n+1)-th dispatch from there |
| RoundRobinRuns.ClockCountsTicks | project4_start_code/interrupt.c:79-89 | time_elapsed counts the timer interrupts of a run and nothing else |
| RoundRobinRuns.CheckSleepingShape | project4_start_code/scheduler.c:15-29 | check_sleeping() wakes the sleepers up to the first one that is not due, in order, and no others |
| RoundRobinRuns.SleepGoes | project4_start_code/scheduler.c:65-79 | do_sleep(ms) goes on when ms is below 1000, and else sleeps with a deadline ms/1000 ticks after the call |
| RoundRobinRuns.SleepsUntilDue | project4_start_code/scheduler.c:15-29 | a thread that calls do_sleep(ms) at tick T is asleep in every later state until a dispatch at tick T + ms/1000 or later |
| RoundRobinRuns.WokenExactly | project4_start_code/scheduler.c:15-29 | a dispatch wakes a sleeper if and only if it and all who went to sleep before it are due |
| RoundRobinRuns.WokenIsReady | project4_start_code/scheduler.c:15-29 | whoever is woken is ready, or runs at once |
| RoundRobinRuns.IdleUntilFirstDeadline | project4_start_code/scheduler.c:41-52 | with nobody ready the idle loop ends exactly when the clock reaches the first sleeper's deadline, and that sleeper runs |
| RoundRobinRuns.ReadyRunsAtOnce | project4_start_code/scheduler.c:41-52 | with somebody ready the first one runs, and no time passes |
| Semaphores.EveryRunConserves | project4_start_code/sync.c:120-140 | initial value + ups = sem + granted downs, sem is never negative, waiters only when it is 0, grants in order of asking |
| Semaphores.AtMostValueInside | project4_start_code/sync.c:120-140 | grants never outnumber the completed ups by more than the initial value |
| Semaphores.HistoryIsOfCalls | project4_start_code/sync.c:120-140 | after any calls, as many downs have come through as the initial value and the ups allow, in the order of the calls, and the others wait in that order |
| Locks.StepKeeps | project4_start_code/sync.c:34-117 | each call, condition_wait() included, keeps mutual exclusion, the hand-off order and the match of queues and phases |
| Locks.EveryRunExcludes | project4_start_code/sync.c:34-117 | in every run at most one thread is inside, UNLOCKED means nobody inside and nobody waiting, and grants follow arrival |
| Locks.AskerGoes | project4_start_code/sync.c:34-60 | who asks for the lock is inside if nobody was, and else last in its queue; nobody else moves |
| Locks.LeaverGoes | project4_start_code/sync.c:72-102 | who releases the lock or waits on a condition is out of it, the first in the queue is inside, and the lock is free exactly when nobody was queued |
| Locks.SignalledGoes | project4_start_code/sync.c:105-117 | a signal takes the first waiter off the condition, if there is one, and nobody else moves |
| Philosophers.EveryRunKeeps | project4_start_code/philosophers.c:31-73 | every fork is free, or held by one philosopher with the others that want it queued; eating[] is true exactly while eating |
| Philosophers.EatersShareNoFork | project4_start_code/philosophers.c:52-64 | two different philosophers that share a fork are never both eating |
| Philosophers.AssertionsHold | project4_start_code/philosophers.c:62-63 | both ASSERTs hold whenever they are reached |
| Philosophers.WaitsClimb | project4_start_code/philosophers.c:52-58 | the chain of waits from a blocked philosopher climbs to higher forks and ends at one who is not blocked |
| Philosophers.NeverDeadlocked | project4_start_code/philosophers.c:47-72 | in every reachable state some philosopher can move |
| Philosophers.StepLowersRank | project4_start_code/philosophers.c:47-72 | every step that does not begin a meal brings its philosopher nearer to one, and sets nobody back |
| Philosophers.MealsRecur | project4_start_code/philosophers.c:47-72 | in every run, among any 5n+1 consecutive steps there is one in which somebody begins to eat |
| Barriers.CallWaitKeeps | project4_start_code/sync.c:153-163 | barrier_wait() keeps count equal to the queue length and below total, and releases all the others at once |
| Barriers.EveryUseIsOk | project4_start_code/sync.c:144-163 | in every order of calls and returns by n threads, count is the queue length and below total, and calls, returns and rounds agree |
| Barriers.NobodyReturnsEarly | project4_start_code/sync.c:153-163 | in every such run nobody returns from a k-th call before everybody has made k calls, and rounds never mix |
| Barriers.ReleasedAreReady | project4_start_code/sync.c:153-157 | when the last thread arrives, everybody else may return from its call and is READY on the ready queue |
| Barriers.NotAllWait | project4_start_code/sync.c:153-163 | somebody is always outside the queue |
| Barriers.EveryRunKeeps | project4_start_code/barrier_test.c:21-48 | the client's counters agree with the barrier's rounds in every run |
| Barriers.ValuesAreEqual | project4_start_code/barrier_test.c:38-40 | the ASSERT value[j] == value[id] holds for all j whenever it is reached |
| Barriers.PassedWithAllIterations | project4_start_code/barrier_test.c:45 | the final ASSERT holds |
| Barriers.NeverStuck | project4_start_code/barrier_test.c:34-47 | until all threads have passed, one of them can move |
| Barriers.EveryRunEnds | project4_start_code/barrier_test.c:34-47 | no run has more than n*(5*iterations+2) steps, and one that cannot go on has let every thread pass with all its iterations |
| Monitor.StepKeeps | project4_start_code/th2.c:49-145 | every step of either thread keeps the relation between shared_var and both loop counters and the match of lock, condition queues and program points |
| Monitor.EveryRunKeeps | project4_start_code/th2.c:35-146 | the same in every run |
| Monitor.MonitorIsSafe | project4_start_code/th2.c:49-91 | the ASSERTs after the wait loops hold, no update is lost, shared_var is 3*M when both have finished, and nobody prints FAILED; that lock_acquire() returns 0 is SyncKernel.Kernel.Run |
| Monitor.NeverStuck | project4_start_code/th2.c:49-145 | no wakeup is lost: until both threads are gone, one of them can move |
| Monitor.EveryRunEnds | project4_start_code/th2.c:35-146 | no run has more than 24*M+18 steps, and one that cannot go on has both threads gone, shared_var at 3*M, and exactly one report, that both passed |
| WaitGraph.AcyclicMeansAllEnd | project4_start_code/sync.c:40-52 | no cycle of waits exists exactly when every walk along holder and blocking_lock ends |
| WaitGraph.NewWait | project4_start_code/sync.c:37-53 | blocking keeps the graph acyclic if and only if the walk from the new holder does not lead back to the caller |
| WaitGraph.WalkEndsExactly | project4_start_code/sync.c:40-52 | the walk of a caller that waits for nobody ends if and only if the chain of waits from the holder ends; cycles elsewhere do no harm |
| SyncKernel.Kernel.CheckSleeping | project4_start_code/scheduler.c:15-29 | the loop does what the machine's CheckSleeping says |
| SyncKernel.Kernel.SchedulerEntry | project4_start_code/scheduler.c:41-52 | idle loop, choice and switch are Schedule, and end outside the critical section |
| SyncKernel.Kernel.DoSleep | project4_start_code/scheduler.c:65-79 | sleep and dispatch when the deadline is later than now, otherwise nothing but the deadline changes |
| SyncKernel.Kernel.DoYield | project4_start_code/scheduler.c:81-85 | the caller goes behind all that were ready, as READY, and the first of them runs |
| SyncKernel.Kernel.DoExit | project4_start_code/scheduler.c:87-92 | leave for good, then dispatch |
| SyncKernel.Kernel.BlockOn | project4_start_code/scheduler.c:94-100 | to the end of the wait queue, then dispatch |
| SyncKernel.Kernel.UnblockOne | project4_start_code/sync.c:11-23 | the first waiter goes to the end of the ready queue and is READY, nobody else moves; says whether there was one |
| SyncKernel.Kernel.WouldDeadlock | project4_start_code/sync.c:37-52 | whenever the walk ends, it answers 1 exactly when holder and blocking_lock links lead from the lock back to the caller |
| SyncKernel.Kernel.LockAcquireHelper | project4_start_code/sync.c:34-60 | returns 1 exactly on such a cycle, without a change; otherwise does what Primitives.Acquire says to this lock and nothing to any other, and an acyclic graph of waits stays acyclic with the new edge |
| SyncKernel.Kernel.LockGranted | project4_start_code/sync.c:53-54 | the resumed thread is back in the critical section and waits for no lock |
| SyncKernel.Kernel.LockAcquire | project4_start_code/sync.c:64-70 | lock_acquire(), and the rest of condition_wait() in a woken thread: the helper inside a critical section, with its result |
| SyncKernel.Kernel.LockInit | project4_start_code/sync.c:26-32 | the lock is free, with no waiter and no holder; no other lock changes |
| SyncKernel.Kernel.LockRelease | project4_start_code/sync.c:72-85 | what Primitives.Release says: the lock goes to the first waiter, or becomes free; its holder is NULL, and no other lock changes |
| SyncKernel.Kernel.ConditionWait | project4_start_code/sync.c:96-102 | the part before the switch: the release and the wait are one critical section, with the caller last in the condition's queue; no other lock changes |
| SyncKernel.Kernel.ConditionSignal | project4_start_code/sync.c:105-109 | the first waiter, if any, becomes ready |
| SyncKernel.Kernel.ConditionBroadcast | project4_start_code/sync.c:112-117 | all waiters go, in order, to the end of the ready queue and are READY; every other thread and queue stays as it is |
| SyncKernel.Kernel.SemaphoreUp | project4_start_code/sync.c:126-132 | what Primitives.Up says, on this counter, its wait queue and the ready queue; no other counter changes |
| SyncKernel.Kernel.SemaphoreDown | project4_start_code/sync.c:135-140 | what Primitives.Down says, blocking the caller exactly when it says so; no other counter changes |
| SyncKernel.Kernel.BarrierWait | project4_start_code/sync.c:153-163 | blocks the caller exactly when count + 1 is below total; otherwise all waiters go to the end of the ready queue and are READY, and count is 0; no other barrier changes |
| SyncKernel.Kernel.TimerIrq | project4_start_code/interrupt.c:79-89 | a tick; when nested_count is 0 the running thread goes behind all that were ready, as READY, and the first of them runs; otherwise nobody moves |
| SyncKernel.Kernel.Run | project4_start_code/th2.c:51-84 | held_task stays NULL through any sequence of kernel calls, so every lock_acquire() returns 0, as the clients' ASSERTs demand |
| SyncKernel.Kernel.constructor | project4_start_code/kernel.c:46-64 | start-up: one pcb spawned, the others EXITED, every held_task NULL |
| SyncKernel.ReachesNext | project4_start_code/sync.c:40-52 | one turn of the walk keeps the answer |
| CriticalSection.BodyFlow | project4_start_code/sync.c:34-163 | on every path, a kernel call that starts outside the critical section ends outside it, passing every assertion; exit never ends, and do_wait() on an unknown pid ends inside |
| CriticalSection.SyscallFlow | project4_start_code/interrupt.c:90-121 | the two critical sections around a system call, and both nested_count assertions, fit exactly the calls that end outside |
| CriticalSection.HandlerFlow | project4_start_code/entry.S:324-351 | an interrupt, with or without a preemption, gives both counters back as it found them |
| CriticalSection.CallIsDisciplined | project4_start_code/kernel.c:288-303 | a call, by a process or by a kernel thread, keeps the discipline if and only if it is not a do_wait() for an unknown pid |
| CriticalSection.StepKeeps | project4_start_code/entry.S:174-193 | every event keeps: disable_count is 0 or 1, the running thread cannot panic from there, and no other thread can from 0 |
| CriticalSection.EveryRunIsDisciplined | project4_start_code/entry.S:174-229 | no run reaches a panic or a failed assertion, across any switches and interrupts; outside the kernel the section is left and the nesting is the initial one |
| CriticalSection.SoundInsideFailsOutside | project4_start_code/entry.S:174-193 | code that is sound inside a critical section is unsound once the section was left under it, unless it never touches or asserts disable_count |
| CriticalSection.ExceptionBreaksDiscipline | project4_start_code/entry.S:281-307 | an exception handled by simple_handler, whether it interrupts a critical section or not, leaves the running thread unable to keep the discipline |
| CriticalSection.KeptExactlyWhenAllowed | project4_start_code/entry.S:174-351 | an event keeps the invariant if and only if it is neither such an exception nor a thread's do_wait() for an unknown pid |
| CriticalSection.LoneLeave | project4_start_code/entry.S:304 | when the panic comes: at the handler's own LEAVE_CRITICAL exactly when no critical section was interrupted |
| CriticalSection.ExceptionLeadsToPanic | project4_start_code/entry.S:281-307 | after every such exception the thread can run into a panic with no further event, at the latest at its own section's LEAVE_CRITICAL |
| CriticalSection.FailedWaitPanics | project4_start_code/interrupt.c:109-119 | a process that waits for an unknown pid panics before it is back from the system call |
| Rings.QueueInit | project4_start_code/queue.c:7-9 | the sentinel alone is an empty ring |
| Rings.Enqueue | project4_start_code/queue.c:27-32 | the item is inserted before the given node, which is last when that is the sentinel; next and prev stay inverse |
| Rings.Dequeue | project4_start_code/queue.c:11-25 | NULL on an empty ring, otherwise the first node, which is removed |
| Rings.IsEmpty | project4_start_code/queue.c:34-39 | true exactly when nothing follows the sentinel |
| Rings.Peek | project4_start_code/queue.c:41-46 | the first node or NULL, and no change |
| Rings.SortedPlace | project3_start_code/queue.c:48-57 | the place is before the first element that the new one is not after |
| Rings.SortedPlaceKeepsSorted | project3_start_code/queue.h:39-46 | insertion there keeps a sorted queue sorted, for every total preorder |
| Rings.EnqueueSort | project3_start_code/queue.c:48-57 | the loop over the ring inserts at that place |
| Rings.Unlink | project3_start_code/scheduler.c:67-70 | a node in the middle is taken out, and the rest is still a ring |
| Rings.FirstHighest | project3_start_code/scheduler.c:60-66 | the loop over the ring ends at the first node of the highest priority |
| Rings.EnqueueAmong | project4_start_code/queue.c:27-32 | the item goes to the end, and every ring that shares no node stays a ring |
| Rings.DequeueAmong | project4_start_code/queue.c:11-25 | the head leaves, and every ring that shares no node stays a ring |
| Rings.MoveHead | project4_start_code/scheduler.c:23 | moving a head from one ring to another leaves both rings, and any number of disjoint rings as they were |
| Rings.NotARing | project5_start_code/memory.c:173-176 | the links that refresh_page_q() leaves when the page was queued belong to no ring |
| Rings.Requeue | project5_start_code/memory.c:172-176 | re-enqueueing without unlinking appends a page that was not queued, and leaves no ring when it was |
| Rings.RefreshPageQ | project5_start_code/memory.c:161-179 | over all of page_map: the first entry at the address is moved, and the page queue is still a ring if and only if there is none or it was not queued |
| RingScheduler.PutOnRings | project4_start_code/scheduler.c:32-37 | a node at the end of a ready, sleep or wait ring is the move of a pcb to that queue |
| RingScheduler.WakeOnRings | project4_start_code/scheduler.c:22-23 | a head that changes to the ready ring is the waking of the first sleeper or waiter |
| RingScheduler.TakeOnRings | project4_start_code/scheduler.c:49 | a head taken off the ready ring is the dispatch of the first ready pcb |
| RingScheduler.Scheduler.constructor | project4_start_code/kernel.c:47-56 | initialised sentinels are empty, disjoint rings, all pcbs are EXITED, and each is in no place |
| RingScheduler.Scheduler.CheckSleeping | project4_start_code/scheduler.c:15-29 | the loop over the sleep ring is the machine's CheckSleeping, and all queues stay disjoint rings over the same nodes |
| RingScheduler.Scheduler.Leave | project4_start_code/scheduler.c:32-37 | the running pcb goes to the end of a ring with the status that belongs there |
| RingScheduler.Scheduler.SchedulerEntry | project4_start_code/scheduler.c:41-52 | scheduler() with its idle loop, on the rings, is Schedule |
| RingScheduler.Scheduler.DoYield | project4_start_code/scheduler.c:81-85 | Yield, whose effect RoundRobinRuns.RunnerGoes gives, then Schedule, on the rings |
| RingScheduler.Scheduler.Block | project4_start_code/scheduler.c:94-100 | Block, then Schedule, on the rings |
| RingScheduler.Scheduler.UnblockOne | project4_start_code/sync.c:11-23 | the Unblock step on the rings; says whether there was a waiter |
| RingScheduler.Scheduler.DoSleep | project4_start_code/scheduler.c:65-79 | Sleep until the computed deadline, then Schedule, when it lies ahead; otherwise only the deadline changes |
| RingScheduler.Scheduler.Start | project4_start_code/kernel.c:249-255 | an exited pcb on no ring goes to the end of the ready ring |
| RingScheduler.Scheduler.DoExit | project4_start_code/scheduler.c:87-92 | Exit, then Schedule, on the rings; the pcb is on none |
| Mailboxes.TestsAreExact | project4_start_code/mbox.c:118-129 | full and empty are decided rightly across the wrap of the 32-bit counters |
| Mailboxes.StepKeeps | project4_start_code/mbox.c:143-203 | every send and receive keeps the refinement: the slots hold, in order, exactly the messages sent and not yet received |
| Mailboxes.EveryRunRefines | project4_start_code/mbox.c:143-203 | the same in every run, past any number of messages |
| Mailboxes.SentIsOfCalls | project4_start_code/mbox.c:143-166 | with one sender, the messages in the box's history are those of the send calls, in order, but for one that is blocked or just woken |
| Mailboxes.WantedIsOfCalls | project4_start_code/mbox.c:181-203 | with one receiver, the lengths received are those of the receive calls, in order, but for one that is blocked or just woken |
| Mailboxes.BoxIsABoundedFifo | project4_start_code/mbox.c:143-203 | with one sender and one receiver: 0 to 32 messages wait, the k-th receive call delivers the message of the k-th send call up to the length it asked for, and the two are never both blocked |
| Mailboxes.TwoSendersOverflow | project4_start_code/mbox.c:149-151 | two blocked senders put a 33rd message into the box |
| Mailboxes.TwoReceiversUnderflow | project4_start_code/mbox.c:187-189 | two blocked receivers take one message too many |
| Mailboxes.BoundsHoldExactlyFor | project4_start_code/mbox.c:143-203 | the bounds hold in every run if and only if nobody shares an end of the box with somebody at the other end |
| MessageBoxes.MessageBox.constructor | project4_start_code/mbox.c:36-53 | an empty box with both counters at 0 |
| MessageBoxes.MessageBox.DoMboxIsFull | project4_start_code/mbox.c:118-123 | the machine's test |
| MessageBoxes.MessageBox.DoMboxIsEmpty | project4_start_code/mbox.c:125-129 | the machine's test |
| MessageBoxes.MessageBox.Store | project4_start_code/mbox.c:154-159 | the first min(nbytes, 32) bytes of msg are in slot write_num % 32, every other byte of the box is as before, and write_num goes up by one, modulo 2^32 |
| MessageBoxes.MessageBox.Fetch | project4_start_code/mbox.c:192-196 | the first min(nbytes, 32) bytes of slot read_num % 32 are in msg, the rest of msg is as before, and read_num goes up by one, modulo 2^32 |
| Paging.PteRoundTrip | project5_start_code/memory.c:47-53 | the entry built from a frame's address and flags gives back the address and the V bit |
| Paging.FirstUnused | project5_start_code/memory.c:67-73 | the first unused frame, or none |
| Paging.EvictFrees | project5_start_code/memory.c:74-84 | replacement clears one entry, that for the code of the process the victim is recorded for; afterwards nobody names the victim, the oldest queued frame |
| Paging.AllocAllocates | project5_start_code/memory.c:66-94 | page_alloc() returns a frame that no table and no entry uses; of all entries only the cleared one loses its name |
| Paging.FaultKeeps | project5_start_code/interrupt.c:272-307 | every fault on an invalid entry keeps the ownership of frames: it maps one frame nobody else has, in place of what that entry named, and takes away at most what page_alloc() clears |
| Paging.RefillKeepsExactly | project5_start_code/memory.c:161-179 | a refill keeps the ownership of frames if and only if no frame is recorded at that address |
| Paging.FarRefillMovesNothing | project5_start_code/memory.c:161-179 | none is, from 4 MB on |
| Paging.RefillQueuesPinned | project5_start_code/memory.c:161-179 | when the frame found is mapped and not queued, it is a pinned one, which becomes replaceable |
| Paging.PinnedVictimStaysNamed | project5_start_code/memory.c:74-84 | when its turn comes it is handed out while its old owner's entry still names it |
| Paging.SetUpKeeps | project5_start_code/memory.c:119-143 | a new process gets a page table in a frame of its own |
| Paging.StepKeeps | project5_start_code/interrupt.c:272-307 | every setup, every fault on an invalid entry and every refill that moves nothing keeps: tables in pinned frames of their own, every valid entry names the frame that records it, the queue is exactly the used unpinned frames, all pages of code |
| Paging.KeptExactlyWhenHarmless | project5_start_code/interrupt.c:272-307 | of all possible table setups, faults and refills, at any address, exactly the refills that move a frame do not keep it |
| Paging.EveryRunKeeps | project5_start_code/memory.c:47-159 | the same in every run |
| Paging.NoFrameIsShared | project5_start_code/memory.c:47-159 | in every such run no two valid entries of any processes name the same frame, and none names a page table |
| Paging.VictimIsOldestUnpinned | project5_start_code/memory.c:66-94 | neither a pinned frame nor a page table is ever taken; what is taken is unused or, when all are used, the oldest in the queue, and nobody names it afterwards |
| Paging.TablesSurvive | project5_start_code/memory.c:66-159 | no step zeroes or overwrites a page table: every entry but the cleared one and the one being mapped keeps its word |
| Paging.CodeArrives | project5_start_code/memory.c:145-152 | a fault off the stack leaves the process's page of code in the chosen frame and its address with the V bit in the entry, and every frame but that and the tables as it was |
| Paging.StackArrives | project5_start_code/memory.c:154-159 | a stack fault leaves a page of zeros in the chosen frame and its address with the V and D bits in the entry, and every frame but that and the tables as it was |
| Paging.TableArrives | project5_start_code/memory.c:119-143 | a new page table is empty but for the entry of the code, which is 0x04; every frame but that and the tables is as it was |
| Paging.EveryRunIsLoaded | project5_start_code/memory.c:145-152 | in every run every queued frame holds the page of code of the process it is recorded for |
| Paging.CodeIsInPlace | project5_start_code/memory.c:149 | in every run the frame that a process finds at its entry point holds its page of code as it is on disk |
| Paging.ClearsOwnEntryExactly | project5_start_code/memory.c:79-81 | an eviction takes no name from any frame but the victim if and only if the victim is mapped or its process has no page of code in memory |
| Paging.SecondLoadOrphansFrame | project5_start_code/interrupt.c:284-292 | a page of code that is in memory and is not being replaced is loaded a second time, and its first frame stays queued with no entry that maps it |
| Paging.LoadCodeKeepsExactly | project5_start_code/interrupt.c:284-292 | loading a page of code keeps every queued page mapped if and only if the process's own entry is invalid or names the frame about to be replaced |
| Paging.MappedExactlyWhenLoadedOnce | project5_start_code/interrupt.c:272-307 | of all possible events exactly the harmless ones that load no page of code twice keep every queued page mapped |
| Paging.VictimIsMapped | project5_start_code/memory.c:74-84 | so runs without a second load replace only mapped pages |
| Paging.ReachableHarm | project5_start_code/interrupt.c:272-307 | a run of one process to a memory in which a fault would be a second load, and another a refill that leaves no queue |
| Paging.ReplacementIsFifo | project5_start_code/memory.c:76-91 | the page at position p of the queue moves up by one for each replacement, and is the victim of the (p+1)-th |
| Paging.ResolvedExactly | project5_start_code/interrupt.c:272-307 | a fault makes the faulting entry valid if and only if the address is on the stack or on the page of the entry point |
| Paging.UnresolvedComesAgain | project5_start_code/interrupt.c:284-292 | elsewhere the same fault comes again any number of times, with another load of the page of code each time |
| MemoryManagers.MemoryManager.constructor | project5_start_code/memory.c:99-114 | all frames unused, the queue empty |
| MemoryManagers.MemoryManager.InsertPageTableEntry | project5_start_code/memory.c:47-59 | one word of one table changes |
| MemoryManagers.MemoryManager.PageAlloc | project5_start_code/memory.c:66-94 | scan, replacement, marking, queueing and zeroing are Paging.Alloc |
| MemoryManagers.MemoryManager.SetupPageTable | project5_start_code/memory.c:119-143 | the NewProcess step, with the invariant kept |
| MemoryManagers.MemoryManager.RefreshPageMap | project5_start_code/memory.c:145-152 | loads and maps the code page as Paging.MapCode says, whose effect is Paging.CodeArrives |
| MemoryManagers.MemoryManager.RefreshPageMapS | project5_start_code/memory.c:154-159 | maps a stack page as Paging.MapStack says |
| MemoryManagers.MemoryManager.RefreshPageQ | project5_start_code/memory.c:161-179 | the scan of page_map finds the first frame at the address, and queues it again |
| MemoryManagers.MemoryManager.HandleCodeFault | project5_start_code/interrupt.c:284-292 | the chosen frame holds the process's page of code word for word, and the entry its address with the V bit |
| MemoryManagers.MemoryManager.HandleStackFault | project5_start_code/interrupt.c:293-303 | the chosen frame is all zeros, and the entry its address with the V and D bits |
| MemoryManagers.MemoryManager.HandleTlbC | project5_start_code/interrupt.c:272-307 | does what the machine says, with these contents of the chosen frame, and the ownership of frames holds afterwards if and only if the fault was harmless |
| MemoryManagers.InsertTwice | project5_start_code/memory.c:131-139 | the loop over the pages writes one and the same entry |
| Numbers.ReadsBack | project4_start_code/print.c:346-358 | reading the digits back gives the number, in every base |
| Numbers.NoLeadingZero | project4_start_code/print.c:346-358 | a positive number is written without leading zeros |
| Numbers.EmitDigits | project4_start_code/print.c:346-358 | the do-while loop leaves the digits least significant first |
| Numbers.FormattedLength | project4_start_code/print.c:364-369 | the result is as long as the field, or as sign and digits when these are longer |
| Numbers.PaddedReadsBack | project4_start_code/print.c:376-381 | a number padded with zeros has its sign first and still reads back as the number |
| Numbers.TextCharacters | project4_start_code/print.c:346-358 | only digits, and letters of the case asked for, each below the base |
| Numbers.LeftFieldShows | project4_start_code/print.c:372-386 | a left adjusted field shows sign and digits first, and then only blanks |
| Numbers.ZeroFieldShows | project4_start_code/print.c:376-381 | a negative field padded with zeros shows the sign, only zeros, and the digits last |
| Numbers.RightFieldShows | project4_start_code/print.c:382-386 | any other field shows only padding, and then sign and digits |
| Numbers.PrintNum | project4_start_code/print.c:328-411 | the buffer holds padding, sign and digits in the documented order, and nothing behind them changes |
| Numbers.ReverseAt | project4_start_code/print.c:400-407 | reversal puts the character at k where the one at n-1-k was |
| Numbers.ReversePrefix | project4_start_code/util.c:154-163 | the swapping loop reverses the first n characters and leaves the others |
| Numbers.Strlen | project4_start_code/util.c:166-172 | the index of the first terminator |
| Numbers.Itoa | project4_start_code/util.c:124-134 | the decimal digits and a terminator, the rest of the buffer unchanged |
| Numbers.Itohex | project4_start_code/util.c:137-151 | the same in base 16 |
| Numbers.Atoi | project4_start_code/util.c:112-117 | the value of the leading digits modulo 2^32, and exactly when the int arithmetic stayed in range |
| Numbers.AtoiReadsItoa | project4_start_code/util.c:112-134 | atoi(itoa(n)) is n for every 32-bit n |
| Numbers.SafeExactlyBelow | project4_start_code/util.c:115 | without overflow if and only if n + 48 < 2^31 |

## Left out

- SyncKernel.Kernel.LockAcquireHelper: requires that the chain of waits from the lock's holder ends, which `WaitGraph.WalkEndsExactly` shows to be exactly when the walk does.
- SyncKernel.Kernel.WouldDeadlock: `held_task` is only ever assigned NULL in the source, so the walk never fires in a run of the whole kernel; it is stated for arbitrary holders.
- SyncKernel.Kernel.ConditionWait: ends at the switch; the re-acquisition after it is `SyncKernel.Kernel.LockAcquire`, the Woken phase of `Locks` and the CondWoken step of `Monitor`. It also goes on when the re-acquisition reports a deadlock, which cannot happen while `held_task` is NULL (`SyncKernel.Kernel.Run`).
- SyncKernel.Kernel.DoSleep: the deadline is an unsigned 64-bit number; `time_elapsed` itself is taken not to wrap. A sleeper of project 4 is woken exactly when it and all who went to sleep before it are due (`RoundRobinRuns.WokenExactly`), which can be late, because its sleep queue is not sorted.
- Ageing.BoundedWaiting: no thread changes its own priority with the setpriority system call.
- Paging.EveryRunKeeps: runs of table setups, of faults on invalid entries and of refills that move no frame, as long as a frame is free or replaceable when one is needed; the other refills do not keep the invariant, and after one that leaves no ring there is no state to go on from.
- Paging.KeptExactlyWhenHarmless: the word that a fault from 4 MB on finds past the page table may be anything.
- MemoryManagers.MemoryManager.HandleTlbC: the page queue is a sequence here, so a refill that leaves no ring is covered by `Rings.RefreshPageQ` only.
- Paging.FaultKeeps: the page of code on disk is a constant of the process; a replaced page is not written back, in the source as in the model.
- CriticalSection.EveryRunIsDisciplined: conditions of branches and loops are left open, which admits more runs than the kernel has; the deliberate halts (`do_shutdown()`, unassigned system calls) and running out of stacks are not included, and a killed thread may still be picked.
- Numbers.PrintNum: `int` fields are unbounded, and the buffer is required to be long enough, as the source's comment does; `PrintChar()` and `PrintString()` are not modelled.
- Reuse of pcb slots, `do_spawn()`, `do_kill()`, `do_wait()`, `do_mbox_open()` and `do_mbox_close()` beyond what they do to the critical section: `do_exit()` does not wake waiters, `do_kill()` clears the killer's flags, and names are copied without a terminator.
- The lock inside a message box: a send or receive runs without a switch between lock and unlock, so it is always free.
- RingScheduler.Scheduler.SchedulerEntry: `disable_count` is left to `SyncKernel`. Project 3's scheduler runs on sequences only, with its ring operations in `Rings`.
- TLB contents, register save areas, coprocessor instructions, serial output, screen output, boot blocks and build tools.
- Project 2: its queue, scheduler and lock are superseded by those of project 4.
