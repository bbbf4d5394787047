/** The project 3 scheduler: ageing priorities and a sleep queue sorted by deadline, as a machine whose
    steps are the kernel's calls. A thread leaves the processor in one step (yield, sleep, block, exit, timer
    preemption) and the next one is chosen in a later Dispatch step, so clock ticks that arrive inside
    scheduler()'s idle loop are steps of their own.
    `levels` stands for the 5 in `10*(5-pid)`. */
module Ageing {
  import opened Seqs
  import opened Placement

  datatype Kernel = Kernel(
    tasks: Tasks,
    prio: map<Tid, int>,
    deadline: map<Tid, int>,
    time: nat,
    levels: int)

  const STEP := 10

  function Base(levels: int, t: Tid): int { STEP * (levels - t) }

  /** `time_elapsed * 1000` in a uint64_t. */
  function Now(k: Kernel): int { k.time * 1000 % U64 }

  // ---------- the pieces of scheduler.c ----------

  function CheckSleeping(k: Kernel): Kernel
    decreases |k.tasks.sleepers|
  {
    if k.tasks.sleepers != [] && Field(k.deadline, k.tasks.sleepers[0]) <= Now(k)
    then CheckSleeping(k.(tasks := Apply(k.tasks, WakeSleeper)))
    else k
  }

  /** Where enqueue_sort() puts a deadline d: before the first one, from position i on, that is not earlier. */
  function SleepPosition(deadline: map<Tid, int>, s: seq<Tid>, d: int, i: nat := 0): (r: nat)
    requires i <= |s|
    ensures i <= r <= |s|
    ensures forall j :: i <= j < r ==> Field(deadline, s[j]) < d
    ensures r < |s| ==> d <= Field(deadline, s[r])
    decreases |s| - i
  {
    if i == |s| || d <= Field(deadline, s[i]) then i else SleepPosition(deadline, s, d, i + 1)
  }

  /** The first ready pcb of the highest priority, when `best` is the first of the highest before position i. */
  function FirstMax(prio: map<Tid, int>, s: seq<Tid>, best: nat := 0, i: nat := 0): (r: nat)
    requires best < |s| && best <= i <= |s|
    requires forall j :: 0 <= j < i ==> Field(prio, s[j]) <= Field(prio, s[best])
    requires forall j :: 0 <= j < best ==> Field(prio, s[j]) < Field(prio, s[best])
    ensures r < |s|
    ensures forall j :: 0 <= j < |s| ==> Field(prio, s[j]) <= Field(prio, s[r])
    ensures forall j :: 0 <= j < r ==> Field(prio, s[j]) < Field(prio, s[r])
    decreases |s| - i
  {
    if i == |s| then best
    else FirstMax(prio, s, if Field(prio, s[best]) < Field(prio, s[i]) then i else best, i + 1)
  }

  function Aged(p: int, levels: int, t: Tid): int {
    if p > STEP then p - STEP else Base(levels, t)
  }

  lemma CheckSleepingKeepsCurrent(k: Kernel)
    ensures CheckSleeping(k).tasks.current == k.tasks.current
    decreases |k.tasks.sleepers|
  {
  }

  /** Take the chosen pcb off the ready queue, lower or reset its priority, run it. */
  function Pick(k: Kernel): Kernel
    requires k.tasks.current.None? && k.tasks.ready != []
  {
    var i := FirstMax(k.prio, k.tasks.ready);
    var t := k.tasks.ready[i];
    k.(tasks := Apply(k.tasks, TakeReady(i)), prio := k.prio[t := Aged(Field(k.prio, t), k.levels, t)])
  }

  // ---------- the machine ----------

  datatype Event =
    | Dispatch            // one look of scheduler() at the queues
    | Tick                // a timer interrupt that only advances time_elapsed
    | Yield               // do_yield(), or the preemption at the end of timer_irq()
    | Sleep(ms: int)      // do_sleep(ms)
    | Block(q: QueueId)
    | Unblock(q: QueueId) // unblock(dequeue(q)) by the running thread; no effect when q is empty
    | Exit

  predicate Enabled(k: Kernel, e: Event) {
    match e
    case Dispatch => k.tasks.current.None?
    case Tick => true
    case Block(q) => k.tasks.current.Some? && q in k.tasks.waits
    case Unblock(q) => k.tasks.current.Some? && q in k.tasks.waits
    case _ => k.tasks.current.Some?
  }

  function Step(k: Kernel, e: Event): Kernel
    requires Enabled(k, e)
  {
    match e
    case Dispatch =>
      CheckSleepingKeepsCurrent(k);
      var k1 := CheckSleeping(k);
      if k1.tasks.ready == [] then k1 else Pick(k1)
    case Tick => k.(time := k.time + 1)
    case Yield => k.(tasks := Apply(k.tasks, PutReady))
    case Sleep(ms) => SleepUntil(k, WakeTime(k.time, ms))
    case Block(q) => k.(tasks := Apply(k.tasks, PutWaiting(q)))
    case Unblock(q) => if k.tasks.waits[q] == [] then k else k.(tasks := Apply(k.tasks, WakeWaiter(q)))
    case Exit => k.(tasks := Apply(k.tasks, PutExited))
  }

  /** The deadline of a sleep of `ms` milliseconds: uint64_t arithmetic on a signed argument. */
  function WakeTime(time: nat, ms: int): int { (time * 1000 + ms) % U64 }

  /** do_sleep() once the deadline is computed. */
  function SleepUntil(k: Kernel, d: int): Kernel
    requires k.tasks.current.Some?
  {
    var at := SleepPosition(k.deadline, k.tasks.sleepers, d);
    k.(tasks := Apply(k.tasks, PutSleeping(at)), deadline := k.deadline[k.tasks.current.value := d])
  }

  function Boot(n: nat, levels: int, queues: set<QueueId>): Kernel {
    var tasks := Placement.Boot(n, queues);
    Kernel(tasks, map t | t in tasks.ready :: Base(levels, t), map t | t in tasks.ready :: 0xffff_ffff, 0, levels)
  }

  /** ks[0], es[0], ks[1], es[1], ... is what one boot of n threads can do. */
  ghost predicate IsRun(ks: seq<Kernel>, es: seq<Event>, n: nat, levels: int, queues: set<QueueId>) {
    && |ks| == |es| + 1
    && ks[0] == Boot(n, levels, queues)
    && forall i :: 0 <= i < |es| ==> Enabled(ks[i], es[i]) && ks[i + 1] == Step(ks[i], es[i])
  }

  // ---------- sleeping ----------

  ghost predicate SortedBy(deadline: map<Tid, int>, s: seq<Tid>) {
    forall i, j :: 0 <= i < j < |s| ==> Field(deadline, s[i]) <= Field(deadline, s[j])
  }

  /** w sleepers at the front are due, and the next one is not. */
  ghost predicate IsDuePrefix(deadline: map<Tid, int>, now: int, s: seq<Tid>, w: nat) {
    && w <= |s|
    && (forall i :: 0 <= i < w ==> Field(deadline, s[i]) <= now)
    && (w < |s| ==> now < Field(deadline, s[w]))
  }

  lemma ConsSlice(s: seq<Tid>, w: nat)
    requires 0 < |s| && w <= |s| - 1
    ensures s[1..][w..] == s[w + 1..]
    ensures [s[0]] + s[1..][..w] == s[..w + 1]
  {
  }

  lemma DueMore(deadline: map<Tid, int>, now: int, s: seq<Tid>, v: nat)
    requires s != [] && Field(deadline, s[0]) <= now && IsDuePrefix(deadline, now, s[1..], v)
    ensures IsDuePrefix(deadline, now, s, v + 1)
  {
    assert forall i :: 0 < i <= v ==> s[i] == s[1..][i - 1];
  }

  /** check_sleeping() moves the due prefix of the sleep queue, in order, to the end of the ready queue. */
  lemma {:induction false} CheckSleepingShape(k: Kernel) returns (w: nat)
    ensures IsDuePrefix(k.deadline, Now(k), k.tasks.sleepers, w)
    ensures var k' := CheckSleeping(k);
            && k' == k.(tasks := k'.tasks)
            && k'.tasks.current == k.tasks.current && k'.tasks.waits == k.tasks.waits
            && k'.tasks.sleepers == k.tasks.sleepers[w..]
            && k'.tasks.ready == k.tasks.ready + k.tasks.sleepers[..w]
    decreases |k.tasks.sleepers|
  {
    var s := k.tasks.sleepers;
    if s != [] && Field(k.deadline, s[0]) <= Now(k) {
      var k1 := k.(tasks := Apply(k.tasks, WakeSleeper));
      var v := CheckSleepingShape(k1);
      w := v + 1;
      ConsSlice(s, v);
      DueMore(k.deadline, Now(k), s, v);
      assert k.tasks.ready + [s[0]] + s[1..][..v] == k.tasks.ready + ([s[0]] + s[1..][..v]);
    } else {
      w := 0;
      assert s[0..] == s && k.tasks.ready == k.tasks.ready + s[..0];
    }
  }

  lemma {:induction false} CheckSleepingKeepsPlaced(k: Kernel)
    requires Placed(k.tasks)
    ensures Placed(CheckSleeping(k).tasks)
    decreases |k.tasks.sleepers|
  {
    if k.tasks.sleepers != [] && Field(k.deadline, k.tasks.sleepers[0]) <= Now(k) {
      MoveKeepsPlaced(k.tasks, WakeSleeper);
      CheckSleepingKeepsPlaced(k.(tasks := Apply(k.tasks, WakeSleeper)));
    }
  }

  /** On a sorted queue it wakes exactly the sleepers whose deadline has passed: none early, none missed. */
  lemma WakesExactlyTheDue(k: Kernel, t: Tid)
    requires SortedBy(k.deadline, k.tasks.sleepers) && t in k.tasks.sleepers
    ensures Field(k.deadline, t) <= Now(k) ==> t in CheckSleeping(k).tasks.ready
    ensures Now(k) < Field(k.deadline, t) <==> t in CheckSleeping(k).tasks.sleepers
  {
    var w := CheckSleepingShape(k);
    DueSplit(k.deadline, Now(k), k.tasks.sleepers, w, t);
  }

  lemma DueSplit(deadline: map<Tid, int>, now: int, s: seq<Tid>, w: nat, t: Tid)
    requires SortedBy(deadline, s) && t in s && IsDuePrefix(deadline, now, s, w)
    ensures Field(deadline, t) <= now ==> t in s[..w]
    ensures now < Field(deadline, t) <==> t in s[w..]
  {
    var i :| 0 <= i < |s| && s[i] == t;
    if i < w { assert s[..w][i] == t; } else { assert s[w..][i - w] == t; }
    if t in s[w..] {
      var j :| 0 <= j < |s[w..]| && s[w..][j] == t;
      assert s[w + j] == t;
    }
  }

  lemma InsertKeepsSorted(deadline: map<Tid, int>, s: seq<Tid>, t: Tid, d: int)
    requires SortedBy(deadline, s) && t !in s
    ensures SortedBy(deadline[t := d], InsertAt(s, SleepPosition(deadline, s, d), t))
  {
    var at := SleepPosition(deadline, s, d);
    var s', dl' := InsertAt(s, at, t), deadline[t := d];
    forall i | 0 <= i < |s'| ensures Field(dl', s'[i]) == Inserted(deadline, s, at, d, i) {
      InsertAtIndex(s, at, t, i);
    }
    forall i, j | 0 <= i < j < |s'| ensures Field(dl', s'[i]) <= Field(dl', s'[j]) {
      InsertedIsSorted(deadline, s, d, i, j);
    }
  }

  /** The i-th deadline of the sleep queue after d went in at position `at`. */
  ghost function Inserted(deadline: map<Tid, int>, s: seq<Tid>, at: nat, d: int, i: nat): int
    requires at <= |s| && i <= |s|
  {
    if i < at then Field(deadline, s[i]) else if i == at then d else Field(deadline, s[i - 1])
  }

  lemma InsertedIsSorted(deadline: map<Tid, int>, s: seq<Tid>, d: int, i: nat, j: nat)
    requires SortedBy(deadline, s) && i < j <= |s|
    ensures var at := SleepPosition(deadline, s, d); Inserted(deadline, s, at, d, i) <= Inserted(deadline, s, at, d, j)
  {
    var at := SleepPosition(deadline, s, d);
    if i <= at < j - 1 { assert Field(deadline, s[at]) <= Field(deadline, s[j - 1]); }
  }

  // ---------- every run ----------

  ghost predicate Sane(k: Kernel) {
    Placed(k.tasks) && SortedBy(k.deadline, k.tasks.sleepers)
  }

  lemma DispatchKeepsSane(k: Kernel)
    requires Sane(k) && k.tasks.current.None?
    ensures Sane(Step(k, Dispatch))
    ensures Step(k, Dispatch).tasks.status.Keys == k.tasks.status.Keys && Step(k, Dispatch).levels == k.levels
  {
    var w := CheckSleepingShape(k);
    CheckSleepingKeepsPlaced(k);
    CheckSleepingKeys(k);
    var k1 := CheckSleeping(k);
    SuffixSorted(k.deadline, k.tasks.sleepers, w);
    if k1.tasks.ready != [] { MoveKeepsPlaced(k1.tasks, TakeReady(FirstMax(k1.prio, k1.tasks.ready))); }
  }

  lemma SuffixSorted(deadline: map<Tid, int>, s: seq<Tid>, w: nat)
    requires SortedBy(deadline, s) && w <= |s|
    ensures SortedBy(deadline, s[w..])
  {
  }

  lemma SleepKeepsSane(k: Kernel, d: int)
    requires Sane(k) && k.tasks.current.Some?
    ensures Sane(SleepUntil(k, d)) && SleepUntil(k, d).tasks.status.Keys == k.tasks.status.Keys
  {
    InsertKeepsSorted(k.deadline, k.tasks.sleepers, k.tasks.current.value, d);
    MoveKeepsPlaced(k.tasks, PutSleeping(SleepPosition(k.deadline, k.tasks.sleepers, d)));
  }

  lemma WakeKeepsKeys(s: Tasks, q: QueueId)
    requires Placed(s) && Possible(s, WakeWaiter(q))
    ensures Apply(s, WakeWaiter(q)).status.Keys == s.status.Keys
  {
    assert s.waits[q][0] in s.waits[q];
  }

  lemma StepKeepsSane(k: Kernel, e: Event)
    requires Sane(k) && Enabled(k, e)
    ensures Sane(Step(k, e))
    ensures Step(k, e).tasks.status.Keys == k.tasks.status.Keys && Step(k, e).levels == k.levels
  {
    match e
    case Dispatch => DispatchKeepsSane(k);
    case Tick =>
    case Yield => MoveKeepsPlaced(k.tasks, PutReady);
    case Sleep(ms) => SleepKeepsSane(k, WakeTime(k.time, ms));
    case Block(q) => MoveKeepsPlaced(k.tasks, PutWaiting(q));
    case Unblock(q) => if k.tasks.waits[q] != [] { WakeKeepsKeys(k.tasks, q); MoveKeepsPlaced(k.tasks, WakeWaiter(q)); }
    case Exit => MoveKeepsPlaced(k.tasks, PutExited);
  }

  lemma {:induction false} CheckSleepingKeys(k: Kernel)
    requires Placed(k.tasks)
    ensures CheckSleeping(k).tasks.status.Keys == k.tasks.status.Keys
    decreases |k.tasks.sleepers|
  {
    if k.tasks.sleepers != [] && Field(k.deadline, k.tasks.sleepers[0]) <= Now(k) {
      MoveKeepsPlaced(k.tasks, WakeSleeper);
      assert k.tasks.sleepers[0] in k.tasks.sleepers;
      CheckSleepingKeys(k.(tasks := Apply(k.tasks, WakeSleeper)));
    }
  }

  /** In every reachable state each pcb is in exactly one place and the sleep queue is sorted by deadline. */
  lemma {:induction false} EveryRunIsSane(ks: seq<Kernel>, es: seq<Event>, n: nat, levels: int, queues: set<QueueId>, i: nat)
    requires IsRun(ks, es, n, levels, queues) && i < |ks|
    ensures Sane(ks[i]) && OneHomeEach(ks[i].tasks)
    ensures (forall t :: t in ks[i].tasks.status <==> 1 <= t <= n) && ks[i].levels == levels
  {
    if i == 0 {
      BootIsPlaced(n, queues);
      BootHolds(n, queues);
    } else {
      EveryRunIsSane(ks, es, n, levels, queues, i - 1);
      StepKeepsSane(ks[i - 1], es[i - 1]);
    }
    PlacedMeansOneHomeEach(ks[i].tasks);
  }

  // ---------- bounded waiting ----------

  /** A priority that ageing can produce from a positive base. */
  predicate InBand(p: int, levels: int, t: Tid) {
    STEP <= p <= Base(levels, t) && p % STEP == 0
  }

  ghost predicate AllInBand(k: Kernel) {
    forall t :: t in k.tasks.status ==> InBand(Field(k.prio, t), k.levels, t)
  }

  ghost predicate Ahead(s: seq<Tid>, j: Tid, t: Tid) {
    exists a, b :: 0 <= a < b < |s| && s[a] == j && s[b] == t
  }

  /** How often j, at priority p, can still be dispatched before a ready t is. */
  function TurnsLeft(p: int, ahead: bool, levels: int, j: Tid): int {
    if p > STEP then p / STEP - 1 else if ahead then levels - j else 0
  }

  ghost function Turns(k: Kernel, j: Tid, t: Tid): int {
    TurnsLeft(Field(k.prio, j), Ahead(k.tasks.ready, j, t), k.levels, j)
  }

  ghost function TotalTurns(k: Kernel, t: Tid, n: nat): int {
    if n == 0 then 0 else TotalTurns(k, t, n - 1) + if n == t then 0 else Turns(k, n, t)
  }

  /** The bound: the sum of (levels - j) over the other threads j in 1..n. */
  function OthersTurns(levels: int, t: Tid, n: nat): int {
    if n == 0 then 0 else OthersTurns(levels, t, n - 1) + if n == t then 0 else levels - n
  }

  /** Only a dispatch can bring anybody ahead of t nearer to the front; every arrival goes behind t. */
  lemma AheadOnlyShrinks(s: seq<Tid>, back: seq<Tid>, j: Tid, t: Tid)
    requires NoDup(s + back) && t in s && Ahead(s + back, j, t)
    ensures Ahead(s, j, t)
  {
    var a, b :| 0 <= a < b < |s + back| && (s + back)[a] == j && (s + back)[b] == t;
    var c :| 0 <= c < |s| && s[c] == t;
    assert (s + back)[c] == t;
    assert s[a] == j;
  }

  lemma AheadAfterRemove(s: seq<Tid>, i: nat, j: Tid, t: Tid)
    requires i < |s| && NoDup(s) && Ahead(RemoveAt(s, i), j, t)
    ensures Ahead(s, j, t) && j != s[i]
  {
    RemoveAtKeepsNoDup(s, i);
    var r := RemoveAt(s, i);
    var a, b :| 0 <= a < b < |r| && r[a] == j && r[b] == t;
    assert s[if a < i then a else a + 1] == j && s[if b < i then b else b + 1] == t;
    assert j in r;
  }

  /** Ageing uses up exactly one turn of a pcb that then queues behind t. */
  lemma AgeingUsesATurn(p: int, ahead: bool, levels: int, j: Tid)
    requires InBand(p, levels, j) && (p <= STEP ==> ahead)
    ensures InBand(Aged(p, levels, j), levels, j)
    ensures TurnsLeft(Aged(p, levels, j), false, levels, j) == TurnsLeft(p, ahead, levels, j) - 1
  {
  }

  /** A chosen pcb at the bottom of the band stood ahead of t. */
  lemma BottomPickIsAhead(k: Kernel, t: Tid)
    requires AllInBand(k) && t in k.tasks.ready && t in k.tasks.status && k.tasks.ready != []
    requires var i := FirstMax(k.prio, k.tasks.ready);
             k.tasks.ready[i] != t && Field(k.prio, k.tasks.ready[i]) <= STEP
    ensures Ahead(k.tasks.ready, k.tasks.ready[FirstMax(k.prio, k.tasks.ready)], t)
  {
    var s := k.tasks.ready;
    var i := FirstMax(k.prio, s);
    var b :| 0 <= b < |s| && s[b] == t;
    assert STEP <= Field(k.prio, t);
    assert i < b;
  }

  lemma PickedIsNotAhead(k: Kernel, t: Tid, j: Tid)
    requires NoDup(k.tasks.ready) && k.tasks.current.None? && k.tasks.ready != []
    requires Ahead(Pick(k).tasks.ready, j, t)
    ensures Ahead(k.tasks.ready, j, t) && Pick(k).tasks.current != Some(j)
  {
    AheadAfterRemove(k.tasks.ready, FirstMax(k.prio, k.tasks.ready), j, t);
  }

  /** The pick lowers the chosen one's remaining turns by one and raises nobody's. */
  lemma PickUsesATurn(k: Kernel, t: Tid, j: Tid)
    requires Placed(k.tasks) && AllInBand(k) && k.tasks.current.None? && t in k.tasks.ready && j in k.tasks.status && j != t
    requires t in Pick(k).tasks.ready
    ensures Turns(Pick(k), j, t) <= Turns(k, j, t) - if Pick(k).tasks.current == Some(j) then 1 else 0
  {
    var k' := Pick(k);
    var c := k'.tasks.current.value;
    if Ahead(k'.tasks.ready, j, t) { PickedIsNotAhead(k, t, j); }
    if j == c {
      RemoveAtKeepsNoDup(k.tasks.ready, FirstMax(k.prio, k.tasks.ready));
      if Field(k.prio, c) <= STEP { BottomPickIsAhead(k, t); }
      AgeingUsesATurn(Field(k.prio, c), Ahead(k.tasks.ready, c, t), k.levels, c);
    } else {
      assert InBand(Field(k.prio, j), k.levels, j);
    }
  }

  lemma AppendingRaisesNothing(k: Kernel, k': Kernel, t: Tid, j: Tid)
    requires k.tasks.ready <= k'.tasks.ready && NoDup(k'.tasks.ready) && t in k.tasks.ready
    requires k'.prio == k.prio && k'.levels == k.levels && j < k.levels
    ensures Turns(k', j, t) <= Turns(k, j, t)
  {
    var back := k'.tasks.ready[|k.tasks.ready|..];
    assert k'.tasks.ready == k.tasks.ready + back;
    if Ahead(k'.tasks.ready, j, t) { AheadOnlyShrinks(k.tasks.ready, back, j, t); }
  }

  /** check_sleeping() only appends to the ready queue. */
  lemma CheckSleepingAppends(k: Kernel)
    requires Placed(k.tasks)
    ensures var k1 := CheckSleeping(k);
      && k.tasks.ready <= k1.tasks.ready && Placed(k1.tasks)
      && k1.prio == k.prio && k1.levels == k.levels && k1.tasks.current == k.tasks.current
      && k1.tasks.status.Keys == k.tasks.status.Keys
  {
    var w := CheckSleepingShape(k);
    CheckSleepingKeepsPlaced(k);
    CheckSleepingKeys(k);
  }

  lemma DispatchTurns(k: Kernel, t: Tid, j: Tid)
    requires Sane(k) && AllInBand(k) && k.tasks.current.None? && j in k.tasks.status && j != t
    requires t in k.tasks.ready && t in Step(k, Dispatch).tasks.ready
    ensures Turns(Step(k, Dispatch), j, t)
         <= Turns(k, j, t) - if Step(k, Dispatch).tasks.current == Some(j) then 1 else 0
  {
    CheckSleepingAppends(k);
    var k1 := CheckSleeping(k);
    assert t in k1.tasks.ready;
    AppendingRaisesNothing(k, k1, t, j);
    PickUsesATurn(k1, t, j);
  }

  lemma OtherStepTurns(k: Kernel, e: Event, t: Tid, j: Tid)
    requires Sane(k) && AllInBand(k) && Enabled(k, e) && !e.Dispatch? && j in k.tasks.status && t in k.tasks.ready
    ensures Turns(Step(k, e), j, t) <= Turns(k, j, t)
  {
    var k' := Step(k, e);
    assert NoDup(k'.tasks.ready) by { StepKeepsSane(k, e); }
    assert k.tasks.ready <= k'.tasks.ready && k'.prio == k.prio && k'.levels == k.levels;
    AppendingRaisesNothing(k, k', t, j);
  }

  lemma StepKeepsBand(k: Kernel, e: Event)
    requires Sane(k) && AllInBand(k) && Enabled(k, e)
    ensures AllInBand(Step(k, e))
  {
    StepKeepsSane(k, e);
    if e.Dispatch? {
      CheckSleepingAppends(k);
      var k1 := CheckSleeping(k);
      if k1.tasks.ready != [] {
        var c := k1.tasks.ready[FirstMax(k1.prio, k1.tasks.ready)];
        assert c in k1.tasks.ready && InBand(Field(k.prio, c), k.levels, c);
        AgeingUsesATurn(Field(k.prio, c), true, k.levels, c);
      }
    }
  }

  lemma {:induction false} EveryRunIsInBand(ks: seq<Kernel>, es: seq<Event>, n: nat, levels: int, queues: set<QueueId>, i: nat)
    requires IsRun(ks, es, n, levels, queues) && i < |ks| && n < levels
    ensures AllInBand(ks[i])
  {
    if i == 0 {
      BootHolds(n, queues);
    } else {
      EveryRunIsInBand(ks, es, n, levels, queues, i - 1);
      EveryRunIsSane(ks, es, n, levels, queues, i - 1);
      StepKeepsBand(ks[i - 1], es[i - 1]);
    }
  }

  lemma {:induction false} TotalTurnsStep(k: Kernel, k': Kernel, t: Tid, n: nat, c: Option<Tid>)
    requires forall j :: 1 <= j <= n && j != t ==> Turns(k', j, t) <= Turns(k, j, t) - if c == Some(j) then 1 else 0
    ensures TotalTurns(k', t, n)
         <= TotalTurns(k, t, n) - if c.Some? && 1 <= c.value <= n && c.value != t then 1 else 0
  {
    if n > 0 { TotalTurnsStep(k, k', t, n - 1, c); }
  }

  lemma {:induction false} TotalTurnsBound(k: Kernel, t: Tid, n: nat)
    requires forall j :: 1 <= j <= n ==> InBand(Field(k.prio, j), k.levels, j)
    ensures 0 <= TotalTurns(k, t, n) <= OthersTurns(k.levels, t, n)
  {
    if n > 0 { TotalTurnsBound(k, t, n - 1); }
  }

  /** How many times somebody was dispatched between ks[i] and ks[j]. */
  ghost function Dispatches(ks: seq<Kernel>, es: seq<Event>, i: nat, j: nat): nat
    requires i <= j <= |es| && |ks| == |es| + 1
  {
    if i == j then 0
    else Dispatches(ks, es, i, j - 1) + if es[j - 1].Dispatch? && ks[j].tasks.current.Some? then 1 else 0
  }

  /** Dispatches between i and j, when each of them uses up one of t's remaining turns. */
  lemma {:induction false} DispatchesUseTurns(ks: seq<Kernel>, es: seq<Event>, t: Tid, n: nat, i: nat, j: nat)
    requires i <= j <= |es| && |ks| == |es| + 1
    requires forall m :: i <= m < j ==> UsesATurn(ks, es, t, n, m)
    ensures Dispatches(ks, es, i, j) + TotalTurns(ks[j], t, n) <= TotalTurns(ks[i], t, n)
  {
    if i < j {
      DispatchesUseTurns(ks, es, t, n, i, j - 1);
      assert UsesATurn(ks, es, t, n, j - 1);
    }
  }

  ghost predicate UsesATurn(ks: seq<Kernel>, es: seq<Event>, t: Tid, n: nat, j: nat)
    requires j < |es| && |ks| == |es| + 1
  {
    TotalTurns(ks[j + 1], t, n)
      <= TotalTurns(ks[j], t, n) - if es[j].Dispatch? && ks[j + 1].tasks.current.Some? then 1 else 0
  }

  lemma RunStepTurns(ks: seq<Kernel>, es: seq<Event>, n: nat, levels: int, queues: set<QueueId>, t: Tid, j: nat)
    requires IsRun(ks, es, n, levels, queues) && n < levels && j < |es|
    requires t in ks[j].tasks.ready && t in ks[j + 1].tasks.ready
    ensures UsesATurn(ks, es, t, n, j)
  {
    EveryRunIsSane(ks, es, n, levels, queues, j);
    EveryRunIsInBand(ks, es, n, levels, queues, j);
    StepTotalTurns(ks[j], es[j], t, n);
  }

  lemma StepTotalTurns(k: Kernel, e: Event, t: Tid, n: nat)
    requires Sane(k) && AllInBand(k) && Enabled(k, e) && (forall x :: x in k.tasks.status <==> 1 <= x <= n)
    requires t in k.tasks.ready && t in Step(k, e).tasks.ready
    ensures TotalTurns(Step(k, e), t, n)
         <= TotalTurns(k, t, n) - if e.Dispatch? && Step(k, e).tasks.current.Some? then 1 else 0
  {
    var k' := Step(k, e);
    var c := if e.Dispatch? then k'.tasks.current else None;
    forall x | 1 <= x <= n && x != t ensures Turns(k', x, t) <= Turns(k, x, t) - if c == Some(x) then 1 else 0 {
      if e.Dispatch? { DispatchTurns(k, t, x); } else { OtherStepTurns(k, e, t, x); }
    }
    TotalTurnsStep(k, k', t, n, c);
    StepKeepsSane(k, e);
    if c.Some? { assert c.value in k'.tasks.status && c.value != t; }
  }

  /** Bounded waiting: while t stays on the ready queue, whatever the others do (yield, sleep, block, wake,
      exit), they are dispatched at most sum of (levels - j) times before it. */
  lemma BoundedWaiting(ks: seq<Kernel>, es: seq<Event>, n: nat, levels: int, queues: set<QueueId>, t: Tid, i: nat, j: nat)
    requires IsWait(ks, es, n, levels, queues, t, i, j) && n < levels
    ensures Dispatches(ks, es, i, j) <= OthersTurns(levels, t, n)
  {
    forall m | i <= m < j ensures UsesATurn(ks, es, t, n, m) { RunStepTurns(ks, es, n, levels, queues, t, m); }
    DispatchesUseTurns(ks, es, t, n, i, j);
    EveryRunIsSane(ks, es, n, levels, queues, i);
    EveryRunIsSane(ks, es, n, levels, queues, j);
    EveryRunIsInBand(ks, es, n, levels, queues, i);
    EveryRunIsInBand(ks, es, n, levels, queues, j);
    TotalTurnsBound(ks[i], t, n);
    TotalTurnsBound(ks[j], t, n);
  }

  // ---------- without a positive base there is no bound ----------

  ghost predicate Starving(k: Kernel, n: nat) {
    && Sane(k) && k.tasks.current.None? && k.tasks.sleepers == [] && 2 <= n && k.levels <= n
    && 1 in k.tasks.ready && n in k.tasks.ready
    && Field(k.prio, n) <= Base(k.levels, n) < Field(k.prio, 1)
  }

  /** The dispatch of a starving round: somebody other than n runs, and n is still outranked by thread 1. */
  lemma StarvingDispatch(k: Kernel, n: nat)
    requires Starving(k, n)
    ensures var k1 := Step(k, Dispatch);
      && k1 == Pick(k) && Sane(k1) && k1.tasks.current.Some? && k1.tasks.sleepers == []
      && n in k1.tasks.ready && (1 in k1.tasks.ready || k1.tasks.current == Some(1))
      && Field(k1.prio, n) <= Base(k1.levels, n) < Field(k1.prio, 1)
  {
    var i := FirstMax(k.prio, k.tasks.ready);
    RemoveAtKeepsNoDup(k.tasks.ready, i);
    var a :| 0 <= a < |k.tasks.ready| && k.tasks.ready[a] == 1;
    assert Field(k.prio, 1) <= Field(k.prio, k.tasks.ready[i]);
    assert CheckSleeping(k) == k;
    StepKeepsSane(k, Dispatch);
  }

  lemma StarvingRound(k: Kernel, n: nat)
    requires Starving(k, n)
    ensures var k1 := Step(k, Dispatch);
            k1.tasks.current.Some? && n in k1.tasks.ready && Starving(Step(k1, Yield), n)
  {
    StarvingDispatch(k, n);
    StepKeepsSane(Step(k, Dispatch), Yield);
  }

  /** As soon as levels <= n the last thread can wait through any number of dispatches: it has a base of 0 or
      less and thread 1 always outranks it. */
  lemma {:induction false} Starves(n: nat, levels: int, queues: set<QueueId>, rounds: nat)
    returns (ks: seq<Kernel>, es: seq<Event>)
    requires 2 <= n && levels <= n
    ensures IsRun(ks, es, n, levels, queues)
    ensures forall m :: 0 <= m < |ks| ==> n in ks[m].tasks.ready
    ensures Dispatches(ks, es, 0, |es|) == rounds
    ensures Starving(ks[|es|], n)
  {
    if rounds == 0 {
      ks, es := [Boot(n, levels, queues)], [];
      BootIsPlaced(n, queues);
      BootHolds(n, queues);
    } else {
      ks, es := Starves(n, levels, queues, rounds - 1);
      ks, es := StarvesOn(ks, es, n, levels, queues);
    }
  }

  lemma StarvesOn(ks0: seq<Kernel>, es0: seq<Event>, n: nat, levels: int, queues: set<QueueId>)
    returns (ks: seq<Kernel>, es: seq<Event>)
    requires IsRun(ks0, es0, n, levels, queues) && Starving(ks0[|es0|], n)
    requires forall m :: 0 <= m < |ks0| ==> n in ks0[m].tasks.ready
    ensures IsRun(ks, es, n, levels, queues) && Starving(ks[|es|], n)
    ensures forall m :: 0 <= m < |ks| ==> n in ks[m].tasks.ready
    ensures Dispatches(ks, es, 0, |es|) == Dispatches(ks0, es0, 0, |es0|) + 1
  {
    StarvingRound(ks0[|es0|], n);
    ks, es := Extend(ks0, es0, n, levels, queues, Dispatch);
    ks, es := Extend(ks, es, n, levels, queues, Yield);
  }

  /** One more step of a run. */
  lemma Extend(ks0: seq<Kernel>, es0: seq<Event>, n: nat, levels: int, queues: set<QueueId>, e: Event)
    returns (ks: seq<Kernel>, es: seq<Event>)
    requires IsRun(ks0, es0, n, levels, queues) && Enabled(ks0[|es0|], e)
    ensures IsRun(ks, es, n, levels, queues)
    ensures |es| == |es0| + 1 && ks == ks0 + [Step(ks0[|es0|], e)]
    ensures Dispatches(ks, es, 0, |es|)
         == Dispatches(ks0, es0, 0, |es0|) + if e.Dispatch? && ks[|es|].tasks.current.Some? then 1 else 0
  {
    var k := Step(ks0[|es0|], e);
    ks, es := ks0 + [k], es0 + [e];
    forall i | 0 <= i < |es| ensures Enabled(ks[i], es[i]) && ks[i + 1] == Step(ks[i], es[i]) {
      if i < |es0| { assert ks[i] == ks0[i] && ks[i + 1] == ks0[i + 1] && es[i] == es0[i]; }
    }
    DispatchesPrefix(ks0, es0, ks, es, |es0|);
  }

  lemma {:induction false} DispatchesPrefix(ks0: seq<Kernel>, es0: seq<Event>, ks: seq<Kernel>, es: seq<Event>, j: nat)
    requires |ks0| == |es0| + 1 && |ks| == |es| + 1 && ks0 <= ks && es0 <= es && j <= |es0|
    ensures Dispatches(ks, es, 0, j) == Dispatches(ks0, es0, 0, j)
  {
    if j > 0 { DispatchesPrefix(ks0, es0, ks, es, j - 1); }
  }

  /** A stretch of a run during which t stays ready. */
  ghost predicate IsWait(ks: seq<Kernel>, es: seq<Event>, n: nat, levels: int, queues: set<QueueId>, t: Tid, i: nat, j: nat) {
    && IsRun(ks, es, n, levels, queues) && i <= j <= |es|
    && forall m :: i <= m <= j ==> t in ks[m].tasks.ready
  }

  /** No run of n threads lets a ready thread wait for more than `bound` dispatches. */
  ghost predicate WaitsAtMost(n: nat, levels: int, queues: set<QueueId>, bound: nat) {
    forall ks, es, t, i, j :: IsWait(ks, es, n, levels, queues, t, i, j) ==> Dispatches(ks, es, i, j) <= bound
  }

  lemma {:induction false} OthersTurnsGrow(levels: int, t: Tid, n: nat)
    requires n < levels
    ensures 0 <= OthersTurns(levels, t, n) <= OthersTurns(levels, 0, n)
  {
    if n > 0 { OthersTurnsGrow(levels, t, n - 1); }
  }

  /** Waiting is bounded exactly when every thread's base priority is positive. */
  lemma BoundedExactlyWithPositiveBases(n: nat, levels: int, queues: set<QueueId>)
    requires 2 <= n
    ensures (exists bound :: WaitsAtMost(n, levels, queues, bound)) <==> 0 < Base(levels, n)
  {
    if n < levels {
      OthersTurnsGrow(levels, 0, n);
      var bound: nat := OthersTurns(levels, 0, n);
      forall ks, es, t, i, j | IsWait(ks, es, n, levels, queues, t, i, j)
        ensures Dispatches(ks, es, i, j) <= bound
      {
        BoundedWaiting(ks, es, n, levels, queues, t, i, j);
        OthersTurnsGrow(levels, t, n);
      }
      assert WaitsAtMost(n, levels, queues, bound);
    } else {
      forall bound: nat ensures !WaitsAtMost(n, levels, queues, bound) {
        var ks, es := Starves(n, levels, queues, bound + 1);
        assert IsWait(ks, es, n, levels, queues, n, 0, |es|);
        assert Dispatches(ks, es, 0, |es|) > bound;
      }
    }
  }

  // ---------- scheduler() with its idle loop ----------

  /** scheduler() watched for at most `window` clock ticks of its idle loop. */
  function Schedule(k: Kernel, window: nat): Kernel
    requires k.tasks.current.None?
    decreases window
  {
    var k1 := Step(k, Dispatch);
    if k1.tasks.current.Some? || window == 0 then k1 else Schedule(Step(k1, Tick), window - 1)
  }

  /** One look of scheduler() at its queues while nobody is ready: it finds the first sleeper due, or goes on idling. */
  lemma IdleLook(k: Kernel)
    requires k.tasks.current.None? && k.tasks.ready == [] && k.tasks.sleepers != [] && k.time * 1000 < U64
    ensures if Field(k.deadline, k.tasks.sleepers[0]) <= k.time * 1000 then Step(k, Dispatch).tasks.current.Some?
            else Step(k, Dispatch) == k
  {
    assert Now(k) == k.time * 1000;
    var w := CheckSleepingShape(k);
    CheckSleepingKeepsCurrent(k);
    if w > 0 { assert CheckSleeping(k).tasks.ready[0] == k.tasks.sleepers[0]; }
  }

  /** With nobody ready, the idle loop ends exactly when the clock reaches the earliest deadline. */
  lemma {:induction false} IdleUntilEarliestDeadline(k: Kernel, window: nat)
    requires k.tasks.current.None? && k.tasks.ready == [] && k.tasks.sleepers != [] && SortedBy(k.deadline, k.tasks.sleepers)
    requires (k.time + window) * 1000 < U64
    ensures Schedule(k, window).tasks.current.Some? <==> Field(k.deadline, k.tasks.sleepers[0]) <= (k.time + window) * 1000
    decreases window
  {
    IdleLook(k);
    if k.time * 1000 < Field(k.deadline, k.tasks.sleepers[0]) && window > 0 {
      IdleUntilEarliestDeadline(Step(k, Tick), window - 1);
    }
  }
}
