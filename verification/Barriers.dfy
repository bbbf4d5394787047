/** A barrier used by exactly `total` threads, over any number of rounds, and the client barrier_thread() of
    barrier_test.c. A released thread returns from barrier_wait() in a step of its own, so a fast thread can come
    round to the barrier again before a slow one has left it. */
module Barriers {
  import opened Seqs
  import opened Placement
  import opened Primitives
  import RR = RoundRobin

  // ---------- the barrier ----------

  /** calls[i] and returned[i] count thread i's barrier_wait() calls and returns; rounds counts the releases. */
  datatype Meeting = Meeting(barrier: Barrier, calls: seq<nat>, returned: seq<nat>, rounds: nat)

  predicate CanCall(m: Meeting, t: Tid) {
    t < |m.calls| == |m.returned| && m.returned[t] == m.calls[t]
  }

  predicate CanReturn(m: Meeting, t: Tid) {
    t < |m.calls| == |m.returned| && m.returned[t] < m.calls[t] && t !in m.barrier.queue
  }

  /** barrier_wait() up to the point where t blocks or returns. */
  function CallWait(m: Meeting, t: Tid): Meeting
    requires CanCall(m, t)
  {
    var (b, blocked) := Arrive(m.barrier, t);
    Meeting(b, m.calls[t := m.calls[t] + 1], if blocked then m.returned else m.returned[t := m.returned[t] + 1],
            if blocked then m.rounds else m.rounds + 1)
  }

  function Return(m: Meeting, t: Tid): Meeting
    requires CanReturn(m, t)
  {
    m.(returned := m.returned[t := m.returned[t] + 1])
  }

  ghost predicate MeetingOk(m: Meeting, n: nat) {
    && 1 <= n && |m.calls| == n && |m.returned| == n && m.barrier.total == n
    && NoDup(m.barrier.queue) && m.barrier.count == |m.barrier.queue| < n
    && (forall t :: t in m.barrier.queue ==> t < n)
    && (forall t: nat :: t < n ==> m.calls[t] == m.rounds + if t in m.barrier.queue then 1 else 0)
    && (forall t: nat :: t < n ==> m.returned[t] <= m.calls[t] <= m.returned[t] + 1)
    && (forall t :: t in m.barrier.queue ==> m.returned[t] == m.rounds)
  }

  lemma {:induction false} RangeCard(s: set<nat>, n: nat)
    requires forall x: nat :: x in s ==> x < n
    ensures |s| <= n
    ensures |s| == n ==> forall x: nat :: x < n ==> x in s
  {
    if n > 0 {
      var s' := s - {n - 1};
      RangeCard(s', n - 1);
      if n - 1 in s { assert s == s' + {n - 1}; } else { assert s == s'; }
      assert forall x: nat :: x in s' ==> x in s;
    } else {
      assert s == {};
    }
  }

  /** When all but one are in the queue, everybody but that one is. */
  lemma AllOthersWait(q: seq<Tid>, t: Tid, n: nat)
    requires NoDup(q) && (forall x: nat :: x in q ==> x < n) && t < n && t !in q && |q| + 1 >= n
    ensures forall x: nat :: x < n && x != t ==> x in q
  {
    NoDupCard(q);
    var s := Elements(q) + {t};
    assert |s| == |q| + 1;
    RangeCard(s, n);
    forall x: nat | x < n && x != t ensures x in q { assert x in s; }
  }

  lemma CallWaitKeeps(m: Meeting, t: Tid, n: nat)
    requires MeetingOk(m, n) && CanCall(m, t)
    ensures MeetingOk(CallWait(m, t), n) && t !in m.barrier.queue
    ensures m.barrier.count + 1 >= n ==> forall x: nat :: x < n && x != t ==> x in m.barrier.queue
  {
    assert t !in m.barrier.queue;
    if m.barrier.count + 1 >= n {
      AllOthersWait(m.barrier.queue, t, n);
    } else {
      Appended(m.barrier.queue, t);
    }
  }

  // ---------- any use of it by n threads ----------

  datatype Move = CallMove(t: Tid) | ReturnMove(t: Tid)

  predicate CanMake(m: Meeting, e: Move) {
    match e
    case CallMove(t) => CanCall(m, t)
    case ReturnMove(t) => CanReturn(m, t)
  }

  function Make(m: Meeting, e: Move): Meeting
    requires CanMake(m, e)
  {
    match e
    case CallMove(t) => CallWait(m, t)
    case ReturnMove(t) => Return(m, t)
  }

  function Opened(n: nat): Meeting { Meeting(Barrier(n, 0, []), seq(n, _ => 0), seq(n, _ => 0), 0) }

  /** Calls and returns of n threads in any order, from barrier_init() on. */
  ghost predicate IsUse(ms: seq<Meeting>, es: seq<Move>, n: nat) {
    && |ms| == |es| + 1 && ms[0] == Opened(n)
    && forall i :: 0 <= i < |es| ==> CanMake(ms[i], es[i]) && ms[i + 1] == Make(ms[i], es[i])
  }

  lemma {:induction false} EveryUseIsOk(ms: seq<Meeting>, es: seq<Move>, n: nat, i: nat)
    requires 1 <= n && IsUse(ms, es, n) && i < |ms|
    ensures MeetingOk(ms[i], n)
  {
    if i > 0 {
      EveryUseIsOk(ms, es, n, i - 1);
      var m, e := ms[i - 1], es[i - 1];
      if e.CallMove? { CallWaitKeeps(m, e.t, n); }
    }
  }

  /** Whatever the threads do between their calls, nobody returns from its k-th call before everybody has made k
      calls, and all are within one call of each other: rounds never mix. */
  lemma NobodyReturnsEarly(ms: seq<Meeting>, es: seq<Move>, n: nat, i: nat, t: nat, u: nat)
    requires 1 <= n && IsUse(ms, es, n) && i < |ms| && t < n && u < n
    ensures |ms[i].calls| == |ms[i].returned| == n
    ensures ms[i].returned[t] <= ms[i].calls[u]
    ensures ms[i].calls[t] <= ms[i].calls[u] + 1
  {
    EveryUseIsOk(ms, es, n, i);
  }

  /** In the kernel, with t at the processor and the barrier's waiters on queue b: when t is the last to arrive, everybody
      else may return from its call, and is READY on the ready queue. */
  lemma ReleasedAreReady(k: RR.Kernel, b: QueueId, m: Meeting, t: Tid, u: Tid, n: nat)
    requires MeetingOk(m, n) && CanCall(m, t) && m.barrier.count + 1 >= n && u < n && u != t
    requires b in k.tasks.waits && k.tasks.waits[b] == m.barrier.queue && k.tasks.current == Some(t)
    ensures CanReturn(CallWait(m, t), u)
    ensures var s' := RR.UnblockAll(k, b).tasks;
            && u in s'.ready && u in s'.status && s'.status[u] == Ready
            && b in s'.waits && s'.waits[b] == CallWait(m, t).barrier.queue
  {
    CallWaitKeeps(m, t, n);
    RR.UnblockAllWakesEach(k, b);
  }

  /** Somebody is always outside the queue. */
  lemma NotAllWait(m: Meeting, n: nat) returns (t: nat)
    requires MeetingOk(m, n)
    ensures t < n && t !in m.barrier.queue
  {
    NoDupCard(m.barrier.queue);
    var s := Elements(m.barrier.queue);
    if forall x: nat :: x < n ==> x in s { SetOfAll(s, n); }
    t :| t < n && t !in s;
  }

  lemma {:induction false} SetOfAll(s: set<nat>, n: nat)
    requires forall x: nat :: x < n ==> x in s
    ensures n <= |s|
  {
    if n > 0 {
      SetOfAll(s - {n - 1}, n - 1);
      assert |s| == |s - {n - 1}| + 1;
    }
  }

  // ---------- barrier_thread() ----------

  datatype Pc =
    | NotStarted // before the barrier_initialized handshake
    | Bump       // about to run ++value[id], or to leave the loop
    | Wait1      // about to call the first barrier_wait()
    | InWait1    // blocked in it, or released and not yet returned
    | Check      // about to run the assertions and call the second barrier_wait()
    | InWait2
    | Passed     // after the final assertion

  datatype Client = Client(m: Meeting, value: seq<nat>, done: seq<nat>, pc: seq<Pc>, initialized: bool, iterations: nat)

  predicate Shaped(c: Client, n: nat) {
    |c.m.calls| == n && |c.m.returned| == n && |c.value| == n && |c.done| == n && |c.pc| == n
  }

  function Init(n: nat, iterations: nat): Client {
    var zeros := seq(n, _ => 0);
    Client(Meeting(Barrier(0, 0, []), zeros, zeros, 0), zeros, zeros, seq(n, _ => NotStarted), false, iterations)
  }

  predicate CanMove(c: Client, t: Tid) {
    && Shaped(c, |c.pc|) && t < |c.pc|
    && match c.pc[t]
       case NotStarted => t == 0 || c.initialized
       case InWait1 => CanReturn(c.m, t)
       case InWait2 => CanReturn(c.m, t)
       case Passed => false
       case Bump => true
       case _ => CanCall(c.m, t)
  }

  function Step(c: Client, t: Tid): Client
    requires CanMove(c, t)
  {
    match c.pc[t]
    case NotStarted =>
      var m := if t == 0 then c.m.(barrier := Barrier(|c.pc|, 0, [])) else c.m;
      c.(m := m, initialized := true, pc := c.pc[t := Bump])
    case Bump =>
      if c.done[t] < c.iterations then c.(value := c.value[t := c.value[t] + 1], pc := c.pc[t := Wait1])
      else c.(pc := c.pc[t := Passed])
    case Wait1 =>
      var m := CallWait(c.m, t);
      c.(m := m, pc := c.pc[t := if m.returned[t] == m.calls[t] then Check else InWait1])
    case InWait1 => c.(m := Return(c.m, t), pc := c.pc[t := Check])
    case Check =>
      var m := CallWait(c.m, t);
      if m.returned[t] == m.calls[t] then c.(m := m, done := c.done[t := c.done[t] + 1], pc := c.pc[t := Bump])
      else c.(m := m, pc := c.pc[t := InWait2])
    case InWait2 => c.(m := Return(c.m, t), done := c.done[t := c.done[t] + 1], pc := c.pc[t := Bump])
    case Passed => c
  }

  ghost predicate IsRun(cs: seq<Client>, ts: seq<Tid>, n: nat, iterations: nat) {
    && |cs| == |ts| + 1 && cs[0] == Init(n, iterations)
    && forall i :: 0 <= i < |ts| ==> CanMove(cs[i], ts[i]) && cs[i + 1] == Step(cs[i], ts[i])
  }

  /** Where a thread stands in its loop, in terms of its counters. */
  predicate CountersAgree(pc: Pc, calls: nat, returned: nat, value: nat, done: nat, iterations: nat) {
    && done <= iterations
    && match pc
       case NotStarted => calls == 0 && returned == 0 && value == 0 && done == 0
       case Bump => calls == returned == 2 * done && value == done
       case Wait1 => calls == returned == 2 * done && value == done + 1 && done < iterations
       case InWait1 => calls == returned + 1 == 2 * done + 1 && value == done + 1 && done < iterations
       case Check => calls == returned == 2 * done + 1 && value == done + 1 && done < iterations
       case InWait2 => calls == returned + 1 == 2 * done + 2 && value == done + 1 && done < iterations
       case Passed => calls == returned == 2 * done && value == done == iterations
  }

  ghost predicate Inv(c: Client, n: nat) {
    && 1 <= n && Shaped(c, n)
    && (forall t: nat :: t < n ==>
          CountersAgree(c.pc[t], c.m.calls[t], c.m.returned[t], c.value[t], c.done[t], c.iterations))
    && (c.initialized ==> c.pc[0] != NotStarted && MeetingOk(c.m, n))
    && (!c.initialized ==> c.m.rounds == 0 && forall t: nat :: t < n ==> c.pc[t] == NotStarted)
  }

  lemma StepKeeps(c: Client, t: Tid, n: nat)
    requires Inv(c, n) && CanMove(c, t)
    ensures Inv(Step(c, t), n)
  {
    if c.pc[t] == Wait1 || c.pc[t] == Check { CallKeeps(c, t, n); } else { OtherStepKeeps(c, t, n); }
  }

  lemma CallKeeps(c: Client, t: Tid, n: nat)
    requires Inv(c, n) && CanMove(c, t) && (c.pc[t] == Wait1 || c.pc[t] == Check)
    ensures Inv(Step(c, t), n)
  {
    CallWaitKeeps(c.m, t, n);
  }

  lemma OtherStepKeeps(c: Client, t: Tid, n: nat)
    requires Inv(c, n) && CanMove(c, t) && c.pc[t] != Wait1 && c.pc[t] != Check
    ensures Inv(Step(c, t), n)
  {
  }

  lemma {:induction false} EveryRunKeeps(cs: seq<Client>, ts: seq<Tid>, n: nat, iterations: nat, i: nat)
    requires 1 <= n && IsRun(cs, ts, n, iterations) && i < |cs|
    ensures Inv(cs[i], n) && cs[i].iterations == iterations
  {
    if i > 0 {
      EveryRunKeeps(cs, ts, n, iterations, i - 1);
      StepKeeps(cs[i - 1], ts[i - 1], n);
    }
  }

  /** Whenever a thread runs the client's assertions, every value[j] equals its own value. */
  lemma ValuesAreEqual(cs: seq<Client>, ts: seq<Tid>, n: nat, iterations: nat, i: nat, id: nat, j: nat)
    requires 1 <= n && IsRun(cs, ts, n, iterations) && i < |cs| && id < n && j < n
    requires Shaped(cs[i], n) && cs[i].pc[id] == Check
    ensures cs[i].value[j] == cs[i].value[id]
  {
    EveryRunKeeps(cs, ts, n, iterations, i);
    var c := cs[i];
    assert CountersAgree(c.pc[id], c.m.calls[id], c.m.returned[id], c.value[id], c.done[id], c.iterations);
    assert CountersAgree(c.pc[j], c.m.calls[j], c.m.returned[j], c.value[j], c.done[j], c.iterations);
  }

  /** The final assertion: a thread that passes has value == NUM_ITERATIONS. */
  lemma PassedWithAllIterations(cs: seq<Client>, ts: seq<Tid>, n: nat, iterations: nat, i: nat, id: nat)
    requires 1 <= n && IsRun(cs, ts, n, iterations) && i < |cs| && id < n
    requires Shaped(cs[i], n) && cs[i].pc[id] == Passed
    ensures cs[i].value[id] == iterations
  {
    EveryRunKeeps(cs, ts, n, iterations, i);
  }

  /** Until all have passed, somebody can move: the threads never all wait for each other. */
  lemma NeverStuck(cs: seq<Client>, ts: seq<Tid>, n: nat, iterations: nat, i: nat)
    requires 1 <= n && IsRun(cs, ts, n, iterations) && i < |cs|
    requires exists id: nat :: id < |cs[i].pc| && cs[i].pc[id] != Passed
    ensures exists t :: CanMove(cs[i], t)
  {
    EveryRunKeeps(cs, ts, n, iterations, i);
    var c := cs[i];
    var id: nat :| id < |c.pc| && c.pc[id] != Passed;
    if !c.initialized {
      assert CanMove(c, 0);
    } else if id !in c.m.barrier.queue {
      assert CanMove(c, id);
    } else {
      var t := NotAllWait(c.m, n);
      assert CountersAgree(c.pc[id], c.m.calls[id], c.m.returned[id], c.value[id], c.done[id], c.iterations);
      assert CountersAgree(c.pc[t], c.m.calls[t], c.m.returned[t], c.value[t], c.done[t], c.iterations);
      assert CanMove(c, t);
    }
  }

  // ---------- every run ends ----------

  /** A bound on the steps a thread has still to take. */
  function Remaining(pc: Pc, done: nat, iterations: nat): int {
    5 * (iterations - done) +
    match pc
    case NotStarted => 2
    case Bump => 1
    case Wait1 => 0
    case InWait1 => -1
    case Check => -2
    case InWait2 => -3
    case Passed => 0
  }

  function Costs(c: Client): seq<int>
    requires Shaped(c, |c.pc|)
  {
    seq(|c.pc|, i requires 0 <= i < |c.pc| => Remaining(c.pc[i], c.done[i], c.iterations))
  }

  /** Each step takes its thread nearer to the end and leaves the others where they are. */
  lemma StepLowersCost(c: Client, t: Tid, n: nat)
    requires Inv(c, n) && CanMove(c, t)
    ensures Shaped(Step(c, t), n) && Costs(Step(c, t))[t] < Costs(c)[t]
    ensures Costs(Step(c, t)) == Costs(c)[t := Costs(Step(c, t))[t]]
  {
    assert CountersAgree(c.pc[t], c.m.calls[t], c.m.returned[t], c.value[t], c.done[t], c.iterations);
  }

  lemma CostsInRange(c: Client, n: nat)
    requires Inv(c, n)
    ensures forall i :: 0 <= i < n ==> 0 <= Costs(c)[i] <= 5 * c.iterations + 2
  {
    forall i: nat | i < n ensures 0 <= Costs(c)[i] <= 5 * c.iterations + 2 {
      assert CountersAgree(c.pc[i], c.m.calls[i], c.m.returned[i], c.value[i], c.done[i], c.iterations);
    }
  }

  lemma {:induction false} CostsSink(cs: seq<Client>, ts: seq<Tid>, n: nat, iterations: nat, i: nat)
    requires 1 <= n && IsRun(cs, ts, n, iterations) && i < |cs|
    ensures Inv(cs[i], n) && cs[i].iterations == iterations
    ensures Sum(Costs(cs[i])) + i <= n * (5 * iterations + 2)
  {
    EveryRunKeeps(cs, ts, n, iterations, i);
    CostsInRange(cs[i], n);
    if i == 0 {
      SumBetween(Costs(cs[0]), 0, 5 * iterations + 2);
    } else {
      CostsSink(cs, ts, n, iterations, i - 1);
      var c, t := cs[i - 1], ts[i - 1];
      StepLowersCost(c, t, n);
      SumUpdate(Costs(c), t, Costs(cs[i])[t]);
    }
  }

  /** No run goes on for ever, and one that cannot go on has let every thread pass, with all its iterations done. */
  lemma EveryRunEnds(cs: seq<Client>, ts: seq<Tid>, n: nat, iterations: nat)
    requires 1 <= n && IsRun(cs, ts, n, iterations)
    ensures |ts| <= n * (5 * iterations + 2)
    ensures var c := cs[|ts|];
      (forall t :: !CanMove(c, t)) ==> Shaped(c, n) && forall id: nat :: id < n ==> c.pc[id] == Passed && c.value[id] == iterations
  {
    CostsSink(cs, ts, n, iterations, |ts|);
    var c := cs[|ts|];
    CostsInRange(c, n);
    SumBetween(Costs(c), 0, 5 * iterations + 2);
    if forall t :: !CanMove(c, t) {
      if id: nat :| id < n && c.pc[id] != Passed { NeverStuck(cs, ts, n, iterations, |ts|); }
      forall id: nat | id < n ensures c.value[id] == iterations { PassedWithAllIterations(cs, ts, n, iterations, |ts|, id); }
    }
  }
}
