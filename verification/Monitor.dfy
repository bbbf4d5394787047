/** The producer-consumer monitor of th2.c: thread2 (number 0) waits until shared_var % 3 != 0, thread3 (number 1)
    until shared_var % 3 == 0, and each adds one. thread2 does 2*m rounds and thread3 m (200 and 100 in the source).
    Any thread that is not blocked may take the next step, also between any two statements inside the monitor. */
module Monitor {
  import opened Seqs
  import opened Placement
  import opened Primitives

  datatype Pc =
    | NotStarted  // before the init handshake
    | Enter       // about to call lock_acquire()
    | LockBlocked // on the lock's wait queue, from lock_acquire() or from the end of condition_wait()
    | Test        // inside, about to test the while condition
    | CondBlocked // on its condition's queue
    | CondWoken   // signalled, about to re-acquire the lock
    | Read        // about to run tmp = shared_var
    | Write       // about to run shared_var = tmp + 1
    | Notify      // about to signal or broadcast
    | Leave       // about to release the lock and go round
    | FinalIn     // loop over and inside, about to count itself out
    | FinalOut    // about to release the lock for the last time
    | Gone

  datatype Thread = Thread(pc: Pc, i: nat, tmp: int)

  /** conds[k] is the condition that thread k waits on; verdicts records every "both finished" report. */
  datatype State = State(shared: int, exitCount: nat, initialized: bool, lock: Lock, conds: seq<seq<Tid>>,
                         th: seq<Thread>, verdicts: seq<bool>)

  predicate Shaped(s: State) { |s.th| == 2 && |s.conds| == 2 }

  function Rounds(k: nat, m: nat): nat { if k == 0 then 2 * m else m }

  /** shared_var is what thread k waits for. */
  predicate MayUse(k: nat, shared: int) {
    if k == 0 then shared % 3 != 0 else shared % 3 == 0
  }

  predicate InMonitor(pc: Pc) { pc in {Test, Read, Write, Notify, Leave, FinalIn, FinalOut} }

  predicate CanMove(s: State, k: nat) {
    && Shaped(s) && k < 2
    && s.th[k].pc !in {LockBlocked, CondBlocked, Gone}
    && (s.th[k].pc == NotStarted ==> k == 0 || s.initialized)
  }

  /** Where a thread goes on once it has the lock. */
  function Entered(t: Thread, k: nat, m: nat): Pc {
    if t.i < Rounds(k, m) then Test else FinalIn
  }

  function SetPc(s: State, k: nat, pc: Pc): State
    requires Shaped(s) && k < 2
  {
    s.(th := s.th[k := s.th[k].(pc := pc)])
  }

  function Lock2(s: State, k: nat, m: nat): State
    requires Shaped(s) && k < 2
  {
    var (lock, blocked) := Acquire(s.lock, k);
    SetPc(s.(lock := lock), k, if blocked then LockBlocked else Entered(s.th[k], k, m))
  }

  function Unlock2(s: State, m: nat): State
    requires Shaped(s)
  {
    var (lock, woken) := Release(s.lock);
    var s1 := s.(lock := lock);
    if woken.Some? && woken.value < 2 then SetPc(s1, woken.value, Entered(s.th[woken.value], woken.value, m)) else s1
  }

  /** condition_signal() or condition_broadcast() on the other thread's condition. */
  function Wake(s: State, other: nat): State
    requires Shaped(s) && other < 2
  {
    var q := s.conds[other];
    var s1 := s.(conds := s.conds[other := if s.shared < 20 && q != [] then q[1..] else []]);
    if q != [] then SetPc(s1, other, CondWoken) else s1
  }

  function Step(s: State, k: nat, m: nat): State
    requires CanMove(s, k)
  {
    var t := s.th[k];
    match t.pc
    case NotStarted => SetPc(if k == 0 then s.(initialized := true, lock := Lock(false, []), conds := [[], []]) else s, k, Enter)
    case Enter => Lock2(s, k, m)
    case CondWoken => Lock2(s, k, m)
    case Test =>
      if MayUse(k, s.shared) then SetPc(s, k, Read)
      else Unlock2(SetPc(s.(conds := s.conds[k := s.conds[k] + [k]]), k, CondBlocked), m)
    case Read => s.(th := s.th[k := t.(pc := Write, tmp := s.shared)])
    case Write => SetPc(s.(shared := t.tmp + 1), k, Notify)
    case Notify => SetPc(if MayUse(1 - k, s.shared) then Wake(s, 1 - k) else s, k, Leave)
    case Leave => Unlock2(s.(th := s.th[k := t.(pc := Enter, i := t.i + 1)]), m)
    case FinalIn =>
      var s1 := SetPc(s.(exitCount := s.exitCount + 1), k, FinalOut);
      if s1.exitCount == 2 then s1.(verdicts := s1.verdicts + [s1.shared == 3 * m]) else s1
    case FinalOut => Unlock2(SetPc(s, k, Gone), m)
    case _ => s
  }

  function Init(): State {
    State(0, 0, false, Lock(false, []), [[], []], [Thread(NotStarted, 0, 0), Thread(NotStarted, 0, 0)], [])
  }

  ghost predicate IsRun(ss: seq<State>, ks: seq<nat>, m: nat) {
    && |ss| == |ks| + 1 && ss[0] == Init()
    && forall i :: 0 <= i < |ks| ==> CanMove(ss[i], ks[i]) && ss[i + 1] == Step(ss[i], ks[i], m)
  }

  // ---------- the invariant ----------

  /** How many times thread k has written shared_var. */
  function Writes(t: Thread): nat { t.i + if t.pc in {Notify, Leave} then 1 else 0 }

  predicate ThreadOk(s: State, k: nat, m: nat)
    requires Shaped(s) && k < 2
  {
    var t := s.th[k];
    && t.i <= Rounds(k, m)
    && (t.pc in {Test, CondBlocked, CondWoken, Read, Write, Notify, Leave} ==> t.i < Rounds(k, m))
    && (t.pc in {FinalIn, FinalOut, Gone} ==> t.i == Rounds(k, m))
    && (t.pc in {Read, Write} ==> MayUse(k, s.shared))
    && (t.pc == Write ==> t.tmp == s.shared)
    && (t.pc == CondBlocked ==> !MayUse(k, s.shared) || s.th[1 - k].pc == Notify)
    && (t.pc == LockBlocked ==> InMonitor(s.th[1 - k].pc))
    && (t.pc == NotStarted ==> t.i == 0 && (k == 0 ==> !s.initialized))
    && s.conds[k] == (if t.pc == CondBlocked then [k] else [])
  }

  predicate LockOk(s: State)
    requires Shaped(s)
  {
    && !(InMonitor(s.th[0].pc) && InMonitor(s.th[1].pc))
    && (s.lock.locked <==> InMonitor(s.th[0].pc) || InMonitor(s.th[1].pc))
    && s.lock.queue == (if s.th[0].pc == LockBlocked then [0] else if s.th[1].pc == LockBlocked then [1] else [])
  }

  function Out(t: Thread): nat { if t.pc in {FinalOut, Gone} then 1 else 0 }

  /** The arithmetic: of the first shared_var increments, the 1st, 4th, 7th, ... are thread3's. */
  predicate SharedOk(s: State, m: nat)
    requires Shaped(s)
  {
    && 0 <= s.shared
    && Writes(s.th[1]) == (s.shared + 2) / 3
    && Writes(s.th[0]) == s.shared - (s.shared + 2) / 3
    && s.exitCount == Out(s.th[0]) + Out(s.th[1])
    && (forall v :: v in s.verdicts ==> v) && |s.verdicts| == (if s.exitCount == 2 then 1 else 0)
  }

  predicate Inv(s: State, m: nat) {
    && Shaped(s) && ThreadOk(s, 0, m) && ThreadOk(s, 1, m) && LockOk(s) && SharedOk(s, m)
    && (!s.initialized ==> s.th[0].pc == NotStarted && s.th[1].pc == NotStarted && s.lock == Lock(false, []))
  }

  /** When both loops are over every increment has been made. */
  lemma BothDone(s: State, m: nat)
    requires Inv(s, m) && s.th[0].i == 2 * m && s.th[1].i == m
    requires s.th[0].pc !in {Notify, Leave} && s.th[1].pc !in {Notify, Leave}
    ensures s.shared == 3 * m
  {
  }

  lemma EnterKeeps(s: State, k: nat, m: nat)
    requires Inv(s, m) && CanMove(s, k) && s.th[k].pc in {NotStarted, Enter, CondWoken}
    ensures Inv(Step(s, k, m), m)
  {
  }

  /** Releasing hands the lock to the other thread if that one waits for it. */
  lemma UnlockIs(s: State, k: nat, m: nat)
    requires Shaped(s) && k < 2 && s.lock.locked
    requires s.lock.queue == if s.th[1 - k].pc == LockBlocked then [1 - k] else []
    ensures Unlock2(s, m) == if s.th[1 - k].pc == LockBlocked
                             then SetPc(s.(lock := Lock(true, [])), 1 - k, Entered(s.th[1 - k], 1 - k, m))
                             else s.(lock := Lock(false, []))
  {
  }

  lemma WaitKeeps(s: State, k: nat, m: nat)
    requires Inv(s, m) && CanMove(s, k) && s.th[k].pc == Test && !MayUse(k, s.shared)
    ensures Inv(Step(s, k, m), m)
  {
    UnlockIs(SetPc(s.(conds := s.conds[k := s.conds[k] + [k]]), k, CondBlocked), k, m);
  }

  lemma TestKeeps(s: State, k: nat, m: nat)
    requires Inv(s, m) && CanMove(s, k) && s.th[k].pc in {Test}
    ensures Inv(Step(s, k, m), m)
  {
    if !MayUse(k, s.shared) { WaitKeeps(s, k, m); }
  }

  lemma UseKeeps(s: State, k: nat, m: nat)
    requires Inv(s, m) && CanMove(s, k) && s.th[k].pc in {Read, Write}
    ensures Inv(Step(s, k, m), m)
  {
  }

  lemma NotifyKeeps(s: State, k: nat, m: nat)
    requires Inv(s, m) && CanMove(s, k) && s.th[k].pc in {Notify}
    ensures Inv(Step(s, k, m), m)
  {
  }

  lemma LeaveKeeps(s: State, k: nat, m: nat)
    requires Inv(s, m) && CanMove(s, k) && s.th[k].pc == Leave
    ensures Inv(Step(s, k, m), m)
  {
    if s.th[1 - k].pc == LockBlocked { LeaveHandsOver(s, k, m); } else { LeaveFrees(s, k, m); }
  }

  lemma LeaveHandsOver(s: State, k: nat, m: nat)
    requires Inv(s, m) && CanMove(s, k) && s.th[k].pc == Leave && s.th[1 - k].pc == LockBlocked
    ensures Inv(Step(s, k, m), m)
  {
    UnlockIs(s.(th := s.th[k := s.th[k].(pc := Enter, i := s.th[k].i + 1)]), k, m);
  }

  lemma LeaveFrees(s: State, k: nat, m: nat)
    requires Inv(s, m) && CanMove(s, k) && s.th[k].pc == Leave && s.th[1 - k].pc != LockBlocked
    ensures Inv(Step(s, k, m), m)
  {
    UnlockIs(s.(th := s.th[k := s.th[k].(pc := Enter, i := s.th[k].i + 1)]), k, m);
  }

  lemma FinalOutKeeps(s: State, k: nat, m: nat)
    requires Inv(s, m) && CanMove(s, k) && s.th[k].pc == FinalOut
    ensures Inv(Step(s, k, m), m)
  {
    UnlockIs(SetPc(s, k, Gone), k, m);
  }

  lemma FinalKeeps(s: State, k: nat, m: nat)
    requires Inv(s, m) && CanMove(s, k) && s.th[k].pc in {FinalIn}
    ensures Inv(Step(s, k, m), m)
  {
    if s.exitCount == 1 { BothDone(s, m); }
  }

  lemma StepKeeps(s: State, k: nat, m: nat)
    requires Inv(s, m) && CanMove(s, k)
    ensures Inv(Step(s, k, m), m)
  {
    match s.th[k].pc
    case NotStarted => EnterKeeps(s, k, m);
    case Enter => EnterKeeps(s, k, m);
    case CondWoken => EnterKeeps(s, k, m);
    case Test => TestKeeps(s, k, m);
    case Read => UseKeeps(s, k, m);
    case Write => UseKeeps(s, k, m);
    case Notify => NotifyKeeps(s, k, m);
    case Leave => LeaveKeeps(s, k, m);
    case FinalIn => FinalKeeps(s, k, m);
    case FinalOut => FinalOutKeeps(s, k, m);
    case _ =>
  }

  lemma {:induction false} EveryRunKeeps(ss: seq<State>, ks: seq<nat>, m: nat, i: nat)
    requires IsRun(ss, ks, m) && i < |ss|
    ensures Inv(ss[i], m)
  {
    if i > 0 {
      EveryRunKeeps(ss, ks, m, i - 1);
      StepKeeps(ss[i - 1], ks[i - 1], m);
    }
  }

  /** The ASSERTs after the wait loops, no update is lost to the other thread while a thread is between reading
      and writing, and no run ever reports FAILED. */
  lemma MonitorIsSafe(ss: seq<State>, ks: seq<nat>, m: nat, i: nat)
    requires IsRun(ss, ks, m) && i < |ss|
    ensures Shaped(ss[i])
    ensures forall k :: 0 <= k < 2 && ss[i].th[k].pc in {Read, Write} ==> MayUse(k, ss[i].shared)
    ensures forall k :: 0 <= k < 2 && ss[i].th[k].pc == Write ==> ss[i].th[k].tmp == ss[i].shared
    ensures ss[i].exitCount == 2 ==> ss[i].shared == 3 * m
    ensures forall v :: v in ss[i].verdicts ==> v
  {
    EveryRunKeeps(ss, ks, m, i);
    if ss[i].exitCount == 2 { BothDone(ss[i], m); }
  }

  /** No lost wakeup: until both threads are gone, one of them can move. */
  lemma NeverStuck(ss: seq<State>, ks: seq<nat>, m: nat, i: nat)
    requires IsRun(ss, ks, m) && i < |ss|
    ensures CanMove(ss[i], 0) || CanMove(ss[i], 1)
         || (Shaped(ss[i]) && ss[i].th[0].pc == Gone && ss[i].th[1].pc == Gone)
  {
    EveryRunKeeps(ss, ks, m, i);
    var s := ss[i];
  }

  // ---------- every run ends ----------

  /** A bound on the steps a thread has still to take, being woken by the other one included. */
  function Remaining(t: Thread, k: nat, m: nat): int {
    8 * (Rounds(k, m) - t.i) +
    match t.pc
    case NotStarted => 9
    case Enter => 8
    case CondWoken => 8
    case LockBlocked => 7
    case Test => 7
    case CondBlocked => 6
    case Read => 6
    case Write => 5
    case Notify => 4
    case Leave => 1
    case FinalIn => 3
    case FinalOut => 2
    case Gone => 0
  }

  function Cost(s: State, m: nat): int
    requires Shaped(s)
  {
    Remaining(s.th[0], 0, m) + Remaining(s.th[1], 1, m)
  }

  /** What waking the other thread adds is paid for by the step that does it. */
  lemma StepLowersCost(s: State, k: nat, m: nat)
    requires Inv(s, m) && CanMove(s, k)
    ensures Shaped(Step(s, k, m)) && Cost(Step(s, k, m), m) < Cost(s, m)
  {
    match s.th[k].pc
    case Leave => UnlockCost(s.(th := s.th[k := s.th[k].(pc := Enter, i := s.th[k].i + 1)]), k, m);
    case FinalOut => UnlockCost(SetPc(s, k, Gone), k, m);
    case Test => TestLowersCost(s, k, m);
    case Notify => NotifyLowersCost(s, k, m);
    case _ => OtherLowersCost(s, k, m);
  }

  /** Handing the lock over costs nothing. */
  lemma UnlockCost(s: State, k: nat, m: nat)
    requires Shaped(s) && k < 2 && s.lock.locked
    requires s.lock.queue == if s.th[1 - k].pc == LockBlocked then [1 - k] else []
    ensures Shaped(Unlock2(s, m)) && Cost(Unlock2(s, m), m) <= Cost(s, m)
  {
    UnlockIs(s, k, m);
  }

  lemma TestLowersCost(s: State, k: nat, m: nat)
    requires Inv(s, m) && CanMove(s, k) && s.th[k].pc == Test
    ensures Shaped(Step(s, k, m)) && Cost(Step(s, k, m), m) < Cost(s, m)
  {
    if !MayUse(k, s.shared) { UnlockCost(SetPc(s.(conds := s.conds[k := s.conds[k] + [k]]), k, CondBlocked), k, m); }
  }

  lemma NotifyLowersCost(s: State, k: nat, m: nat)
    requires Inv(s, m) && CanMove(s, k) && s.th[k].pc == Notify
    ensures Shaped(Step(s, k, m)) && Cost(Step(s, k, m), m) < Cost(s, m)
  {
  }

  lemma OtherLowersCost(s: State, k: nat, m: nat)
    requires Inv(s, m) && CanMove(s, k) && s.th[k].pc !in {Leave, FinalOut, Test, Notify}
    ensures Shaped(Step(s, k, m)) && Cost(Step(s, k, m), m) < Cost(s, m)
  {
  }

  lemma {:induction false} CostSinks(ss: seq<State>, ks: seq<nat>, m: nat, i: nat)
    requires IsRun(ss, ks, m) && i < |ss|
    ensures Inv(ss[i], m) && 0 <= Cost(ss[i], m) && Cost(ss[i], m) + i <= 24 * m + 18
  {
    EveryRunKeeps(ss, ks, m, i);
    CostIsNatural(ss[i], m);
    if i > 0 {
      CostSinks(ss, ks, m, i - 1);
      StepLowersCost(ss[i - 1], ks[i - 1], m);
      assert ss[i] == Step(ss[i - 1], ks[i - 1], m);
    }
  }

  lemma CostIsNatural(s: State, m: nat)
    requires Inv(s, m)
    ensures 0 <= Cost(s, m)
  {
  }

  /** No run goes on for ever; one that cannot go on has both threads gone and has reported once that both passed. */
  lemma EveryRunEnds(ss: seq<State>, ks: seq<nat>, m: nat)
    requires IsRun(ss, ks, m)
    ensures |ks| <= 24 * m + 18
    ensures var s := ss[|ks|];
      !CanMove(s, 0) && !CanMove(s, 1)
      ==> Shaped(s) && s.th[0].pc == s.th[1].pc == Gone && s.shared == 3 * m && |s.verdicts| == 1 && s.verdicts[0]
  {
    CostSinks(ss, ks, m, |ks|);
    NeverStuck(ss, ks, m, |ks|);
    MonitorIsSafe(ss, ks, m, |ks|);
    var s := ss[|ks|];
    if Shaped(s) && s.th[0].pc == s.th[1].pc == Gone { GoneHaveReported(s, m); }
  }

  lemma GoneHaveReported(s: State, m: nat)
    requires Inv(s, m) && s.th[0].pc == s.th[1].pc == Gone
    ensures s.shared == 3 * m && |s.verdicts| == 1 && s.verdicts[0]
  {
    BothDone(s, m);
    assert s.exitCount == 2;
    assert s.verdicts[0] in s.verdicts;
  }
}
