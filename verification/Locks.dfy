/** One lock and the condition variables used with it, under any interleaving of any number of threads.
    A thread's phase is where it stands in its own code; nothing but the calls of sync.c changes it. */
module Locks {
  import opened Seqs
  import opened Placement
  import opened Primitives

  datatype Phase =
    | Outside
    | Queued              // blocked on the lock's wait queue
    | Inside              // its lock_acquire() or condition_wait() has returned
    | Waiting(c: QueueId) // blocked in condition_wait()
    | Woken               // signalled, about to run lock_acquire_helper() again

  datatype State = State(lock: Lock, conds: map<QueueId, seq<Tid>>, phase: map<Tid, Phase>,
                         asked: seq<Tid>, granted: seq<Tid>)

  function PhaseOf(s: State, t: Tid): Phase {
    if t in s.phase then s.phase[t] else Outside
  }

  function Init(conds: set<QueueId>): State {
    State(Lock(false, []), map c | c in conds :: [], map[], [], [])
  }

  datatype Call =
    | CallAcquire(t: Tid)
    | CallRelease(t: Tid)
    | CallWait(t: Tid, c: QueueId)
    | CallSignal(c: QueueId)   // also one round of condition_broadcast()'s loop
    | Reacquire(t: Tid)        // the second half of condition_wait()

  /** What a thread can call in its phase: release and wait only by the one inside. */
  predicate Enabled(s: State, e: Call) {
    match e
    case CallAcquire(t) => PhaseOf(s, t) == Outside
    case CallRelease(t) => PhaseOf(s, t) == Inside
    case CallWait(t, c) => PhaseOf(s, t) == Inside && c in s.conds
    case CallSignal(c) => c in s.conds
    case Reacquire(t) => PhaseOf(s, t) == Woken
  }

  function DoAcquire(s: State, t: Tid): State {
    var (lock, blocked) := Acquire(s.lock, t);
    s.(lock := lock, phase := s.phase[t := if blocked then Queued else Inside], asked := s.asked + [t],
       granted := if blocked then s.granted else s.granted + [t])
  }

  function DoRelease(s: State): State {
    var (lock, woken) := Release(s.lock);
    if woken.None? then s.(lock := lock)
    else s.(lock := lock, phase := s.phase[woken.value := Inside], granted := s.granted + [woken.value])
  }

  function Step(s: State, e: Call): State
    requires Enabled(s, e)
  {
    match e
    case CallAcquire(t) => DoAcquire(s, t)
    case CallRelease(t) => DoRelease(s.(phase := s.phase[t := Outside]))
    case CallWait(t, c) =>
      DoRelease(s.(conds := s.conds[c := s.conds[c] + [t]], phase := s.phase[t := Waiting(c)]))
    case CallSignal(c) =>
      if s.conds[c] == [] then s
      else s.(conds := s.conds[c := s.conds[c][1..]], phase := s.phase[s.conds[c][0] := Woken])
    case Reacquire(t) => DoAcquire(s, t)
  }

  ghost predicate IsRun(ss: seq<State>, es: seq<Call>, conds: set<QueueId>) {
    && |ss| == |es| + 1
    && ss[0] == Init(conds)
    && forall i :: 0 <= i < |es| ==> Enabled(ss[i], es[i]) && ss[i + 1] == Step(ss[i], es[i])
  }

  /** Mutual exclusion with direct hand-off. */
  ghost predicate Exclusive(s: State) {
    && (forall t, u :: PhaseOf(s, t) == Inside && PhaseOf(s, u) == Inside ==> t == u)
    && (s.lock.locked <==> exists t :: PhaseOf(s, t) == Inside)
    && (!s.lock.locked ==> s.lock.queue == [])
    && s.asked == s.granted + s.lock.queue
  }

  /** The wait queues hold exactly the threads in the matching phases, each once. */
  ghost predicate QueuesMatch(s: State) {
    && NoDup(s.lock.queue) && (forall t :: t in s.lock.queue <==> PhaseOf(s, t) == Queued)
    && (forall c :: c in s.conds ==> NoDup(s.conds[c]))
    && (forall c, t :: c in s.conds ==> (t in s.conds[c] <==> PhaseOf(s, t) == Waiting(c)))
  }

  lemma PhaseSet(s: State, s': State, t: Tid, p: Phase)
    requires s'.phase == s.phase[t := p]
    ensures forall u :: PhaseOf(s', u) == if u == t then p else PhaseOf(s, u)
  {
  }

  lemma AcquireKeeps(s: State, t: Tid)
    requires Exclusive(s) && QueuesMatch(s) && (PhaseOf(s, t) == Outside || PhaseOf(s, t) == Woken)
    ensures Exclusive(DoAcquire(s, t)) && QueuesMatch(DoAcquire(s, t))
  {
    var s' := DoAcquire(s, t);
    PhaseSet(s, s', t, if s.lock.locked then Queued else Inside);
    if s.lock.locked {
      Appended(s.lock.queue, t);
      var u :| PhaseOf(s, u) == Inside;
      assert PhaseOf(s', u) == Inside;
      assert s'.asked == s.granted + (s.lock.queue + [t]);
    } else {
      assert PhaseOf(s', t) == Inside;
    }
  }

  /** The state right after the holder left and before its lock is passed on. */
  ghost predicate Handing(s: State) {
    && (forall t :: PhaseOf(s, t) != Inside) && s.lock.locked && s.asked == s.granted + s.lock.queue
  }

  lemma ReleaseKeeps(s: State)
    requires Handing(s) && QueuesMatch(s)
    ensures Exclusive(DoRelease(s)) && QueuesMatch(DoRelease(s))
  {
    var s' := DoRelease(s);
    if s.lock.queue != [] {
      Dropped(s.lock.queue);
      var p := s.lock.queue[0];
      PhaseSet(s, s', p, Inside);
      assert p in s.lock.queue && PhaseOf(s', p) == Inside;
      assert s.lock.queue == [p] + s'.lock.queue;
    } else {
      assert forall u :: PhaseOf(s', u) == PhaseOf(s, u);
    }
  }

  lemma LeaveForCondition(s: State, t: Tid, c: QueueId)
    requires Exclusive(s) && QueuesMatch(s) && PhaseOf(s, t) == Inside && c in s.conds
    ensures var s1 := s.(conds := s.conds[c := s.conds[c] + [t]], phase := s.phase[t := Waiting(c)]);
            Handing(s1) && QueuesMatch(s1)
  {
    Appended(s.conds[c], t);
    PhaseSet(s, s.(conds := s.conds[c := s.conds[c] + [t]], phase := s.phase[t := Waiting(c)]), t, Waiting(c));
  }

  lemma SignalKeeps(s: State, c: QueueId)
    requires Exclusive(s) && QueuesMatch(s) && c in s.conds
    ensures Exclusive(Step(s, CallSignal(c))) && QueuesMatch(Step(s, CallSignal(c)))
  {
    if s.conds[c] != [] {
      Dropped(s.conds[c]);
      var p := s.conds[c][0];
      assert p in s.conds[c];
      var s' := Step(s, CallSignal(c));
      PhaseSet(s, s', p, Woken);
      if s.lock.locked {
        var u :| PhaseOf(s, u) == Inside;
        assert PhaseOf(s', u) == Inside;
      }
    }
  }

  lemma StepKeeps(s: State, e: Call)
    requires Exclusive(s) && QueuesMatch(s) && Enabled(s, e)
    ensures Exclusive(Step(s, e)) && QueuesMatch(Step(s, e))
  {
    match e
    case CallAcquire(t) => AcquireKeeps(s, t);
    case CallRelease(t) =>
      PhaseSet(s, s.(phase := s.phase[t := Outside]), t, Outside);
      ReleaseKeeps(s.(phase := s.phase[t := Outside]));
    case CallWait(t, c) =>
      LeaveForCondition(s, t, c);
      ReleaseKeeps(s.(conds := s.conds[c := s.conds[c] + [t]], phase := s.phase[t := Waiting(c)]));
    case CallSignal(c) => SignalKeeps(s, c);
    case Reacquire(t) => AcquireKeeps(s, t);
  }

  /** In every reachable state at most one thread is inside, the lock is free only when nobody is inside or
      waiting for it, and it has been granted in exactly the order it was asked for, re-acquisitions after
      condition_wait() included. */
  lemma {:induction false} EveryRunExcludes(ss: seq<State>, es: seq<Call>, conds: set<QueueId>, i: nat)
    requires IsRun(ss, es, conds) && i < |ss|
    ensures Exclusive(ss[i]) && QueuesMatch(ss[i])
  {
    if i > 0 {
      EveryRunExcludes(ss, es, conds, i - 1);
      StepKeeps(ss[i - 1], es[i - 1]);
    }
  }

  // ---------- where a call leaves the threads ----------

  /** The thread that a release hands the lock to. */
  function Heir(s: State): Option<Tid> { if s.lock.queue == [] then None else Some(s.lock.queue[0]) }

  /** Whoever asks for the lock is inside at once if nobody was, and last in its queue otherwise. */
  lemma AskerGoes(s: State, e: Call, t: Tid)
    requires Exclusive(s) && QueuesMatch(s) && Enabled(s, e) && (e == CallAcquire(t) || e == Reacquire(t))
    ensures var s' := Step(s, e);
      && (if exists u :: PhaseOf(s, u) == Inside
          then PhaseOf(s', t) == Queued && s'.lock.queue == s.lock.queue + [t] else PhaseOf(s', t) == Inside)
      && s'.asked == s.asked + [t] && s'.conds == s.conds
      && forall u :: u != t ==> PhaseOf(s', u) == PhaseOf(s, u)
  {
    PhaseSet(s, Step(s, e), t, if s.lock.locked then Queued else Inside);
  }

  /** Whoever releases the lock, or waits on a condition, is out of it; the first in the queue is inside then, and the lock
      is free exactly when nobody was queued. */
  lemma LeaverGoes(s: State, e: Call, t: Tid)
    requires Exclusive(s) && QueuesMatch(s) && Enabled(s, e) && (e == CallRelease(t) || (e.CallWait? && e.t == t))
    ensures var s', heir := Step(s, e), Heir(s);
      && heir != Some(t) && s'.asked == s.asked && (s'.lock.locked <==> heir.Some?)
      && (if e.CallWait? then PhaseOf(s', t) == Waiting(e.c) && s'.conds == s.conds[e.c := s.conds[e.c] + [t]]
          else PhaseOf(s', t) == Outside && s'.conds == s.conds)
      && forall u :: u != t ==> PhaseOf(s', u) == if heir == Some(u) then Inside else PhaseOf(s, u)
  {
    var s1 := if e.CallWait? then s.(conds := s.conds[e.c := s.conds[e.c] + [t]], phase := s.phase[t := Waiting(e.c)])
              else s.(phase := s.phase[t := Outside]);
    assert Step(s, e) == DoRelease(s1);
    PhaseSet(s, s1, t, if e.CallWait? then Waiting(e.c) else Outside);
    if s.lock.queue != [] {
      var p := s.lock.queue[0];
      assert p in s.lock.queue && PhaseOf(s, p) == Queued;
      PhaseSet(s1, DoRelease(s1), p, Inside);
    }
  }

  /** A signal takes the first waiter off the condition, if there is one, and nobody else. */
  lemma SignalledGoes(s: State, c: QueueId)
    requires Enabled(s, CallSignal(c))
    ensures var s', w := Step(s, CallSignal(c)), s.conds[c];
      && s'.lock == s.lock && s'.conds == s.conds[c := if w == [] then [] else w[1..]]
      && forall u :: PhaseOf(s', u) == if w != [] && u == w[0] then Woken else PhaseOf(s, u)
  {
  }
}
