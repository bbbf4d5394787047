/** Where the kernel keeps each pcb: running, on the ready queue, on the sleep queue, or on one wait queue.
    Both schedulers (round robin and ageing priorities) move pcbs between these places with the moves below.
    `current` is None while the processor is inside scheduler() looking for somebody to dispatch. */
module Placement {
  import opened Seqs

  type Tid = nat
  type QueueId = nat

  /** One field of every pcb, by thread. */
  function Field(m: map<Tid, int>, t: Tid): int { if t in m then m[t] else 0 }

  /** uint64_t wraps here. */
  const U64 := 0x1_0000_0000_0000_0000

  datatype Status = FirstTime | Ready | Blocked | Exited | Sleeping

  predicate Runnable(st: Status) {
    st == FirstTime || st == Ready
  }

  datatype Tasks = Tasks(
    current: Option<Tid>,
    ready: seq<Tid>,
    sleepers: seq<Tid>,
    waits: map<QueueId, seq<Tid>>,
    status: map<Tid, Status>)

  datatype Move =
    | TakeReady(k: nat)        // scheduler(): unlink the k-th ready pcb and run it
    | PutReady                 // put_current_running()
    | PutSleeping(k: nat)      // do_sleep(): insert at position k of the sleep queue
    | PutWaiting(q: QueueId)   // block()
    | PutExited                // do_exit()
    | WakeSleeper              // check_sleeping(): first sleeper becomes ready
    | WakeWaiter(q: QueueId)   // unblock(dequeue(q))
    | Spawn(t: Tid)            // an exited pcb is reused

  predicate Possible(s: Tasks, m: Move) {
    match m
    case TakeReady(k) => s.current.None? && k < |s.ready|
    case PutReady => s.current.Some?
    case PutSleeping(k) => s.current.Some? && k <= |s.sleepers|
    case PutWaiting(q) => s.current.Some? && q in s.waits
    case PutExited => s.current.Some?
    case WakeSleeper => s.sleepers != []
    case WakeWaiter(q) => q in s.waits && s.waits[q] != []
    case Spawn(t) => t in s.status && s.status[t] == Exited
  }

  function Apply(s: Tasks, m: Move): Tasks
    requires Possible(s, m)
  {
    match m
    case TakeReady(k) => s.(current := Some(s.ready[k]), ready := RemoveAt(s.ready, k))
    case PutReady =>
      s.(current := None, ready := s.ready + [s.current.value], status := s.status[s.current.value := Ready])
    case PutSleeping(k) =>
      s.(current := None, sleepers := InsertAt(s.sleepers, k, s.current.value),
         status := s.status[s.current.value := Sleeping])
    case PutWaiting(q) =>
      s.(current := None, waits := s.waits[q := s.waits[q] + [s.current.value]],
         status := s.status[s.current.value := Blocked])
    case PutExited => s.(current := None, status := s.status[s.current.value := Exited])
    case WakeSleeper =>
      s.(sleepers := s.sleepers[1..], ready := s.ready + [s.sleepers[0]], status := s.status[s.sleepers[0] := Ready])
    case WakeWaiter(q) =>
      s.(waits := s.waits[q := s.waits[q][1..]], ready := s.ready + [s.waits[q][0]],
         status := s.status[s.waits[q][0] := Ready])
    case Spawn(t) => s.(ready := s.ready + [t], status := s.status[t := FirstTime])
  }

  // ---------- every pcb in exactly one place ----------

  /** A place a pcb can be found at: an index of a queue, or the processor. */
  datatype Home = Running | InReady(i: nat) | InSleep(i: nat) | InWait(q: QueueId, i: nat)

  predicate IsHome(s: Tasks, t: Tid, h: Home) {
    match h
    case Running => s.current == Some(t)
    case InReady(i) => i < |s.ready| && s.ready[i] == t
    case InSleep(i) => i < |s.sleepers| && s.sleepers[i] == t
    case InWait(q, i) => q in s.waits && i < |s.waits[q]| && s.waits[q][i] == t
  }

  /** The status a pcb must have in that place. */
  predicate Agrees(h: Home, st: Status) {
    match h
    case Running => Runnable(st)
    case InReady(_) => Runnable(st)
    case InSleep(_) => st == Sleeping
    case InWait(_, _) => st == Blocked
  }

  /** The promise: a live pcb has one and only one home, which agrees with its status; an exited one has none;
      and no queue holds anything but known pcbs. */
  ghost predicate OneHomeEach(s: Tasks) {
    && (forall t, h :: IsHome(s, t, h) ==> t in s.status && Agrees(h, s.status[t]))
    && (forall t, h, h' :: IsHome(s, t, h) && IsHome(s, t, h') ==> h == h')
    && (forall t :: t in s.status && s.status[t] != Exited ==> exists h :: IsHome(s, t, h))
  }

  /** The same in terms of queue membership, which is what the moves are checked against. */
  ghost predicate Placed(s: Tasks) {
    && NoDup(s.ready) && NoDup(s.sleepers) && (forall q :: q in s.waits ==> NoDup(s.waits[q]))
    && (s.current.Some? ==> s.current.value in s.status && Runnable(s.status[s.current.value]))
    && (forall t :: t in s.ready <==> t in s.status && Runnable(s.status[t]) && s.current != Some(t))
    && (forall t :: t in s.sleepers <==> t in s.status && s.status[t] == Sleeping)
    && (forall q, t :: q in s.waits && t in s.waits[q] ==> t in s.status && s.status[t] == Blocked)
    && (forall t :: t in s.status && s.status[t] == Blocked ==> exists q :: q in s.waits && t in s.waits[q])
    && (forall q, q', t :: q in s.waits && q' in s.waits && t in s.waits[q] && t in s.waits[q'] ==> q == q')
  }

  lemma PlacedHasHome(s: Tasks, t: Tid)
    requires Placed(s) && t in s.status && s.status[t] != Exited
    ensures exists h :: IsHome(s, t, h)
  {
    if s.current == Some(t) {
      assert IsHome(s, t, Running);
    } else if Runnable(s.status[t]) {
      var i :| 0 <= i < |s.ready| && s.ready[i] == t;
      assert IsHome(s, t, InReady(i));
    } else if s.status[t] == Sleeping {
      var i :| 0 <= i < |s.sleepers| && s.sleepers[i] == t;
      assert IsHome(s, t, InSleep(i));
    } else {
      var q :| q in s.waits && t in s.waits[q];
      var i :| 0 <= i < |s.waits[q]| && s.waits[q][i] == t;
      assert IsHome(s, t, InWait(q, i));
    }
  }

  lemma HomeAgrees(s: Tasks, t: Tid, h: Home)
    requires Placed(s) && IsHome(s, t, h)
    ensures t in s.status && Agrees(h, s.status[t])
  {
    match h
    case Running =>
    case InReady(i) => assert t in s.ready;
    case InSleep(i) => assert t in s.sleepers;
    case InWait(q, i) => assert t in s.waits[q];
  }

  lemma HomeIsUnique(s: Tasks, t: Tid, h: Home, h': Home)
    requires Placed(s) && IsHome(s, t, h) && IsHome(s, t, h')
    ensures h == h'
  {
    HomeAgrees(s, t, h);
    HomeAgrees(s, t, h');
    if h.InReady? || h'.InReady? { assert t in s.ready; }
    if h.InWait? && h'.InWait? { assert t in s.waits[h.q] && t in s.waits[h'.q]; }
  }

  lemma PlacedMeansOneHomeEach(s: Tasks)
    requires Placed(s)
    ensures OneHomeEach(s)
  {
    forall t, h | IsHome(s, t, h) ensures t in s.status && Agrees(h, s.status[t]) { HomeAgrees(s, t, h); }
    forall t, h, h' | IsHome(s, t, h) && IsHome(s, t, h') ensures h == h' { HomeIsUnique(s, t, h, h'); }
    forall t | t in s.status && s.status[t] != Exited ensures exists h :: IsHome(s, t, h) { PlacedHasHome(s, t); }
  }

  // ---------- the moves keep it ----------

  lemma WakeSleeperKeepsPlaced(s: Tasks)
    requires Placed(s) && s.sleepers != []
    ensures Placed(Apply(s, WakeSleeper))
  {
    Dropped(s.sleepers);
    Appended(s.ready, s.sleepers[0]);
  }

  lemma MoveFromWait(s: Tasks, q: QueueId)
    requires Placed(s) && Possible(s, WakeWaiter(q))
    ensures Placed(Apply(s, WakeWaiter(q)))
  {
    var s' := Apply(s, WakeWaiter(q));
    var t := s.waits[q][0];
    Dropped(s.waits[q]);
    Appended(s.ready, t);
    forall u | u in s'.status && s'.status[u] == Blocked ensures exists q' :: q' in s'.waits && u in s'.waits[q'] {
      var q' :| q' in s.waits && u in s.waits[q'];
      assert u in s'.waits[q'];
    }
  }

  lemma MoveToWait(s: Tasks, q: QueueId)
    requires Placed(s) && Possible(s, PutWaiting(q))
    ensures Placed(Apply(s, PutWaiting(q)))
  {
    var s' := Apply(s, PutWaiting(q));
    var t := s.current.value;
    Appended(s.waits[q], t);
    forall u | u in s'.status && s'.status[u] == Blocked ensures exists q' :: q' in s'.waits && u in s'.waits[q'] {
      if u == t {
        assert u in s'.waits[q];
      } else {
        var q' :| q' in s.waits && u in s.waits[q'];
        assert u in s'.waits[q'];
      }
    }
  }

  lemma PutReadyKeepsPlaced(s: Tasks)
    requires Placed(s) && s.current.Some?
    ensures Placed(Apply(s, PutReady))
  {
    Appended(s.ready, s.current.value);
  }

  lemma SpawnKeepsPlaced(s: Tasks, t: Tid)
    requires Placed(s) && Possible(s, Spawn(t))
    ensures Placed(Apply(s, Spawn(t)))
  {
    Appended(s.ready, t);
  }

  lemma PutExitedKeepsPlaced(s: Tasks)
    requires Placed(s) && s.current.Some?
    ensures Placed(Apply(s, PutExited))
  {
    var s' := Apply(s, PutExited);
    forall u | u in s'.status && s'.status[u] == Blocked ensures exists q :: q in s'.waits && u in s'.waits[q] {
      var q :| q in s.waits && u in s.waits[q];
      assert u in s'.waits[q];
    }
  }

  lemma PutSleepingKeepsPlaced(s: Tasks, k: nat)
    requires Placed(s) && Possible(s, PutSleeping(k))
    ensures Placed(Apply(s, PutSleeping(k)))
  {
    InsertAtKeepsNoDup(s.sleepers, k, s.current.value);
  }

  lemma TakeReadyKeepsPlaced(s: Tasks, k: nat)
    requires Placed(s) && Possible(s, TakeReady(k))
    ensures Placed(Apply(s, TakeReady(k)))
  {
    RemoveAtKeepsNoDup(s.ready, k);
  }

  /** Every move of every scheduler keeps each pcb in exactly one place. */
  lemma MoveKeepsPlaced(s: Tasks, m: Move)
    requires Placed(s) && Possible(s, m)
    ensures Placed(Apply(s, m))
  {
    match m
    case TakeReady(k) => TakeReadyKeepsPlaced(s, k);
    case PutReady => PutReadyKeepsPlaced(s);
    case PutSleeping(k) => PutSleepingKeepsPlaced(s, k);
    case PutWaiting(q) => MoveToWait(s, q);
    case PutExited => PutExitedKeepsPlaced(s);
    case WakeSleeper => WakeSleeperKeepsPlaced(s);
    case WakeWaiter(q) => MoveFromWait(s, q);
    case Spawn(t) => SpawnKeepsPlaced(s, t);
  }

  /** Threads 1..n just made ready, as _start() leaves them. */
  function Boot(n: nat, queues: set<QueueId>): Tasks {
    var ids := seq(n, i => i + 1);
    Tasks(None, ids, [], map q | q in queues :: [], map t | t in ids :: FirstTime)
  }

  lemma BootIsPlaced(n: nat, queues: set<QueueId>)
    ensures Placed(Boot(n, queues))
  {
  }

  lemma BootHolds(n: nat, queues: set<QueueId>)
    ensures forall t :: t in Boot(n, queues).status <==> 1 <= t <= n
    ensures forall t :: t in Boot(n, queues).ready <==> 1 <= t <= n
  {
    var s := Boot(n, queues);
    forall t: nat ensures t in s.ready <==> 1 <= t <= n {
      if 1 <= t <= n { assert s.ready[t - 1] == t; }
    }
  }
}
