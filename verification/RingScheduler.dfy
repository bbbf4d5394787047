/** The project 4 scheduler on its real queues: circular lists with sentinels, all sharing one set of pcb nodes. Every
    queue is a ring, no node is on two of them, and each call does to the rings what a step of RoundRobin does to
    sequences. A node's item is the number of its pcb; the other pcb fields are maps. */
module RingScheduler {
  import opened Seqs
  import opened Placement
  import opened RoundRobin
  import R = Rings

  type Node = R.Node<Tid>

  datatype Place = ReadyQueue | SleepWaitQueue | WaitQueue(q: QueueId)

  /** The nodes of each queue in order, the sentinel first. */
  type Rings = map<Place, seq<Node>>

  // ---------- which node is where ----------

  ghost predicate Shaped(rings: Rings, nodes: set<Node>, queues: map<Place, Node>, waitQueues: set<QueueId>) {
    && ReadyQueue in rings && SleepWaitQueue in rings && (forall q :: WaitQueue(q) in rings <==> q in waitQueues)
    && queues.Keys == rings.Keys && (forall p :: p in rings ==> rings[p] != [] && rings[p][0] == queues[p])
    && (forall p, n :: p in rings && n in rings[p] ==> n in nodes)
  }

  /** No node is on two queues. */
  ghost predicate Apart(rings: Rings) {
    forall p, p', n :: p in rings && p' in rings && n in rings[p] && n in rings[p'] ==> p == p'
  }

  ghost predicate OnNone(rings: Rings, node: Node) {
    forall p :: p in rings ==> node !in rings[p]
  }

  ghost function With(rings: Rings, p: Place, node: Node): Rings
    requires p in rings
  {
    rings[p := rings[p] + [node]]
  }

  ghost function Taken(rings: Rings, p: Place): Rings
    requires p in rings && |rings[p]| > 1
  {
    rings[p := RemoveAt(rings[p], 1)]
  }

  /** The rings other than that of p. */
  ghost function Others(rings: Rings, p: Place): set<seq<Node>> {
    set p' | p' in rings && p' != p :: rings[p']
  }

  lemma OthersAreRings(rings: Rings, p: Place)
    ensures R.AllRings(Others(rings, p)) <==> forall p' :: p' in rings && p' != p ==> R.Ring(rings[p'])
  {
    forall p' | p' in rings && p' != p ensures rings[p'] in Others(rings, p) { }
  }

  lemma WithIsApart(rings: Rings, p: Place, node: Node)
    requires Apart(rings) && p in rings && OnNone(rings, node)
    ensures Apart(With(rings, p, node)) && R.Elsewhere(Others(rings, p), rings[p] + [node])
  {
  }

  lemma TakenIsApart(rings: Rings, p: Place)
    requires Apart(rings) && p in rings && |rings[p]| > 1 && NoDup(rings[p])
    ensures Apart(Taken(rings, p)) && OnNone(Taken(rings, p), rings[p][1]) && R.Elsewhere(Others(rings, p), rings[p])
  {
    RemoveAtKeepsNoDup(rings[p], 1);
    assert rings[p][1] in rings[p];
  }

  lemma TakenIsShaped(rings: Rings, nodes: set<Node>, queues: map<Place, Node>, waitQueues: set<QueueId>, p: Place)
    requires Shaped(rings, nodes, queues, waitQueues) && p in rings && |rings[p]| > 1
    ensures Shaped(Taken(rings, p), nodes, queues, waitQueues) && rings[p][1] in nodes
  {
    var c := rings[p];
    assert c[1] in c && c[0] in c && forall n :: n in RemoveAt(c, 1) ==> n in c;
  }

  lemma WokenOnNone(rings: Rings, p: Place, n: Node)
    requires p in rings && ReadyQueue in rings && p != ReadyQueue && |rings[p]| > 1 && OnNone(rings, n)
    ensures OnNone(With(Taken(rings, p), ReadyQueue, rings[p][1]), n)
  {
    assert rings[p][1] in rings[p] && forall m :: m in RemoveAt(rings[p], 1) ==> m in rings[p];
  }

  // ---------- what the queues hold ----------

  /** What is on queue p, in order. */
  ghost function Held(rings: Rings, p: Place): seq<Tid> {
    if p in rings && rings[p] != [] then R.Items(rings[p][1..]) else []
  }

  lemma HeldAfterPut(rings: Rings, p: Place, node: Node)
    requires p in rings && rings[p] != []
    ensures forall p' :: Held(With(rings, p, node), p') == if p' == p then Held(rings, p) + [node.item] else Held(rings, p')
  {
    assert (rings[p] + [node])[1..] == rings[p][1..] + [node];
    R.ItemsAppend(rings[p][1..], node);
  }

  lemma HeldAfterTake(rings: Rings, p: Place)
    requires p in rings && |rings[p]| > 1
    ensures Held(rings, p) != [] && Held(rings, p)[0] == rings[p][1].item
    ensures forall p' :: Held(Taken(rings, p), p') == if p' == p then Held(rings, p)[1..] else Held(rings, p')
  {
    assert RemoveAt(rings[p], 1)[1..] == rings[p][1..][1..];
    R.ItemsDrop(rings[p][1..]);
  }

  ghost function TasksOn(rings: Rings, waitQueues: set<QueueId>, current: Option<Tid>, status: map<Tid, Status>): Tasks {
    Tasks(current, Held(rings, ReadyQueue), Held(rings, SleepWaitQueue), WaitsOn(rings, waitQueues), status)
  }

  ghost function WaitsOn(rings: Rings, waitQueues: set<QueueId>): map<QueueId, seq<Tid>> {
    map q | q in waitQueues :: Held(rings, WaitQueue(q))
  }

  /** When only queue p holds something else, only that wait queue, if it is one, has changed. */
  lemma WaitsChange(rings: Rings, rings': Rings, waitQueues: set<QueueId>, p: Place)
    requires forall q :: q in waitQueues && p != WaitQueue(q) ==> Held(rings', WaitQueue(q)) == Held(rings, WaitQueue(q))
    ensures WaitsOn(rings', waitQueues) == if p.WaitQueue? && p.q in waitQueues
                                           then WaitsOn(rings, waitQueues)[p.q := Held(rings', p)] else WaitsOn(rings, waitQueues)
  {
  }

  /** The status of a pcb on queue p, and the move that puts the running one there. */
  function StatusOn(p: Place): Status {
    match p
    case ReadyQueue => Ready
    case SleepWaitQueue => Sleeping
    case WaitQueue(_) => Blocked
  }

  function Arrival(p: Place, s: Tasks): Placement.Move {
    match p
    case ReadyQueue => PutReady
    case SleepWaitQueue => PutSleeping(|s.sleepers|)
    case WaitQueue(q) => PutWaiting(q)
  }

  /** enqueue() of the running pcb is a move of Placement. */
  lemma PutOnRings(rings: Rings, waitQueues: set<QueueId>, p: Place, node: Node, status: map<Tid, Status>)
    requires p in rings && rings[p] != [] && (p.WaitQueue? ==> p.q in waitQueues)
    ensures TasksOn(With(rings, p, node), waitQueues, None, status[node.item := StatusOn(p)])
         == Apply(TasksOn(rings, waitQueues, Some(node.item), status),
                  Arrival(p, TasksOn(rings, waitQueues, Some(node.item), status)))
  {
    HeldAfterPut(rings, p, node);
    WaitsChange(rings, With(rings, p, node), waitQueues, p);
    var sleepers := Held(rings, SleepWaitQueue);
    assert InsertAt(sleepers, |sleepers|, node.item) == sleepers + [node.item];
  }

  lemma TakeOnRings(rings: Rings, waitQueues: set<QueueId>, status: map<Tid, Status>)
    requires ReadyQueue in rings && rings[ReadyQueue] != []
    ensures |rings[ReadyQueue]| == 1 <==> Held(rings, ReadyQueue) == []
    ensures |rings[ReadyQueue]| > 1 ==>
      TasksOn(Taken(rings, ReadyQueue), waitQueues, Some(rings[ReadyQueue][1].item), status)
      == Apply(TasksOn(rings, waitQueues, None, status), TakeReady(0))
  {
    if |rings[ReadyQueue]| > 1 {
      HeldAfterTake(rings, ReadyQueue);
      WaitsChange(rings, Taken(rings, ReadyQueue), waitQueues, ReadyQueue);
      assert RemoveAt(Held(rings, ReadyQueue), 0) == Held(rings, ReadyQueue)[1..];
    }
  }

  /** Moving the head of the sleep queue or of a wait queue to the ready queue is one, too. */
  lemma WakeOnRings(rings: Rings, waitQueues: set<QueueId>, p: Place, current: Option<Tid>, status: map<Tid, Status>)
    requires ReadyQueue in rings && p in rings && p != ReadyQueue && (p.WaitQueue? ==> p.q in waitQueues)
    requires rings[ReadyQueue] != [] && Held(rings, p) != []
    ensures |rings[p]| > 1 && Held(rings, p)[0] == rings[p][1].item
    ensures TasksOn(With(Taken(rings, p), ReadyQueue, rings[p][1]), waitQueues, current, status[rings[p][1].item := Ready])
         == Apply(TasksOn(rings, waitQueues, current, status), if p == SleepWaitQueue then WakeSleeper else WakeWaiter(p.q))
  {
    HeldAfterTake(rings, p);
    HeldAfterPut(Taken(rings, p), ReadyQueue, rings[p][1]);
    WaitsChange(rings, With(Taken(rings, p), ReadyQueue, rings[p][1]), waitQueues, p);
  }

  function Pids(pcbs: set<Node>): set<Tid> { set n | n in pcbs :: n.item }

  function Exits(pcbs: set<Node>): map<Tid, Status> { map t | t in Pids(pcbs) :: Exited }

  lemma ExitedArePlaced(waitQueues: set<QueueId>, pcbs: set<Node>)
    ensures Placed(Tasks(None, [], [], map q | q in waitQueues :: [], Exits(pcbs)))
  {
  }

  ghost function Fresh(queues: map<Place, Node>): Rings { map p | p in queues :: [queues[p]] }

  lemma FreshIsShaped(queues: map<Place, Node>, waitQueues: set<QueueId>, pcbs: set<Node>)
    requires ReadyQueue in queues && SleepWaitQueue in queues && forall q :: WaitQueue(q) in queues <==> q in waitQueues
    requires forall p, p' :: p in queues && p' in queues && p != p' ==> queues[p] != queues[p']
    requires forall p :: p in queues ==> queues[p] !in pcbs
    ensures Shaped(Fresh(queues), queues.Values + pcbs, queues, waitQueues) && Apart(Fresh(queues))
    ensures forall n :: n in pcbs ==> OnNone(Fresh(queues), n)
    ensures TasksOn(Fresh(queues), waitQueues, None, Exits(pcbs))
         == Tasks(None, [], [], map q | q in waitQueues :: [], Exits(pcbs))
  {
    forall p ensures Held(Fresh(queues), p) == [] { }
  }

  method InitQueues(queues: map<Place, Node>)
    requires forall p, p' :: p in queues && p' in queues && p != p' ==> queues[p] != queues[p']
    modifies queues.Values
    ensures forall p :: p in queues ==> R.Ring([queues[p]])
  {
    var todo := queues.Keys;
    while todo != {}
      invariant todo <= queues.Keys && forall p :: p in queues && p !in todo ==> R.Ring([queues[p]])
    {
      var p :| p in todo;
      R.QueueInit(queues[p]);
      todo := todo - {p};
    }
  }

  class Scheduler {
    var current: R.Node?<Tid>
    const queues: map<Place, Node> // the sentinels
    const waitQueues: set<QueueId>
    ghost const nodes: set<Node>   // the sentinels and the nodes of all pcbs
    var status: map<Tid, Status>
    var deadline: map<Tid, int>
    var timeElapsed: nat
    ghost var rings: Rings

    /** Every queue is a ring behind its sentinel, and no node is on two queues. */
    ghost predicate Sound()
      reads this`rings, nodes
    {
      Shaped(rings, nodes, queues, waitQueues) && Apart(rings) && forall p :: p in rings ==> R.Ring(rings[p])
    }

    ghost predicate Valid()
      reads this`rings, this`current, nodes
    {
      Sound() && (current != null ==> current in nodes && OnNone(rings, current))
    }

    ghost function Abs(): RoundRobin.Kernel
      reads this
    {
      RoundRobin.Kernel(TasksOn(rings, waitQueues, if current == null then None else Some(current.item), status), deadline, timeElapsed)
    }

    /** queue_init() of every sentinel; every pcb is marked EXITED, and nothing is queued. */
    constructor (queues: map<Place, Node>, waitQueues: set<QueueId>, pcbs: set<Node>)
      requires ReadyQueue in queues && SleepWaitQueue in queues && forall q :: WaitQueue(q) in queues <==> q in waitQueues
      requires forall p, p' :: p in queues && p' in queues && p != p' ==> queues[p] != queues[p']
      requires forall p :: p in queues ==> queues[p] !in pcbs
      requires forall n, n' :: n in pcbs && n' in pcbs && n.item == n'.item ==> n == n'
      modifies queues.Values
      ensures Valid() && current == null && nodes == queues.Values + pcbs && forall n :: n in pcbs ==> OnNone(rings, n)
      ensures Abs() == RoundRobin.Kernel(Tasks(None, [], [], map q | q in waitQueues :: [], Exits(pcbs)), map[], 0)
      ensures Placed(Abs().tasks)
    {
      InitQueues(queues);
      current, this.queues, this.waitQueues, nodes := null, queues, waitQueues, queues.Values + pcbs;
      this.status, deadline, timeElapsed := Exits(pcbs), map[], 0;
      rings := Fresh(queues);
      new;
      FreshIsShaped(queues, waitQueues, pcbs);
      ExitedArePlaced(waitQueues, pcbs);
    }

    // ---------- one queue at a time ----------

    method Put(p: Place, node: Node)
      requires Sound() && p in rings && node in nodes && OnNone(rings, node)
      modifies this`rings, nodes
      ensures Sound() && rings == old(With(rings, p, node))
    {
      WithIsApart(rings, p, node);
      OthersAreRings(rings, p);
      R.EnqueueAmong(queues[p], node, rings[p], Others(rings, p));
      OthersAreRings(rings, p);
      rings := With(rings, p, node);
    }

    /** The first node of queue p, which leaves it; null when it is empty. */
    method TakeHead(p: Place) returns (node: R.Node?<Tid>)
      requires Sound() && p in rings
      modifies this`rings, nodes
      ensures Sound()
      ensures |old(rings[p])| == 1 ==> node == null && rings == old(rings)
      ensures |old(rings[p])| > 1 ==> node == old(rings[p][1]) && rings == old(Taken(rings, p))
                                      && node in nodes && OnNone(rings, node)
    {
      node := UnlinkHead(p);
      if node != null {
        TakenIsApart(rings, p);
        TakenIsShaped(rings, nodes, queues, waitQueues, p);
        rings := Taken(rings, p);
      }
    }

    method UnlinkHead(p: Place) returns (node: R.Node?<Tid>)
      requires Sound() && p in rings
      modifies nodes
      ensures forall p' :: p' in rings && p' != p ==> R.Ring(rings[p'])
      ensures |rings[p]| == 1 ==> node == null && R.Ring(rings[p])
      ensures |rings[p]| > 1 ==> node == rings[p][1] && R.Ring(RemoveAt(rings[p], 1)) && NoDup(rings[p])
    {
      if |rings[p]| > 1 { TakenIsApart(rings, p); }
      OthersAreRings(rings, p);
      node := R.DequeueAmong(queues[p], rings[p], Others(rings, p));
      OthersAreRings(rings, p);
    }

    /** enqueue(&ready_queue, dequeue(...)) */
    method MoveToReady(p: Place) returns (node: Node)
      requires Sound() && p in rings && p != ReadyQueue && |rings[p]| > 1
      modifies this`rings, nodes
      ensures Sound() && node == old(rings[p][1]) && rings == old(With(Taken(rings, p), ReadyQueue, rings[p][1]))
    {
      node := TakeHead(p);
      Put(ReadyQueue, node);
    }

    method First(p: Place) returns (node: R.Node?<Tid>)
      requires Sound() && p in rings
      ensures node == null <==> Held(rings, p) == []
      ensures node != null ==> node.item == Held(rings, p)[0]
    {
      node := R.Peek(queues[p], rings[p]);
    }

    // ---------- the functions of scheduler.c ----------

    /** The head of the sleep queue or of a wait queue becomes ready. */
    method Wake(p: Place)
      requires Sound() && p in rings && p != ReadyQueue && Held(rings, p) != []
      modifies this`rings, this`status, nodes
      ensures Sound() && |old(rings[p])| > 1 && rings == old(With(Taken(rings, p), ReadyQueue, rings[p][1]))
      ensures Abs() == old(Abs()).(tasks := Apply(old(Abs()).tasks, if p == SleepWaitQueue then WakeSleeper else WakeWaiter(p.q)))
    {
      WakeOnRings(rings, waitQueues, p, Abs().tasks.current, status);
      var node := MoveToReady(p);
      status := status[node.item := Ready];
    }

    method CheckSleeping()
      requires Sound()
      modifies this`rings, this`status, nodes
      ensures Sound() && Abs() == RoundRobin.CheckSleeping(old(Abs()))
    {
      var sleeping := First(SleepWaitQueue);
      while sleeping != null && Field(deadline, sleeping.item) <= timeElapsed
        invariant Sound() && RoundRobin.CheckSleeping(Abs()) == RoundRobin.CheckSleeping(old(Abs()))
        invariant sleeping == null <==> Held(rings, SleepWaitQueue) == []
        invariant sleeping != null ==> sleeping.item == Held(rings, SleepWaitQueue)[0]
        decreases |Held(rings, SleepWaitQueue)|
      {
        Wake(SleepWaitQueue);
        sleeping := First(SleepWaitQueue);
      }
    }

    /** The running pcb goes to the end of queue p: put_current_running(), and the first halves of do_sleep() and
        block(). */
    method Leave(p: Place)
      requires Valid() && current != null && p in rings
      modifies this`rings, this`status, this`current, nodes
      ensures Sound() && current == null
      ensures Abs() == old(Abs()).(tasks := Apply(old(Abs()).tasks, Arrival(p, old(Abs()).tasks)))
    {
      var running := current;
      PutOnRings(rings, waitQueues, p, running, status);
      current, status := null, status[running.item := StatusOn(p)];
      Put(p, running);
    }

    /** scheduler(), watched for at most `window` ticks of its idle loop. */
    method SchedulerEntry(window: nat)
      requires Sound() && current == null
      modifies this`rings, this`status, this`current, this`timeElapsed, nodes
      ensures Valid() && Abs() == Schedule(old(Abs()), window)
    {
      ghost var k := Idle(window);
      RunFirst();
    }

    /** check_sleeping(), and whether nobody is ready then. */
    method Look() returns (empty: bool)
      requires Sound()
      modifies this`rings, this`status, nodes
      ensures Sound() && Abs() == RoundRobin.CheckSleeping(old(Abs())) && empty == (Abs().tasks.ready == [])
    {
      CheckSleeping();
      var first := First(ReadyQueue);
      empty := first == null;
    }

    /** scheduler() up to where a pcb is chosen; k is the kernel as of the last tick. */
    method Idle(window: nat) returns (ghost k: RoundRobin.Kernel)
      requires Sound() && current == null
      modifies this`rings, this`status, this`timeElapsed, nodes
      ensures Sound() && k.tasks.current.None? && Abs() == RoundRobin.CheckSleeping(k)
      ensures Step(k, RoundRobin.Dispatch) == Schedule(old(Abs()), window)
    {
      ghost var goal := Schedule(Abs(), window);
      var ticks := 0;
      k := Abs();
      var empty := Look();
      ghost var a := Abs();
      while empty && ticks < window
        invariant ticks <= window && Sound() && k.tasks.current.None? && a == Abs() && a == RoundRobin.CheckSleeping(k)
        invariant empty == (a.tasks.ready == []) && Schedule(k, window - ticks) == goal
        decreases window - ticks
      {
        ScheduleTurn(k, window - ticks);
        k := Step(a, Tick);
        empty := Turn();
        a := RoundRobin.CheckSleeping(k);
        ticks := ticks + 1;
      }
      ScheduleEnds(k, window - ticks);
    }

    /** A tick in the idle loop, and another look. */
    method Turn() returns (empty: bool)
      requires Sound()
      modifies this`rings, this`status, this`timeElapsed, nodes
      ensures Sound() && Abs() == RoundRobin.CheckSleeping(Step(old(Abs()), Tick)) && empty == (Abs().tasks.ready == [])
    {
      timeElapsed := timeElapsed + 1;
      empty := Look();
    }

    method RunFirst()
      requires Sound() && current == null
      modifies this`rings, this`current, nodes
      ensures Valid()
      ensures Abs() == if old(Abs()).tasks.ready == [] then old(Abs())
                       else old(Abs()).(tasks := Apply(old(Abs()).tasks, TakeReady(0)))
    {
      TakeOnRings(rings, waitQueues, status);
      current := TakeHead(ReadyQueue);
    }

    method PutCurrentRunning()
      requires Valid() && current != null
      modifies this`rings, this`status, this`current, nodes
      ensures Sound() && current == null && Abs() == Step(old(Abs()), Yield)
    {
      Leave(ReadyQueue);
    }

    method LeaveFor(q: QueueId)
      requires Valid() && current != null && q in waitQueues
      modifies this`rings, this`status, this`current, nodes
      ensures Sound() && current == null && Abs() == Step(old(Abs()), RoundRobin.Block(q))
    {
      Leave(WaitQueue(q));
    }

    method LeaveUntil(d: int)
      requires Valid() && current != null && timeElapsed < d
      modifies this`rings, this`status, this`current, this`deadline, nodes
      ensures Sound() && current == null && Abs() == PutToSleep(old(Abs()), d)
    {
      deadline := deadline[current.item := d];
      Leave(SleepWaitQueue);
    }

    /** do_yield(), and the preemption by timer_irq(). */
    method DoYield(window: nat)
      requires Valid() && current != null
      modifies this`rings, this`status, this`current, this`timeElapsed, nodes
      ensures Valid() && Abs() == Schedule(Step(old(Abs()), Yield), window)
    {
      PutCurrentRunning();
      SchedulerEntry(window);
    }

    method Block(q: QueueId, window: nat)
      requires Valid() && current != null && q in waitQueues
      modifies this`rings, this`status, this`current, this`timeElapsed, nodes
      ensures Valid() && Abs() == Schedule(Step(old(Abs()), RoundRobin.Block(q)), window)
    {
      LeaveFor(q);
      SchedulerEntry(window);
    }

    /** unblock_one() of sync.c with unblock(). */
    method UnblockOne(q: QueueId) returns (woke: bool)
      requires Valid() && current != null && q in waitQueues
      modifies this`rings, this`status, nodes
      ensures Valid() && Abs() == Step(old(Abs()), Unblock(q)) && woke == (old(Held(rings, WaitQueue(q))) != [])
    {
      var pcb := First(WaitQueue(q));
      woke := pcb != null;
      if woke {
        if |rings[WaitQueue(q)]| > 1 { WokenOnNone(rings, WaitQueue(q), current); }
        Wake(WaitQueue(q));
      }
    }

    method DoSleep(milliseconds: int, window: nat)
      requires Valid() && current != null
      modifies this`rings, this`status, this`current, this`deadline, this`timeElapsed, nodes
      ensures Valid()
      ensures var k := Step(old(Abs()), Sleep(milliseconds));
              Abs() == if k.tasks.current.None? then Schedule(k, window) else k
    {
      var d := WakeTime(timeElapsed, milliseconds);
      if d > timeElapsed {
        LeaveUntil(d);
        SchedulerEntry(window);
      } else {
        deadline := deadline[current.item := d];
      }
    }

    /** The end of do_spawn(): an EXITED pcb, on no queue, is given to a new process. */
    method Start(pcb: Node)
      requires Valid() && pcb in nodes && OnNone(rings, pcb) && pcb != current
      requires pcb.item in status && status[pcb.item] == Exited
      modifies this`rings, this`status, nodes
      ensures Valid() && Abs() == Step(old(Abs()), Event.Start(pcb.item))
    {
      HeldAfterPut(rings, ReadyQueue, pcb);
      WaitsChange(rings, With(rings, ReadyQueue, pcb), waitQueues, ReadyQueue);
      status := status[pcb.item := FirstTime];
      Put(ReadyQueue, pcb);
    }

    method DoExit(window: nat)
      requires Valid() && current != null
      modifies this`rings, this`status, this`current, this`timeElapsed, nodes
      ensures Valid() && Abs() == Schedule(Step(old(Abs()), Exit), window)
    {
      status := status[current.item := Exited];
      current := null;
      SchedulerEntry(window);
    }
  }
}
