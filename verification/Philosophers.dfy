/** The dining philosophers of philosophers.c, for any number n >= 2 of them (the source has 3).
    A step is what one philosopher does between two points where another thread may be scheduled, or less:
    every statement that touches the shared forks or eating[] is a step of its own, and any philosopher that is
    not blocked may take the next step. Thinking, eating and printing times are left free. */
module Philosophers {
  import opened Seqs
  import opened Placement
  import opened Primitives

  datatype Pc =
    | NotStarted  // before the forks_initialized handshake
    | Thinking    // about to down the first fork
    | Blocked1    // waiting for the first fork
    | Got1        // about to down the second fork
    | Blocked2    // waiting for the second fork
    | Got2        // about to set eating[id]
    | Eating      // about to check the assertions and clear eating[id]
    | Ate         // about to up the first fork
    | Upped1      // about to up the second fork

  datatype Table = Table(pc: seq<Pc>, fork: seq<Semaphore>, eating: seq<bool>, forksInitialized: bool)

  predicate WellFormed(s: Table, n: nat) {
    2 <= n && |s.pc| == n && |s.fork| == n && |s.eating| == n
  }

  /** The lower and the higher of a philosopher's two forks, in the order they are taken. */
  function First(id: nat): nat { if id == 0 then 0 else id - 1 }
  function Second(id: nat, n: nat): nat
    requires 1 <= n
  {
    if id == 0 then n - 1 else id
  }

  predicate IsBlocked(pc: Pc) { pc == Blocked1 || pc == Blocked2 }

  function Init(n: nat): Table {
    Table(seq(n, _ => NotStarted), seq(n, _ => Semaphore(0, [])), seq(n, _ => false), false)
  }

  /** Philosopher id can take a step that gets it somewhere. */
  predicate CanMove(s: Table, id: nat) {
    id < |s.pc| && !IsBlocked(s.pc[id]) && (s.pc[id] == NotStarted ==> id == 0 || s.forksInitialized)
  }

  function DownFork(s: Table, id: nat, k: nat, blocked: Pc, got: Pc): Table
    requires id < |s.pc| && k < |s.fork|
  {
    var (f, waits) := Down(s.fork[k], id);
    s.(fork := s.fork[k := f], pc := s.pc[id := if waits then blocked else got])
  }

  function UpFork(s: Table, id: nat, k: nat, next: Pc): Table
    requires id < |s.pc| && k < |s.fork|
  {
    var (f, woken) := Up(s.fork[k]);
    var s1 := s.(fork := s.fork[k := f], pc := s.pc[id := next]);
    if woken.Some? && woken.value < |s.pc|
    then s1.(pc := s1.pc[woken.value := if s1.pc[woken.value] == Blocked1 then Got1 else Got2])
    else s1
  }

  function Step(s: Table, id: nat): Table
    requires WellFormed(s, |s.pc|) && CanMove(s, id)
  {
    var n := |s.pc|;
    match s.pc[id]
    case NotStarted =>
      if id == 0 then s.(fork := seq(n, _ => Semaphore(1, [])), forksInitialized := true, pc := s.pc[id := Thinking])
      else s.(pc := s.pc[id := Thinking])
    case Thinking => DownFork(s, id, First(id), Blocked1, Got1)
    case Got1 => DownFork(s, id, Second(id, n), Blocked2, Got2)
    case Got2 => s.(eating := s.eating[id := true], pc := s.pc[id := Eating])
    case Eating => s.(eating := s.eating[id := false], pc := s.pc[id := Ate])
    case Ate => UpFork(s, id, First(id), Upped1)
    case Upped1 => UpFork(s, id, Second(id, n), Thinking)
    case _ => s
  }

  ghost predicate IsRun(ss: seq<Table>, ids: seq<nat>, n: nat) {
    && |ss| == |ids| + 1 && ss[0] == Init(n)
    && forall i :: 0 <= i < |ids| ==>
      WellFormed(ss[i], |ss[i].pc|) && CanMove(ss[i], ids[i]) && ss[i + 1] == Step(ss[i], ids[i])
  }

  // ---------- who has and who wants a fork ----------

  datatype Role = Free | Holds | Waits

  function RoleOf(pc: Pc, id: nat, k: nat, n: nat): Role
    requires 2 <= n
  {
    if k == First(id) then
      (if pc == Blocked1 then Waits else if pc in {Got1, Blocked2, Got2, Eating, Ate} then Holds else Free)
    else if k == Second(id, n) then
      (if pc == Blocked2 then Waits else if pc in {Got2, Eating, Ate, Upped1} then Holds else Free)
    else Free
  }

  function RoleAt(s: Table, id: nat, k: nat): Role
    requires WellFormed(s, |s.pc|) && id < |s.pc|
  {
    RoleOf(s.pc[id], id, k, |s.pc|)
  }

  /** Fork k is free with nobody waiting, or held by exactly one philosopher; its queue holds those who wait. */
  ghost predicate ForkOk(s: Table, k: nat)
    requires WellFormed(s, |s.pc|) && k < |s.pc|
  {
    && 0 <= s.fork[k].value <= 1
    && (s.fork[k].value == 1 ==> s.fork[k].queue == [] && forall j :: 0 <= j < |s.pc| ==> RoleAt(s, j, k) != Holds)
    && (s.fork[k].value == 0 ==> exists j :: 0 <= j < |s.pc| && RoleAt(s, j, k) == Holds)
    && (forall i, j :: 0 <= i < |s.pc| && 0 <= j < |s.pc| && RoleAt(s, i, k) == Holds && RoleAt(s, j, k) == Holds ==> i == j)
    && NoDup(s.fork[k].queue)
    && (forall j: nat :: j in s.fork[k].queue <==> j < |s.pc| && RoleAt(s, j, k) == Waits)
  }

  ghost predicate Inv(s: Table, n: nat) {
    && WellFormed(s, n)
    && (forall i :: 0 <= i < n ==> (s.eating[i] <==> s.pc[i] == Eating))
    && (!s.forksInitialized ==> forall i :: 0 <= i < n ==> s.pc[i] == NotStarted)
    && (s.forksInitialized ==> s.pc[0] != NotStarted && forall k :: 0 <= k < n ==> ForkOk(s, k))
  }

  // ---------- preservation ----------

  /** Only id changed its role, and only towards fork k. */
  lemma OtherForksKeep(s: Table, s': Table, k: nat, j: nat)
    requires WellFormed(s, |s.pc|) && WellFormed(s', |s.pc|) && j < |s.pc| && ForkOk(s, j)
    requires s'.fork[j] == s.fork[j]
    requires forall i :: 0 <= i < |s.pc| ==> RoleAt(s', i, j) == RoleAt(s, i, j)
    ensures ForkOk(s', j)
  {
    if s.fork[j].value == 0 {
      var h :| 0 <= h < |s.pc| && RoleAt(s, h, j) == Holds;
      assert RoleAt(s', h, j) == Holds;
    }
  }

  lemma DownKeeps(s: Table, id: nat, k: nat, blocked: Pc, got: Pc)
    requires WellFormed(s, |s.pc|) && id < |s.pc| && k < |s.pc|
    requires forall j :: 0 <= j < |s.pc| ==> ForkOk(s, j)
    requires RoleAt(s, id, k) == Free
    requires RoleOf(blocked, id, k, |s.pc|) == Waits && RoleOf(got, id, k, |s.pc|) == Holds
    requires forall j :: j != k ==> RoleOf(blocked, id, j, |s.pc|) == RoleOf(got, id, j, |s.pc|) == RoleAt(s, id, j)
    ensures var s' := DownFork(s, id, k, blocked, got);
            forall j :: 0 <= j < |s.pc| ==> ForkOk(s', j)
  {
    var s' := DownFork(s, id, k, blocked, got);
    assert forall i, j: nat | 0 <= i < |s.pc| && i != id :: RoleAt(s', i, j) == RoleAt(s, i, j);
    forall j | 0 <= j < |s.pc| ensures ForkOk(s', j) {
      assert ForkOk(s, j);
      if j != k {
        OtherForksKeep(s, s', k, j);
      } else if s.fork[k].value <= 0 {
        Appended(s.fork[k].queue, id);
        var h :| 0 <= h < |s.pc| && RoleAt(s, h, k) == Holds;
        assert RoleAt(s', h, k) == Holds;
      } else {
        assert RoleAt(s', id, k) == Holds;
      }
    }
  }

  /** The waiter that gets the fork moves on to the point after its semaphore_down(). */
  lemma WokenRole(pc: Pc, p: nat, k: nat, n: nat)
    requires 2 <= n && p < n && RoleOf(pc, p, k, n) == Waits
    ensures var pc' := if pc == Blocked1 then Got1 else Got2;
            RoleOf(pc', p, k, n) == Holds && forall j :: j != k ==> RoleOf(pc', p, j, n) == RoleOf(pc, p, j, n)
  {
  }

  /** What an up of fork k by its holder does to everybody's roles. */
  ghost predicate UpRoles(s: Table, s': Table, id: nat, k: nat)
    requires WellFormed(s, |s.pc|) && id < |s.pc| && k < |s.pc|
  {
    var q := s.fork[k].queue;
    && WellFormed(s', |s.pc|) && RoleAt(s', id, k) == Free
    && s'.fork == s.fork[k := s'.fork[k]]
    && (forall i, j: nat :: 0 <= i < |s.pc| && j != k ==> RoleAt(s', i, j) == RoleAt(s, i, j))
    && (q == [] ==> s'.fork[k] == Semaphore(1, [])
                    && forall i :: 0 <= i < |s.pc| && i != id ==> RoleAt(s', i, k) == RoleAt(s, i, k))
    && (q != [] ==> s'.fork[k] == Semaphore(0, q[1..]) && q[0] < |s.pc| && RoleAt(s', q[0], k) == Holds
                    && forall i :: 0 <= i < |s.pc| && i != id && i != q[0] ==> RoleAt(s', i, k) == RoleAt(s, i, k))
  }

  lemma UpHasRoles(s: Table, id: nat, k: nat, next: Pc)
    requires WellFormed(s, |s.pc|) && id < |s.pc| && k < |s.pc| && ForkOk(s, k)
    requires RoleAt(s, id, k) == Holds && RoleOf(next, id, k, |s.pc|) == Free
    requires forall j :: j != k ==> RoleOf(next, id, j, |s.pc|) == RoleAt(s, id, j)
    ensures UpRoles(s, UpFork(s, id, k, next), id, k)
  {
    var q := s.fork[k].queue;
    if q != [] {
      var p := q[0];
      assert p in q && RoleAt(s, p, k) == Waits;
      WokenRole(s.pc[p], p, k, |s.pc|);
    }
  }

  lemma UpRolesKeepFork(s: Table, s': Table, id: nat, k: nat)
    requires WellFormed(s, |s.pc|) && id < |s.pc| && k < |s.pc| && ForkOk(s, k)
    requires RoleAt(s, id, k) == Holds && UpRoles(s, s', id, k)
    ensures ForkOk(s', k)
  {
    var q := s.fork[k].queue;
    if q != [] {
      Dropped(q);
      assert q[0] in q;
    }
  }

  lemma UpKeeps(s: Table, id: nat, k: nat, next: Pc)
    requires WellFormed(s, |s.pc|) && id < |s.pc| && k < |s.pc|
    requires forall j :: 0 <= j < |s.pc| ==> ForkOk(s, j)
    requires RoleAt(s, id, k) == Holds && RoleOf(next, id, k, |s.pc|) == Free
    requires forall j :: j != k ==> RoleOf(next, id, j, |s.pc|) == RoleAt(s, id, j)
    ensures var s' := UpFork(s, id, k, next);
            UpRoles(s, s', id, k) && forall j :: 0 <= j < |s.pc| ==> ForkOk(s', j)
  {
    var s' := UpFork(s, id, k, next);
    assert ForkOk(s, k);
    UpHasRoles(s, id, k, next);
    forall j | 0 <= j < |s.pc| ensures ForkOk(s', j) {
      assert ForkOk(s, j);
      if j != k { OtherForksKeep(s, s', k, j); } else { UpRolesKeepFork(s, s', id, k); }
    }
  }

  lemma StartKeeps(s: Table, id: nat, n: nat)
    requires Inv(s, n) && CanMove(s, id) && s.pc[id] == NotStarted
    ensures Inv(Step(s, id), n)
  {
    if id == 0 { FirstStartKeeps(s, n); } else { LaterStartKeeps(s, id, n); }
  }

  lemma FirstStartKeeps(s: Table, n: nat)
    requires Inv(s, n) && CanMove(s, 0) && s.pc[0] == NotStarted
    ensures Inv(Step(s, 0), n)
  {
    var s' := Step(s, 0);
    forall k: nat | k < n ensures ForkOk(s', k) { FreshForkOk(s', k); }
  }

  lemma FreshForkOk(s: Table, k: nat)
    requires WellFormed(s, |s.pc|) && k < |s.pc| && s.fork[k] == Semaphore(1, [])
    requires forall i :: 0 <= i < |s.pc| ==> s.pc[i] == NotStarted || s.pc[i] == Thinking
    ensures ForkOk(s, k)
  {
    assert forall i :: 0 <= i < |s.pc| ==> RoleAt(s, i, k) == Free;
  }

  lemma LaterStartKeeps(s: Table, id: nat, n: nat)
    requires Inv(s, n) && CanMove(s, id) && s.pc[id] == NotStarted && id != 0
    ensures Inv(Step(s, id), n)
  {
    var s' := Step(s, id);
    if s.forksInitialized {
      forall k | 0 <= k < n ensures ForkOk(s', k) { OtherForksKeep(s, s', k, k); }
    }
  }

  lemma StepKeeps(s: Table, id: nat, n: nat)
    requires Inv(s, n) && CanMove(s, id)
    ensures Inv(Step(s, id), n)
  {
    match s.pc[id] {
      case NotStarted => StartKeeps(s, id, n);
      case Thinking => DownKeeps(s, id, First(id), Blocked1, Got1);
      case Got1 => DownKeeps(s, id, Second(id, n), Blocked2, Got2);
      case Got2 => EatingKeeps(s, id, n);
      case Eating => EatingKeeps(s, id, n);
      case Ate => UpStepKeeps(s, id, n, First(id), Upped1);
      case Upped1 => UpStepKeeps(s, id, n, Second(id, n), Thinking);
      case _ =>
    }
  }

  lemma EatingKeeps(s: Table, id: nat, n: nat)
    requires Inv(s, n) && CanMove(s, id) && (s.pc[id] == Got2 || s.pc[id] == Eating)
    ensures Inv(Step(s, id), n)
  {
    var s' := Step(s, id);
    forall k | 0 <= k < n ensures ForkOk(s', k) {
      assert ForkOk(s, k);
      OtherForksKeep(s, s', k, k);
    }
  }

  lemma UpStepKeeps(s: Table, id: nat, n: nat, k: nat, next: Pc)
    requires Inv(s, n) && CanMove(s, id)
    requires (s.pc[id] == Ate && k == First(id) && next == Upped1) || (s.pc[id] == Upped1 && k == Second(id, n) && next == Thinking)
    ensures Inv(UpFork(s, id, k, next), n)
  {
    assert ForkOk(s, k);
    UpKeeps(s, id, k, next);
    UpKeepsEaters(s, id, n, k, next);
  }

  /** Neither the one who puts a fork back nor the one who gets it starts or stops eating by that. */
  lemma UpKeepsEaters(s: Table, id: nat, n: nat, k: nat, next: Pc)
    requires WellFormed(s, n) && id < n && k < n && ForkOk(s, k)
    requires s.pc[id] != Eating && next != Eating && next != NotStarted
    ensures var s' := UpFork(s, id, k, next);
      && s'.eating == s.eating && s'.forksInitialized == s.forksInitialized && WellFormed(s', n)
      && forall i :: 0 <= i < n ==> (s'.pc[i] == Eating <==> s.pc[i] == Eating) && (s'.pc[i] == NotStarted ==> s.pc[i] == NotStarted)
  {
    var q := s.fork[k].queue;
    if q != [] { assert q[0] in q && RoleAt(s, q[0], k) == Waits; }
  }

  lemma {:induction false} EveryRunKeeps(ss: seq<Table>, ids: seq<nat>, n: nat, i: nat)
    requires 2 <= n && IsRun(ss, ids, n) && i < |ss|
    ensures Inv(ss[i], n)
  {
    if i > 0 {
      EveryRunKeeps(ss, ids, n, i - 1);
      StepKeeps(ss[i - 1], ids[i - 1], n);
    }
  }

  // ---------- safety ----------

  /** Two different philosophers that share fork k are never both eating. */
  lemma EatersShareNoFork(s: Table, n: nat, i: nat, j: nat, k: nat)
    requires Inv(s, n) && i < n && j < n && s.eating[i] && s.eating[j]
    requires (k == First(i) || k == Second(i, n)) && (k == First(j) || k == Second(j, n))
    ensures i == j
  {
    assert ForkOk(s, k);
    assert RoleAt(s, i, k) == Holds && RoleAt(s, j, k) == Holds;
  }

  lemma Neighbours(id: nat, n: nat)
    requires 2 <= n && id < n
    ensures (id + 1) % n == if id + 1 == n then 0 else id + 1
    ensures (id - 1 + n) % n == if id == 0 then n - 1 else id - 1
  {
    if id + 1 == n { ModIs(id + 1, n, 1, 0); } else { ModIs(id + 1, n, 0, id + 1); }
    if id == 0 { ModIs(id - 1 + n, n, 0, n - 1); } else { ModIs(id - 1 + n, n, 1, id - 1); }
  }

  lemma NeighboursDoNotEat(s: Table, n: nat, id: nat)
    requires Inv(s, n) && id < n && s.eating[id]
    ensures !s.eating[if id + 1 == n then 0 else id + 1]
    ensures !s.eating[if id == 0 then n - 1 else id - 1]
  {
    var right := if id + 1 == n then 0 else id + 1;
    var left := if id == 0 then n - 1 else id - 1;
    if s.eating[right] { EatersShareNoFork(s, n, id, right, id); }
    if s.eating[left] { EatersShareNoFork(s, n, id, left, left); }
  }

  /** In every run, whenever a philosopher reaches its two ASSERTs, both of them hold. */
  lemma AssertionsHold(ss: seq<Table>, ids: seq<nat>, n: nat, i: nat, id: nat)
    requires 2 <= n && IsRun(ss, ids, n) && i < |ss| && id < n && WellFormed(ss[i], n)
    requires ss[i].pc[id] == Eating
    ensures !ss[i].eating[(id + 1) % n]
    ensures !ss[i].eating[(id - 1 + n) % n]
  {
    EveryRunKeeps(ss, ids, n, i);
    NeighboursDoNotEat(ss[i], n, id);
    Neighbours(id, n);
  }

  // ---------- no deadlock ----------

  /** The fork a blocked philosopher waits for. */
  function Wanted(s: Table, id: nat): nat
    requires WellFormed(s, |s.pc|) && id < |s.pc|
  {
    if s.pc[id] == Blocked1 then First(id) else Second(id, |s.pc|)
  }

  /** a waits for a fork that b has. */
  predicate WaitsFor(s: Table, a: nat, b: nat)
    requires WellFormed(s, |s.pc|)
  {
    a < |s.pc| && b < |s.pc| && IsBlocked(s.pc[a]) && RoleAt(s, b, Wanted(s, a)) == Holds
  }

  /** Each one waits for the next, and for a lower fork than the next one does. */
  ghost predicate Climbs(s: Table, chain: seq<nat>)
    requires WellFormed(s, |s.pc|)
  {
    |chain| >= 2 ==>
      && WaitsFor(s, chain[0], chain[1])
      && (IsBlocked(s.pc[chain[1]]) ==> Wanted(s, chain[0]) < Wanted(s, chain[1]))
      && Climbs(s, chain[1..])
  }

  /** Following the waits from a blocked philosopher climbs to higher and higher forks and ends, after at most
      n steps, at one that holds a fork and is not blocked. */
  lemma {:induction false} WaitsClimb(s: Table, n: nat, id: nat) returns (chain: seq<nat>)
    requires Inv(s, n) && s.forksInitialized && id < n && IsBlocked(s.pc[id])
    ensures 2 <= |chain| <= n - Wanted(s, id) + 1 && chain[0] == id
    ensures Climbs(s, chain)
    ensures chain[|chain| - 1] < n && CanMove(s, chain[|chain| - 1])
    decreases n - Wanted(s, id)
  {
    var k := Wanted(s, id);
    assert ForkOk(s, k);
    assert RoleAt(s, id, k) == Waits;
    var j :| 0 <= j < n && RoleAt(s, j, k) == Holds;
    if IsBlocked(s.pc[j]) {
      assert k == First(j) && k < Second(j, n);
      var rest := WaitsClimb(s, n, j);
      chain := [id] + rest;
      assert chain[1..] == rest;
    } else {
      chain := [id, j];
    }
  }

  /** In every reachable state some philosopher can move. */
  lemma NeverDeadlocked(ss: seq<Table>, ids: seq<nat>, n: nat, i: nat)
    requires 2 <= n && IsRun(ss, ids, n) && i < |ss|
    ensures exists id :: CanMove(ss[i], id)
  {
    EveryRunKeeps(ss, ids, n, i);
    var s := ss[i];
    if !s.forksInitialized || !IsBlocked(s.pc[0]) {
      assert CanMove(s, 0);
    } else {
      var chain := WaitsClimb(s, n, 0);
      assert CanMove(s, chain[|chain| - 1]);
    }
  }

  // ---------- somebody eats, again and again ----------

  /** How many steps of its own a philosopher can still take before it eats. */
  function Rank(pc: Pc): int {
    match pc
    case Eating => 6
    case Ate => 5
    case Upped1 => 4
    case NotStarted => 4
    case Thinking => 3
    case Blocked1 => 2
    case Got1 => 2
    case Blocked2 => 1
    case Got2 => 1
  }

  function Ranks(pc: seq<Pc>): seq<int> { seq(|pc|, i requires 0 <= i < |pc| => Rank(pc[i])) }

  /** Every step gets the philosopher somewhere, and getting a fork from a neighbour does not set anybody back. */
  lemma StepLowersRank(s: Table, id: nat, n: nat)
    requires Inv(s, n) && CanMove(s, id) && s.pc[id] != Got2
    ensures var s' := Step(s, id);
      && |s'.pc| == n && Rank(s'.pc[id]) < Rank(s.pc[id])
      && forall i :: 0 <= i < n && i != id ==> Rank(s'.pc[i]) == Rank(s.pc[i])
  {
    match s.pc[id]
    case Ate => UpKeepsRanks(s, id, First(id), Upped1, n);
    case Upped1 => UpKeepsRanks(s, id, Second(id, n), Thinking, n);
    case _ =>
  }

  lemma UpKeepsRanks(s: Table, id: nat, k: nat, next: Pc, n: nat)
    requires Inv(s, n) && id < n && k < n && RoleAt(s, id, k) == Holds && s.forksInitialized
    ensures var s' := UpFork(s, id, k, next);
      && |s'.pc| == n && s'.pc[id] == next && forall i :: 0 <= i < n && i != id ==> Rank(s'.pc[i]) == Rank(s.pc[i])
  {
    assert ForkOk(s, k);
    var q := s.fork[k].queue;
    if q != [] { assert q[0] in q && RoleAt(s, q[0], k) == Waits; }
  }

  lemma {:induction false} RanksSink(ss: seq<Table>, ids: seq<nat>, n: nat, i: nat, j: nat)
    requires 2 <= n && IsRun(ss, ids, n) && i <= j <= |ids|
    requires forall m :: i <= m < j ==> |ss[m].pc| == n && ids[m] < n && ss[m].pc[ids[m]] != Got2
    ensures Sum(Ranks(ss[j].pc)) + (j - i) <= Sum(Ranks(ss[i].pc))
  {
    if i < j {
      RanksSink(ss, ids, n, i, j - 1);
      var s, id := ss[j - 1], ids[j - 1];
      EveryRunKeeps(ss, ids, n, j - 1);
      StepLowersRank(s, id, n);
      var s' := Step(s, id);
      SumUpdate(Ranks(s.pc), id, Rank(s'.pc[id]));
      assert Ranks(s'.pc) == Ranks(s.pc)[id := Rank(s'.pc[id])];
    }
  }

  lemma RanksInRange(s: Table, n: nat)
    requires |s.pc| == n
    ensures n <= Sum(Ranks(s.pc)) <= 6 * n
  {
    SumBetween(Ranks(s.pc), 1, 6);
  }

  lemma WithoutMealsShort(ss: seq<Table>, ids: seq<nat>, n: nat, i: nat, j: nat)
    requires 2 <= n && IsRun(ss, ids, n) && i <= j <= |ids|
    requires forall m :: i <= m < j ==> |ss[m].pc| == n && ids[m] < n && ss[m].pc[ids[m]] != Got2
    ensures j - i <= 5 * n
  {
    RanksSink(ss, ids, n, i, j);
    EveryRunKeeps(ss, ids, n, i);
    EveryRunKeeps(ss, ids, n, j);
    RanksInRange(ss[i], n);
    RanksInRange(ss[j], n);
  }

  /** In any run, among any 5n + 1 consecutive steps there is one in which somebody begins to eat. */
  lemma MealsRecur(ss: seq<Table>, ids: seq<nat>, n: nat, i: nat, j: nat) returns (m: nat)
    requires 2 <= n && IsRun(ss, ids, n) && i <= j <= |ids| && 5 * n < j - i
    ensures i <= m < j && WellFormed(ss[m], n) && WellFormed(ss[m + 1], n) && ids[m] < n
    ensures !ss[m].eating[ids[m]] && ss[m + 1].eating[ids[m]]
  {
    m := i;
    EveryRunKeeps(ss, ids, n, m);
    while m < j && ss[m].pc[ids[m]] != Got2
      invariant i <= m <= j && Inv(ss[m], n)
      invariant forall l :: i <= l < m ==> |ss[l].pc| == n && ids[l] < n && ss[l].pc[ids[l]] != Got2
    {
      m := m + 1;
      EveryRunKeeps(ss, ids, n, m);
    }
    if m == j { WithoutMealsShort(ss, ids, n, i, j); }
    EveryRunKeeps(ss, ids, n, m + 1);
    MealBegins(ss[m], ids[m], n);
  }

  lemma MealBegins(s: Table, id: nat, n: nat)
    requires Inv(s, n) && CanMove(s, id) && s.pc[id] == Got2
    ensures !s.eating[id] && |Step(s, id).eating| == n && Step(s, id).eating[id]
  {
  }
}
