/** One semaphore under any sequence of semaphore_up() and semaphore_down() calls. */
module Semaphores {
  import opened Seqs
  import opened Placement
  import opened Primitives

  datatype Call = CallDown(t: Tid) | CallUp

  /** The semaphore with the history of its calls: who asked, and who was let through, in order. */
  datatype History = History(sem: Semaphore, asked: seq<Tid>, granted: seq<Tid>, ups: nat)

  function Start(value: int): History {
    History(Semaphore(value, []), [], [], 0)
  }

  function Step(h: History, c: Call): History {
    match c
    case CallDown(t) =>
      var (sem, blocked) := Down(h.sem, t);
      History(sem, h.asked + [t], if blocked then h.granted else h.granted + [t], h.ups)
    case CallUp =>
      var (sem, woken) := Up(h.sem);
      History(sem, h.asked, if woken.Some? then h.granted + [woken.value] else h.granted, h.ups + 1)
  }

  function Exec(value: int, calls: seq<Call>): History {
    if calls == [] then Start(value) else Step(Exec(value, calls[..|calls| - 1]), calls[|calls| - 1])
  }

  /** Units are conserved, the counter never goes below zero, nobody waits while a unit is free, and downs are
      granted in the order they were asked for. */
  ghost predicate Conserved(h: History, value: int) {
    && value + h.ups == h.sem.value + |h.granted|
    && 0 <= h.sem.value
    && (h.sem.queue != [] ==> h.sem.value == 0)
    && h.asked == h.granted + h.sem.queue
  }

  lemma {:induction false} EveryRunConserves(value: int, calls: seq<Call>)
    requires 0 <= value
    ensures Conserved(Exec(value, calls), value)
  {
    if calls != [] {
      var h := Exec(value, calls[..|calls| - 1]);
      EveryRunConserves(value, calls[..|calls| - 1]);
      var h' := Exec(value, calls);
      match calls[|calls| - 1] {
        case CallDown(t) =>
          assert h'.asked == h.granted + (h.sem.queue + [t]);
          if h.sem.value > 0 { assert h.sem.queue == []; }
        case CallUp =>
          if h.sem.queue != [] { assert h.sem.queue == [h.sem.queue[0]] + h.sem.queue[1..]; }
      }
    }
  }

  /** With an initial value of 1 the grants outnumber the completed ups by at most one: mutual exclusion when
      every holder ups once. */
  lemma AtMostValueInside(value: int, calls: seq<Call>)
    requires 0 <= value
    ensures |Exec(value, calls).granted| <= value + Exec(value, calls).ups
  {
    EveryRunConserves(value, calls);
  }

  // ---------- the history is that of the calls ----------

  function DownsOf(calls: seq<Call>): seq<Tid> {
    if calls == [] then []
    else DownsOf(calls[..|calls| - 1]) + if calls[|calls| - 1].CallDown? then [calls[|calls| - 1].t] else []
  }

  /** Every down has been granted or waits, in the order of the calls; nobody waits while a unit is left; and units are
      neither made nor lost: what the initial value and the ups give is in the grants and the counter. */
  lemma {:induction false} HistoryIsOfCalls(value: int, calls: seq<Call>)
    requires 0 <= value
    ensures var h, ups := Exec(value, calls), |calls| - |DownsOf(calls)|;
      && DownsOf(calls) == h.granted + h.sem.queue && h.ups == ups
      && |h.granted| == if |DownsOf(calls)| <= value + ups then |DownsOf(calls)| else value + ups
  {
    EveryRunConserves(value, calls);
    AskedIsOfCalls(value, calls);
  }

  lemma {:induction false} AskedIsOfCalls(value: int, calls: seq<Call>)
    ensures Exec(value, calls).asked == DownsOf(calls) && Exec(value, calls).ups == |calls| - |DownsOf(calls)|
  {
    if calls != [] { AskedIsOfCalls(value, calls[..|calls| - 1]); }
  }
}
