/** What each synchronisation call of sync.c does to its own object: the counter or flag and the wait queue.
    The second component of a result says who was blocked or woken. */
module Primitives {
  import opened Seqs
  import opened Placement

  datatype Lock = Lock(locked: bool, queue: seq<Tid>)
  datatype Semaphore = Semaphore(value: int, queue: seq<Tid>)
  datatype Barrier = Barrier(total: int, count: int, queue: seq<Tid>)

  /** lock_acquire_helper() when the deadlock walk does not refuse; true when t now waits. */
  function Acquire(l: Lock, t: Tid): (Lock, bool) {
    if l.locked then (l.(queue := l.queue + [t]), true) else (l.(locked := true), false)
  }

  /** lock_release_helper(): the lock goes straight to the first waiter. */
  function Release(l: Lock): (Lock, Option<Tid>) {
    if l.queue != [] then (l.(queue := l.queue[1..]), Some(l.queue[0])) else (l.(locked := false), None)
  }

  function Down(s: Semaphore, t: Tid): (Semaphore, bool) {
    if s.value <= 0 then (s.(queue := s.queue + [t]), true) else (s.(value := s.value - 1), false)
  }

  function Up(s: Semaphore): (Semaphore, Option<Tid>) {
    if s.value < 1 && s.queue != [] then (s.(queue := s.queue[1..]), Some(s.queue[0]))
    else (s.(value := s.value + 1), None)
  }

  /** barrier_wait() by t: the last one in releases all the others and goes on; anybody else waits. */
  function Arrive(b: Barrier, t: Tid): (Barrier, bool) {
    if b.count + 1 >= b.total then (b.(count := 0, queue := []), false)
    else (b.(count := b.count + 1, queue := b.queue + [t]), true)
  }
}
