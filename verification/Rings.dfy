/** queue.c: circular, doubly linked lists with a sentinel. The ghost sequence c lists the nodes of a ring in the
    order of their next links, the sentinel first; the queue's contents are c[1..]. */
module Rings {
  import opened Seqs

  class Node<T> {
    var prev: Node?<T>
    var next: Node?<T>
    const item: T // what the node is embedded in

    constructor (item: T)
      ensures this.item == item && prev == null && next == null
    {
      this.item := item;
      prev, next := null, null;
    }
  }

  function Succ(i: nat, n: nat): nat { if i + 1 == n then 0 else i + 1 }

  function Pred(i: nat, n: nat): nat
    requires i < n
  {
    if i == 0 then n - 1 else i - 1
  }

  function At<T>(c: seq<Node<T>>, i: nat): Node<T>
    requires i < |c|
  {
    c[i]
  }

  ghost predicate Linked<T>(c: seq<Node<T>>, i: nat)
    requires i < |c|
    reads c
  {
    c[i].next == c[Succ(i, |c|)] && c[i].prev == c[Pred(i, |c|)]
  }

  /** prev and next are each other's inverses all the way round, and no node occurs twice. */
  ghost predicate Ring<T>(c: seq<Node<T>>)
    reads c
  {
    c != [] && NoDup(c) && forall i: nat :: i < |c| ==> Linked(c, i)
  }

  /** Putting `item` before the node at position k; before the sentinel means at the end. */
  function Before<T>(c: seq<T>, k: nat, item: T): seq<T>
    requires k < |c|
  {
    InsertAt(c, if k == 0 then |c| else k, item)
  }

  method QueueInit<T>(queue: Node<T>)
    modifies queue
    ensures Ring([queue])
  {
    queue.prev := queue;
    queue.next := queue;
  }

  // ---------- insertion ----------

  /** The links of c[i] after `item` went between the predecessor of c[k] and c[k]. */
  ghost predicate InsertedAt<T>(c: seq<Node<T>>, k: nat, item: Node<T>, i: nat)
    requires k < |c| && i < |c|
    reads c
  {
    && c[i].next == (if i == Pred(k, |c|) then item else c[Succ(i, |c|)])
    && c[i].prev == (if i == k then item else c[Pred(i, |c|)])
  }

  lemma InsertedLink<T>(c: seq<Node<T>>, k: nat, item: Node<T>, i: nat)
    requires k < |c| && i <= |c| && item.next == c[k] && item.prev == c[Pred(k, |c|)]
    requires forall j: nat :: j < |c| ==> InsertedAt(c, k, item, j)
    ensures Linked(Before(c, k, item), i)
  {
    var m := if k == 0 then |c| else k;
    var n := |c| + 1;
    InsertAtIndex(c, m, item, i);
    InsertAtIndex(c, m, item, Succ(i, n));
    InsertAtIndex(c, m, item, Pred(i, n));
    if i < m { assert InsertedAt(c, k, item, i); }
    if i > m { assert InsertedAt(c, k, item, i - 1); }
  }

  lemma InsertedIsRing<T>(c: seq<Node<T>>, k: nat, item: Node<T>)
    requires NoDup(c) && item !in c && k < |c| && item.next == c[k] && item.prev == c[Pred(k, |c|)]
    requires forall i: nat :: i < |c| ==> InsertedAt(c, k, item, i)
    ensures Ring(Before(c, k, item))
  {
    InsertAtKeepsNoDup(c, if k == 0 then |c| else k, item);
    forall i: nat | i <= |c| ensures Linked(Before(c, k, item), i) { InsertedLink(c, k, item, i); }
  }

  /** enqueue(): `queue` may be the sentinel or any other node of the ring. */
  method Enqueue<T>(queue: Node<T>, item: Node<T>, ghost c: seq<Node<T>>, ghost k: nat)
    requires Ring(c) && k < |c| && c[k] == queue && item !in c
    modifies item`prev, item`next, queue`prev, At(c, Pred(k, |c|))`next
    ensures Ring(Before(c, k, item))
  {
    assert Linked(c, k);
    item.prev := queue.prev;
    item.next := queue;
    item.prev.next := item;
    item.next.prev := item;
    forall i: nat | i < |c| ensures InsertedAt(c, k, item, i) { assert old(Linked(c, i)); }
    InsertedIsRing(c, k, item);
  }

  // ---------- removal ----------

  /** The links of c[i] after c[k] was taken out. */
  ghost predicate RemovedAt<T>(c: seq<Node<T>>, k: nat, i: nat)
    requires k < |c| && i < |c|
    reads c
  {
    && c[i].next == (if i == Pred(k, |c|) then c[Succ(k, |c|)] else c[Succ(i, |c|)])
    && c[i].prev == (if i == Succ(k, |c|) then c[Pred(k, |c|)] else c[Pred(i, |c|)])
  }

  lemma RemovedLink<T>(c: seq<Node<T>>, k: nat, i: nat)
    requires 0 < k < |c| && i < |c| - 1
    requires forall j: nat :: j < |c| && j != k ==> RemovedAt(c, k, j)
    ensures Linked(RemoveAt(c, k), i)
  {
    var n := |c| - 1;
    RemoveAtIndex(c, k, i);
    RemoveAtIndex(c, k, Succ(i, n));
    RemoveAtIndex(c, k, Pred(i, n));
    assert RemovedAt(c, k, if i < k then i else i + 1);
  }

  lemma RemovedIsRing<T>(c: seq<Node<T>>, k: nat)
    requires NoDup(c) && 0 < k < |c|
    requires forall i: nat :: i < |c| && i != k ==> RemovedAt(c, k, i)
    ensures Ring(RemoveAt(c, k))
  {
    RemoveAtKeepsNoDup(c, k);
    forall i: nat | i < |c| - 1 ensures Linked(RemoveAt(c, k), i) { RemovedLink(c, k, i); }
  }

  /** The unlinking in the middle of scheduler() of project 3. */
  method Unlink<T>(temp: Node<T>, ghost c: seq<Node<T>>, ghost k: nat)
    requires Ring(c) && 0 < k < |c| && c[k] == temp
    modifies temp`prev, temp`next, At(c, k - 1)`next, At(c, Succ(k, |c|))`prev
    ensures Ring(RemoveAt(c, k)) && temp.next == null && temp.prev == null
  {
    assert Linked(c, k);
    temp.prev.next := temp.next;
    temp.next.prev := temp.prev;
    temp.next := null;
    temp.prev := null;
    forall i: nat | i < |c| && i != k ensures RemovedAt(c, k, i) { assert old(Linked(c, i)); }
    RemovedIsRing(c, k);
  }

  /** dequeue(): the removed node keeps its stale links. */
  method Dequeue<T>(queue: Node<T>, ghost c: seq<Node<T>>) returns (item: Node?<T>)
    requires Ring(c) && c[0] == queue
    modifies queue`next, At(c, if |c| <= 2 then 0 else 2)`prev
    ensures |c| == 1 ==> item == null && Ring(c)
    ensures |c| > 1 ==> item == c[1] && Ring(RemoveAt(c, 1))
  {
    assert Linked(c, 0);
    item := queue.next;
    if item == queue {
      item := null;
    } else {
      assert Linked(c, 1);
      item.prev.next := item.next;
      item.next.prev := item.prev;
      forall i: nat | i < |c| && i != 1 ensures RemovedAt(c, 1, i) { assert old(Linked(c, i)); }
      RemovedIsRing(c, 1);
    }
  }

  // ---------- reading ----------

  method IsEmpty<T>(queue: Node<T>, ghost c: seq<Node<T>>) returns (empty: bool)
    requires Ring(c) && c[0] == queue
    ensures empty <==> c[1..] == []
  {
    assert Linked(c, 0);
    empty := queue.next == queue;
  }

  method Peek<T>(queue: Node<T>, ghost c: seq<Node<T>>) returns (first: Node?<T>)
    requires Ring(c) && c[0] == queue
    ensures first == if |c| == 1 then null else c[1]
  {
    assert Linked(c, 0);
    first := if queue.next == queue then null else queue.next;
  }

  // ---------- sorted insertion ----------

  function Items<T>(c: seq<Node<T>>): (s: seq<T>)
    ensures |s| == |c|
  {
    seq(|c|, i requires 0 <= i < |c| => c[i].item)
  }

  lemma ItemsAppend<T>(c: seq<Node<T>>, n: Node<T>)
    ensures Items(c + [n]) == Items(c) + [n.item]
  {
  }

  lemma ItemsDrop<T>(c: seq<Node<T>>)
    requires c != []
    ensures Items(c[1..]) == Items(c)[1..] && Items(c)[0] == c[0].item
  {
  }

  ghost predicate TotalPreorder<T(!new)>(lte: (T, T) -> bool) {
    && (forall a, b :: lte(a, b) || lte(b, a))
    && (forall a, b, c :: lte(a, b) && lte(b, c) ==> lte(a, c))
  }

  ghost predicate SortedBy<T>(lte: (T, T) -> bool, s: seq<T>) {
    forall i, j :: 0 <= i < j < |s| ==> lte(s[i], s[j])
  }

  /** Where enqueue_sort() puts x: before the first element, from position i on, that x is not after. */
  function SortedPlace<T>(lte: (T, T) -> bool, s: seq<T>, x: T, i: nat := 0): (r: nat)
    requires i <= |s|
    ensures i <= r <= |s|
    ensures forall j :: i <= j < r ==> !lte(x, s[j])
    ensures r < |s| ==> lte(x, s[r])
    decreases |s| - i
  {
    if i == |s| || lte(x, s[i]) then i else SortedPlace(lte, s, x, i + 1)
  }

  /** The promise of queue.h, for every total preorder. */
  lemma SortedPlaceKeepsSorted<T(!new)>(lte: (T, T) -> bool, s: seq<T>, x: T)
    requires TotalPreorder(lte) && SortedBy(lte, s)
    ensures SortedBy(lte, InsertAt(s, SortedPlace(lte, s, x), x))
  {
    var at := SortedPlace(lte, s, x);
    var s' := InsertAt(s, at, x);
    forall i, j | 0 <= i < j < |s'| ensures lte(s'[i], s'[j]) {
      InsertAtIndex(s, at, x, i);
      InsertAtIndex(s, at, x, j);
      if i == at && j > at + 1 { assert lte(x, s[at]) && lte(s[at], s[j - 1]); }
      if j == at { assert !lte(x, s[i]); }
    }
  }

  method EnqueueSort<T>(q: Node<T>, elt: Node<T>, lte: (T, T) -> bool, ghost c: seq<Node<T>>)
    requires Ring(c) && c[0] == q && elt !in c
    modifies elt`prev, elt`next, c
    ensures Ring(InsertAt(c, 1 + SortedPlace(lte, Items(c[1..]), elt.item), elt))
  {
    ghost var s := Items(c[1..]);
    ghost var k := 1;
    assert Linked(c, 0);
    var iter := q.next;
    while iter != null && iter != q
      invariant 1 <= k <= |c| && iter == (if k == |c| then q else c[k])
      invariant SortedPlace(lte, s, elt.item, k - 1) == SortedPlace(lte, s, elt.item)
      decreases |c| - k
    {
      assert Linked(c, k) && s[k - 1] == c[k].item;
      if lte(elt.item, iter.item) {
        Enqueue(iter, elt, c, k);
        return;
      }
      iter := iter.next;
      k := k + 1;
    }
    Enqueue(q, elt, c, 0);
  }

  // ---------- many rings, and the scheduler's scan ----------

  /** The rings in `others` share no node with c. */
  ghost predicate Elsewhere<T>(others: set<seq<Node<T>>>, c: seq<Node<T>>) {
    forall o, n :: o in others && n in o ==> n !in c
  }

  ghost function NodesOf<T>(rings: set<seq<Node<T>>>): (nodes: set<Node<T>>)
    ensures forall c :: c in rings ==> forall n :: n in c ==> n in nodes
  {
    set c, n | c in rings && n in c :: n
  }

  ghost predicate AllRings<T>(rings: set<seq<Node<T>>>)
    reads NodesOf(rings)
  {
    forall c :: c in rings ==> Ring(c)
  }

  /** enqueue() next to any number of other rings. */
  method EnqueueAmong<T>(queue: Node<T>, item: Node<T>, ghost c: seq<Node<T>>, ghost others: set<seq<Node<T>>>)
    requires Ring(c) && c[0] == queue && item !in c && AllRings(others) && Elsewhere(others, c + [item])
    modifies c, item
    ensures Ring(c + [item]) && AllRings(others)
  {
    assert c[Pred(0, |c|)] in c && item in c + [item] && forall n :: n in c ==> n in c + [item];
    Enqueue(queue, item, c, 0);
    assert Before(c, 0, item) == c + [item];
    forall o | o in others ensures Ring(o) {
      forall i: nat | i < |o| ensures Linked(o, i) { assert o[i] in o && old(Ring(o)) && old(Linked(o, i)); }
    }
  }

  /** dequeue() next to any number of other rings. */
  method DequeueAmong<T>(queue: Node<T>, ghost c: seq<Node<T>>, ghost others: set<seq<Node<T>>>)
    returns (item: Node?<T>)
    requires Ring(c) && c[0] == queue && AllRings(others) && Elsewhere(others, c)
    modifies c
    ensures |c| == 1 ==> item == null && Ring(c)
    ensures |c| > 1 ==> item == c[1] && Ring(RemoveAt(c, 1))
    ensures AllRings(others)
  {
    assert c[if |c| <= 2 then 0 else 2] in c;
    item := Dequeue(queue, c);
    forall o | o in others ensures Ring(o) {
      forall i: nat | i < |o| ensures Linked(o, i) { assert o[i] in o && old(Ring(o)) && old(Linked(o, i)); }
    }
  }

  /** enqueue(to, dequeue(from)): one element changes rings, and every ring that shares no node is untouched. */
  method MoveHead<T>(from: Node<T>, to: Node<T>, ghost c: seq<Node<T>>, ghost d: seq<Node<T>>,
                     ghost others: set<seq<Node<T>>>)
    requires Ring(c) && Ring(d) && AllRings(others) && c[0] == from && d[0] == to && |c| > 1
    requires Elsewhere({d}, c) && Elsewhere(others, c) && Elsewhere(others, d)
    modifies c, d
    ensures Ring(RemoveAt(c, 1)) && Ring(d + [c[1]]) && AllRings(others)
  {
    ghost var e := RemoveAt(c, 1);
    RemoveAtKeepsNoDup(c, 1);
    assert d in {d} && c[1] in c && forall n :: n in d ==> n !in c;
    assert AllRings(others + {d}) && Elsewhere(others + {d}, c);
    var item := DequeueAmong(from, c, others + {d});
    assert d in others + {d} && Ring(d) && AllRings(others);
    assert e in others + {e} && AllRings(others + {e}) && Elsewhere(others + {e}, d + [item]);
    EnqueueAmong(to, item, d, others + {e});
    assert e in others + {e} && Ring(e);
  }

  /** The loop of scheduler() in project 3 over the ready ring: the first element of the highest priority. */
  method FirstHighest<T>(queue: Node<T>, priority: T -> int, ghost c: seq<Node<T>>) returns (temp: Node<T>, ghost k: nat)
    requires Ring(c) && c[0] == queue && |c| > 1
    ensures 0 < k < |c| && temp == c[k]
    ensures forall j :: 0 < j < |c| ==> priority(c[j].item) <= priority(temp.item)
    ensures forall j :: 0 < j < k ==> priority(c[j].item) < priority(temp.item)
  {
    assert Linked(c, 0);
    var first := queue.next;
    temp, k := first, 1;
    var item := first;
    ghost var i := 1;
    while item != null && item != queue
      invariant 1 <= i <= |c| && item == (if i == |c| then queue else c[i])
      invariant 0 < k < |c| && k <= i && temp == c[k]
      invariant forall j :: 0 < j < i ==> priority(c[j].item) <= priority(temp.item)
      invariant forall j :: 0 < j < k ==> priority(c[j].item) < priority(temp.item)
      decreases |c| - i
    {
      assert Linked(c, i);
      if priority(temp.item) < priority(item.item) {
        temp, k := item, i;
      }
      item := item.next;
      i := i + 1;
    }
  }

  // ---------- refresh_page_q() of project 5 ----------

  lemma {:induction false} SameUpTo<T>(c: seq<Node<T>>, d: seq<Node<T>>, i: nat)
    requires Ring(d) && |c| > 0 && NoDup(c) && d[0] == c[0] && i < |c|
    requires forall j: nat :: j < i ==> c[j].next == c[j + 1]
    ensures i < |d| && d[i] == c[i]
  {
    if i > 0 {
      SameUpTo(c, d, i - 1);
      assert Linked(d, i - 1);
      assert c[i] != c[0];
    }
  }

  /** The links that refresh_page_q() leaves behind when the page was on the queue belong to no ring. */
  lemma NotARing<T>(c: seq<Node<T>>, k: nat, d: seq<Node<T>>)
    requires NoDup(c) && 0 < k < |c| && d != [] && d[0] == c[0]
    requires forall j: nat :: j < k ==> c[j].next == c[j + 1]
    requires c[0].prev == c[k] && c[k].prev == c[|c| - 1]
    requires c[k].next == if k == |c| - 1 then c[k] else c[0]
    ensures !Ring(d)
  {
    if Ring(d) {
      SameUpTo(c, d, k);
      assert Linked(d, 0) && Linked(d, k);
      assert d[|d| - 1] == c[k];
      SameUpTo(c, d, k - 1);
    }
  }

  /** Re-enqueueing without unlinking: the end of the queue for a page that was not on it, and no queue at all for a
      page that was. */
  method Requeue<T>(pageQueue: Node<T>, nodeMove: Node<T>, ghost c: seq<Node<T>>)
    requires Ring(c) && c[0] == pageQueue && nodeMove != pageQueue
    modifies c, nodeMove
    ensures nodeMove !in c ==> Ring(c + [nodeMove])
    ensures nodeMove in c ==> forall d: seq<Node<T>> :: d != [] && d[0] == pageQueue ==> !Ring(d)
  {
    assert Linked(c, 0) && Linked(c, |c| - 1);
    ghost var k: nat := 0;
    if nodeMove in c {
      k :| 0 < k < |c| && c[k] == nodeMove;
      assert Linked(c, k);
    }
    nodeMove.prev := nodeMove.next;
    nodeMove.next := nodeMove.prev;
    nodeMove.prev := pageQueue.prev;
    nodeMove.next := pageQueue;
    nodeMove.prev.next := nodeMove;
    nodeMove.next.prev := nodeMove;
    if nodeMove in c {
      forall j: nat | j < k ensures c[j].next == c[j + 1] { assert old(Linked(c, j)); }
      forall d: seq<Node<T>> | d != [] && d[0] == pageQueue ensures !Ring(d) { NotARing(c, k, d); }
    } else {
      forall i: nat | i < |c| ensures InsertedAt(c, 0, nodeMove, i) { assert old(Linked(c, i)); }
      InsertedIsRing(c, 0, nodeMove);
      assert Before(c, 0, nodeMove) == c + [nodeMove];
    }
  }

  /** refresh_page_q() over all the entries of page_map[], of which `isAt` tells the ones recorded at the address. It
      moves the first of them; the page queue is still a ring if and only if there is none, or it was not queued. */
  method RefreshPageQ<T(!new)>(pageQueue: Node<T>, pageMap: seq<Node<T>>, isAt: T -> bool, ghost c: seq<Node<T>>)
    returns (found: nat)
    requires Ring(c) && c[0] == pageQueue && pageQueue !in pageMap
    modifies c, pageMap
    ensures found <= |pageMap| && (found < |pageMap| ==> isAt(pageMap[found].item))
    ensures forall i :: 0 <= i < found ==> !isAt(pageMap[i].item)
    ensures found == |pageMap| ==> Ring(c)
    ensures found < |pageMap| && pageMap[found] !in c ==> Ring(c + [pageMap[found]])
    ensures (exists d: seq<Node<T>> :: d != [] && d[0] == pageQueue && Ring(d)) <==> found == |pageMap| || pageMap[found] !in c
  {
    found := 0;
    while found < |pageMap| && !isAt(pageMap[found].item)
      invariant found <= |pageMap| && forall i :: 0 <= i < found ==> !isAt(pageMap[i].item)
    {
      found := found + 1;
    }
    if found < |pageMap| {
      var nodeMove := pageMap[found];
      Requeue(pageQueue, nodeMove, c);
    }
  }
}
