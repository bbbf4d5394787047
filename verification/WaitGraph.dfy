/** Who waits for whom: t -> holder of the lock t is blocked on. The deadlock test of lock_acquire_helper()
    follows these edges. */
module WaitGraph {
  import opened Seqs
  import opened Placement

  type Edges = map<Tid, Tid>

  /** The n-th one on the chain of waits from t. */
  ghost function Follow(e: Edges, t: Tid, n: nat): Option<Tid>
    decreases n
  {
    if n == 0 then Some(t) else if t in e then Follow(e, e[t], n - 1) else None
  }

  ghost predicate Ends(e: Edges, t: Tid) {
    exists n: nat :: Follow(e, t, n) == None
  }

  ghost predicate Acyclic(e: Edges) {
    forall t: Tid, n: nat :: 0 < n ==> Follow(e, t, n) != Some(t)
  }

  lemma {:induction false} FollowAdds(e: Edges, t: Tid, a: nat, b: nat)
    ensures Follow(e, t, a + b) == if Follow(e, t, a).Some? then Follow(e, Follow(e, t, a).value, b) else None
    decreases a
  {
    if a > 0 && t in e { FollowAdds(e, e[t], a - 1, b); }
  }

  lemma {:induction false} CycleNeverEnds(e: Edges, t: Tid, n: nat, k: nat)
    requires 0 < n && Follow(e, t, n) == Some(t)
    ensures Follow(e, t, k).Some?
    decreases k
  {
    if k >= n {
      CycleNeverEnds(e, t, n, k - n);
      FollowAdds(e, t, n, k - n);
    } else {
      FollowAdds(e, t, k, n - k);
    }
  }

  /** Of more positions on a chain than there are waiters, two are the same. */
  lemma LongChainRepeats(e: Edges, t: Tid)
    requires Follow(e, t, |e.Keys| + 1).Some?
    ensures !Acyclic(e)
  {
    var n := |e.Keys| + 1;
    forall i: nat | i < n ensures Follow(e, t, i).Some? && Follow(e, t, i).value in e {
      FollowAdds(e, t, i, n - i);
    }
    var path := seq(n, i requires 0 <= i < n => Follow(e, t, i).value);
    if NoDup(path) {
      NoDupCard(path);
      SubsetCard(Elements(path), e.Keys);
      assert false;
    }
    var i, j :| 0 <= i < j < n && path[i] == path[j];
    FollowAdds(e, t, i, j - i);
    assert Follow(e, path[i], j - i) == Some(path[i]);
  }

  lemma AcyclicEnds(e: Edges, t: Tid)
    requires Acyclic(e)
    ensures Ends(e, t)
  {
    if Follow(e, t, |e.Keys| + 1).Some? { LongChainRepeats(e, t); }
  }

  lemma SubsetCard(a: set<Tid>, b: set<Tid>)
    requires a <= b
    ensures |a| <= |b|
  {
    assert b == a + (b - a);
  }

  /** No cycle of waits exists exactly when every chain of waits comes to an end. */
  lemma AcyclicMeansAllEnd(e: Edges)
    ensures Acyclic(e) <==> forall t :: Ends(e, t)
  {
    if Acyclic(e) {
      forall t ensures Ends(e, t) { AcyclicEnds(e, t); }
    }
    if forall t :: Ends(e, t) {
      forall t: Tid, n: nat | 0 < n ensures Follow(e, t, n) != Some(t) {
        if Follow(e, t, n) == Some(t) {
          assert Ends(e, t);
          var k: nat :| Follow(e, t, k) == None;
          CycleNeverEnds(e, t, n, k);
        }
      }
    }
  }

  /** Waiting for `holder` would close a cycle through `me`. */
  ghost predicate Reaches(e: Edges, holder: Tid, me: Tid) {
    exists n: nat :: Follow(e, holder, n) == Some(me)
  }

  lemma ReachesFromBefore(e: Edges, t: Tid, me: Tid)
    requires t in e && Reaches(e, e[t], me)
    ensures Reaches(e, t, me)
  {
    var k: nat :| Follow(e, e[t], k) == Some(me);
    assert Follow(e, t, k + 1) == Some(me);
  }

  lemma {:induction false} SameChain(e: Edges, me: Tid, holder: Tid, t: Tid, n: nat)
    requires me !in e && !Reaches(e, t, me)
    ensures Follow(e[me := holder], t, n) == Follow(e, t, n)
    decreases n
  {
    assert Follow(e, t, 0) == Some(t);
    if n > 0 && t in e {
      if Reaches(e, e[t], me) { ReachesFromBefore(e, t, me); }
      SameChain(e, me, holder, e[t], n - 1);
    }
  }

  lemma {:induction false} ChainTo(e: Edges, me: Tid, holder: Tid, t: Tid, n: nat)
    requires me !in e && Follow(e, t, n) == Some(me)
    ensures Reaches(e[me := holder], t, me)
    decreases n
  {
    if t == me {
      assert Follow(e[me := holder], t, 0) == Some(me);
    } else {
      ChainTo(e, me, holder, e[t], n - 1);
      var k: nat :| Follow(e[me := holder], e[t], k) == Some(me);
      assert Follow(e[me := holder], t, k + 1) == Some(me);
    }
  }

  /** A new wait keeps the graph acyclic exactly when it does not close a cycle through the waiter. */
  lemma NewWait(e: Edges, me: Tid, holder: Tid)
    requires Acyclic(e) && me !in e
    ensures Acyclic(e[me := holder]) <==> !Reaches(e, holder, me)
  {
    var e' := e[me := holder];
    if Reaches(e, holder, me) {
      var n: nat :| Follow(e, holder, n) == Some(me);
      ChainTo(e, me, holder, holder, n);
      var k: nat :| Follow(e', holder, k) == Some(me);
      assert Follow(e', me, k + 1) == Some(me);
    } else {
      AcyclicMeansAllEnd(e);
      forall t ensures Ends(e', t) { NewWaitEnds(e, me, holder, t); }
      AcyclicMeansAllEnd(e');
    }
  }

  lemma NewWaitEnds(e: Edges, me: Tid, holder: Tid, t: Tid)
    requires Acyclic(e) && me !in e && !Reaches(e, holder, me)
    ensures Ends(e[me := holder], t)
  {
    var e' := e[me := holder];
    AcyclicEnds(e, holder);
    var h: nat :| Follow(e, holder, h) == None;
    SameChain(e, me, holder, holder, h);
    assert Follow(e', me, h + 1) == None;
    if Reaches(e, t, me) {
      var n: nat :| Follow(e, t, n) == Some(me);
      ChainTo(e, me, holder, t, n);
      var k: nat :| Follow(e', t, k) == Some(me);
      FollowAdds(e', t, k, h + 1);
      assert Follow(e', t, k + (h + 1)) == None;
    } else {
      AcyclicEnds(e, t);
      var n: nat :| Follow(e, t, n) == None;
      SameChain(e, me, holder, t, n);
    }
  }

  // ---------- the walk itself ----------

  /** cur_task after n turns of the loop from t, for a caller `me` that already counts as waiting in e; None when
      the loop is over, by then or before. */
  ghost function Walk(e: Edges, me: Tid, t: Tid, n: nat): Option<Tid>
    decreases n
  {
    if n == 0 then Some(t) else if t !in e || e[t] == me then None else Walk(e, me, e[t], n - 1)
  }

  ghost predicate WalkEnds(e: Edges, me: Tid) {
    exists n: nat :: Walk(e, me, me, n) == None
  }

  lemma {:induction false} WalkOverMeansEnds(e: Edges, me: Tid, holder: Tid, t: Tid, n: nat)
    requires me !in e && t != me && Walk(e[me := holder], me, t, n) == None
    ensures Ends(e, t)
    decreases n
  {
    if t !in e {
      assert Follow(e, t, 1) == None;
    } else if e[t] == me {
      assert Follow(e, e[t], 1) == None;
      assert Follow(e, t, 2) == None;
    } else {
      WalkOverMeansEnds(e, me, holder, e[t], n - 1);
      var k: nat :| Follow(e, e[t], k) == None;
      assert Follow(e, t, k + 1) == None;
    }
  }

  lemma {:induction false} EndsMeansWalkOver(e: Edges, me: Tid, holder: Tid, t: Tid, n: nat) returns (k: nat)
    requires me !in e && t != me && Follow(e, t, n) == None
    ensures Walk(e[me := holder], me, t, k) == None
    decreases n
  {
    if t !in e || e[t] == me {
      k := 1;
    } else {
      k := EndsMeansWalkOver(e, me, holder, e[t], n - 1);
      k := k + 1;
    }
  }

  /** The walk of a caller that waits for nobody yet ends exactly when the chain of waits from the holder does;
      cycles elsewhere do no harm, and a chain that comes back to the caller ends there. */
  lemma WalkEndsExactly(e: Edges, me: Tid, holder: Tid)
    requires me !in e
    ensures WalkEnds(e[me := holder], me) <==> Ends(e, holder)
  {
    var e' := e[me := holder];
    if holder == me {
      assert Walk(e', me, me, 1) == None && Follow(e, me, 1) == None;
    } else {
      if WalkEnds(e', me) {
        var n: nat :| Walk(e', me, me, n) == None;
        assert Walk(e', me, holder, n - 1) == None;
        WalkOverMeansEnds(e, me, holder, holder, n - 1);
      }
      if Ends(e, holder) {
        var n: nat :| Follow(e, holder, n) == None;
        var k := EndsMeansWalkOver(e, me, holder, holder, n);
        assert Walk(e', me, me, k + 1) == None;
      }
    }
  }
}
