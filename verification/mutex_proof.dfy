/** Mutex safety: one owner, the owner's held list and the count agree, waiters are queued where they
    wait, and a released mutex goes straight to its first waiter. */
module MutexProof {
  import opened Lists
  import opened WaitQueue
  import opened MutexModel

  lemma PrioInv(s: State, prio: Prios)
    requires Inv(s) && |prio| == |s.prio|
    ensures Inv(s.(prio := prio))
  {
  }

  lemma HeldOwner(s: State, t: Task, m: Mutex)
    requires Sizes(s) && Owned(s) && t < |s.held| && m in s.held[t]
    ensures m < |s.owner| && s.owner[m] == Some(t)
  {
    assert HeldOk(s.held[t], s.owner, t);
  }

  /** What a mutex's queue says about a waiter, and the other way round. */
  lemma WaiterFacts(s: State, m: Mutex, t: Task)
    requires Sizes(s) && Queued(s) && m < |s.queue|
    ensures t in s.queue[m] <==> t < |s.waits| && s.waits[t] == Some(m)
    ensures t in s.queue[m] ==> s.owner[m].Some? && s.owner[m] != Some(t)
    ensures Distinct(s.queue[m]) && Known(s.queue[m], s.prio)
  {
    assert QueueOk(s.queue[m], s.waits, s.owner[m], m);
    if t < |s.waits| { assert WaitOk(s.waits[t], s.queue, s.owner, t); }
  }

  /** A mutex nobody owns is on no held list and has no waiters. */
  lemma FreeFacts(s: State, m: Mutex)
    requires Inv(s) && m < |s.owner| && s.owner[m].None?
    ensures s.queue[m] == [] && forall t :: 0 <= t < |s.held| ==> m !in s.held[t]
    ensures forall t :: 0 <= t < |s.waits| ==> s.waits[t] != Some(m)
  {
    assert QueueOk(s.queue[m], s.waits, s.owner[m], m);
    forall t | 0 <= t < |s.held| ensures m !in s.held[t] { assert HeldOk(s.held[t], s.owner, t); }
    forall t | 0 <= t < |s.waits| ensures s.waits[t] != Some(m) { assert WaitOk(s.waits[t], s.queue, s.owner, t); }
  }

  lemma AcquireInv(s: State, t: Task, m: Mutex)
    requires Inv(s) && CanLock(s, t, m) && s.count[m] > 0
    ensures Inv(Acquire(s, t, m))
  {
    var r := Acquire(s, t, m);
    assert OwnerOk(s.owner[m], s.count[m], s.held, m);
    FreeFacts(s, m);
    forall u | 0 <= u < |r.held| ensures HeldOk(r.held[u], r.owner, u) { assert HeldOk(s.held[u], s.owner, u); }
    forall k | 0 <= k < |r.owner| ensures OwnerOk(r.owner[k], r.count[k], r.held, k) { assert OwnerOk(s.owner[k], s.count[k], s.held, k); }
    forall k | 0 <= k < |r.queue| ensures QueueOk(r.queue[k], r.waits, r.owner[k], k) { assert QueueOk(s.queue[k], s.waits, s.owner[k], k); }
    forall u | 0 <= u < |r.waits| ensures WaitOk(r.waits[u], r.queue, r.owner, u) { assert WaitOk(s.waits[u], s.queue, s.owner, u); }
  }

  lemma ParkInv(s: State, t: Task, m: Mutex)
    requires Inv(s) && CanLock(s, t, m) && s.owner[m].Some?
    ensures Known(s.queue[m], s.prio) && Inv(Park(s, t, m))
  {
    hide Place;
    WaiterFacts(s, m, t);
    var r := Park(s, t, m);
    var q := s.queue[m];
    EnqueuedMembers(q, s.prio, t);
    hide Enqueued;
    assert Owned(r) by { hide HeldOk, OwnerOk; }
    forall k | 0 <= k < |r.queue| ensures QueueOk(r.queue[k], r.waits, r.owner[k], k) { assert QueueOk(s.queue[k], s.waits, s.owner[k], k); }
    forall u | 0 <= u < |r.waits| ensures WaitOk(r.waits[u], r.queue, r.owner, u) { assert WaitOk(s.waits[u], s.queue, s.owner, u); }
  }

  lemma LeaveInv(s: State, t: Task)
    requires Inv(s) && t < |s.waits|
    ensures Inv(Leave(s, t)) && Leave(s, t).waits[t].None?
  {
    assert WaitOk(s.waits[t], s.queue, s.owner, t);
    if s.waits[t].Some? {
      var m := s.waits[t].value;
      var r := Leave(s, t);
      assert QueueOk(s.queue[m], s.waits, s.owner[m], m);
      forall x ensures x in r.queue[m] <==> x in s.queue[m] && x != t { WithoutMembers(s.queue[m], t, x); }
      WithoutMembers(s.queue[m], t, t);
      hide Without;
      forall i | 0 <= i < |r.queue[m]| ensures r.queue[m][i] < |s.waits| { assert r.queue[m][i] in r.queue[m]; }
      assert Owned(r) by { hide HeldOk, OwnerOk; }
      forall k | 0 <= k < |r.queue| ensures QueueOk(r.queue[k], r.waits, r.owner[k], k) { assert QueueOk(s.queue[k], s.waits, s.owner[k], k); }
      forall u | 0 <= u < |r.waits| ensures WaitOk(r.waits[u], r.queue, r.owner, u) { assert WaitOk(s.waits[u], s.queue, s.owner, u); }
    }
  }

  /** What the held lists look like once t has let go of m, before anybody else has it. */
  ghost predicate Dropped(s: State, h: seq<seq<Mutex>>, t: Task, m: Mutex)
    requires Sizes(s) && t < |s.held|
  {
    && |h| == |s.held|
    && (forall u :: 0 <= u < |h| && u != t ==> h[u] == s.held[u])
    && Distinct(h[t]) && (forall k :: k in h[t] <==> k in s.held[t] && k != m)
  }

  lemma DropFacts(s: State, t: Task, m: Mutex)
    requires Inv(s) && t < |s.held| && m < |s.owner| && s.owner[m] == Some(t)
    ensures Dropped(s, s.held[t := Without(s.held[t], m)], t, m)
  {
    assert HeldOk(s.held[t], s.owner, t);
    forall k ensures k in Without(s.held[t], m) <==> k in s.held[t] && k != m { WithoutMembers(s.held[t], m, k); }
    WithoutMembers(s.held[t], m, m);
  }

  lemma FreedInv(s: State, h: seq<seq<Mutex>>, t: Task, m: Mutex)
    requires Inv(s) && t < |s.held| && m < |s.owner| && s.owner[m] == Some(t) && Dropped(s, h, t, m) && s.queue[m] == []
    ensures Inv(s.(held := h, owner := s.owner[m := None], count := s.count[m := s.count[m] + 1]))
  {
    var r := s.(held := h, owner := s.owner[m := None], count := s.count[m := s.count[m] + 1]);
    forall u | 0 <= u < |r.held| ensures HeldOk(r.held[u], r.owner, u) { assert HeldOk(s.held[u], s.owner, u); }
    forall k | 0 <= k < |r.owner| ensures OwnerOk(r.owner[k], r.count[k], r.held, k) { assert OwnerOk(s.owner[k], s.count[k], s.held, k); }
    forall k | 0 <= k < |r.queue| ensures QueueOk(r.queue[k], r.waits, r.owner[k], k) { assert QueueOk(s.queue[k], s.waits, s.owner[k], k); }
    forall u | 0 <= u < |r.waits| ensures WaitOk(r.waits[u], r.queue, r.owner, u) { assert WaitOk(s.waits[u], s.queue, s.owner, u); }
  }

  lemma HandedInv(s: State, h: seq<seq<Mutex>>, t: Task, m: Mutex)
    requires Inv(s) && t < |s.held| && m < |s.owner| && s.owner[m] == Some(t) && Dropped(s, h, t, m) && s.queue[m] != []
    ensures var w := s.queue[m][0];
      && w < |h| && w != t
      && Inv(s.(held := h[w := [m] + h[w]], queue := s.queue[m := s.queue[m][1..]], waits := s.waits[w := None], owner := s.owner[m := Some(w)]))
  {
    var q := s.queue[m];
    var w := q[0];
    WaiterFacts(s, m, w);
    var r := s.(held := h[w := [m] + h[w]], queue := s.queue[m := q[1..]], waits := s.waits[w := None], owner := s.owner[m := Some(w)]);
    assert q == [w] + q[1..] && w !in q[1..];
    HandedOwned(s, h, t, m, r);
    forall k | 0 <= k < |r.queue| ensures QueueOk(r.queue[k], r.waits, r.owner[k], k) { assert QueueOk(s.queue[k], s.waits, s.owner[k], k); }
    forall u | 0 <= u < |r.waits| ensures WaitOk(r.waits[u], r.queue, r.owner, u) { assert WaitOk(s.waits[u], s.queue, s.owner, u); }
  }

  lemma HandedOwned(s: State, h: seq<seq<Mutex>>, t: Task, m: Mutex, r: State)
    requires Inv(s) && t < |s.held| && m < |s.owner| && s.owner[m] == Some(t) && Dropped(s, h, t, m) && s.queue[m] != []
    requires var w := s.queue[m][0];
      && w < |h| && w != t && Sizes(r)
      && r.held == h[w := [m] + h[w]] && r.owner == s.owner[m := Some(w)] && r.count == s.count
    ensures Owned(r)
  {
    var w := s.queue[m][0];
    assert HeldOk(s.held[w], s.owner, w);
    forall u | 0 <= u < |r.held| ensures HeldOk(r.held[u], r.owner, u) { assert HeldOk(s.held[u], s.owner, u); }
    forall k | 0 <= k < |r.owner| ensures OwnerOk(r.owner[k], r.count[k], r.held, k) { assert OwnerOk(s.owner[k], s.count[k], s.held, k); }
  }

  lemma ReleaseInv(s: State, t: Task, m: Mutex)
    requires Inv(s) && t < |s.held| && m < |s.owner| && s.owner[m] == Some(t)
    ensures Inv(Release(s, t, m))
    ensures s.queue[m] == [] ==> Release(s, t, m).owner[m].None? && Release(s, t, m).count[m] == 1
    ensures s.queue[m] != [] ==> Release(s, t, m).owner[m] == Some(s.queue[m][0]) && Release(s, t, m).count[m] == 0
  {
    hide Inv, Dropped;
    InvSizes(s);
    DropFacts(s, t, m);
    var h := s.held[t := Without(s.held[t], m)];
    if s.queue[m] == [] {
      FreedInv(s, h, t, m);
    } else {
      HandedInv(s, h, t, m);
    }
  }

  lemma InvSizes(s: State)
    requires Inv(s)
    ensures Sizes(s)
    ensures forall m :: 0 <= m < |s.owner| ==> s.count[m] == if s.owner[m].None? then 1 else 0
    ensures forall m :: 0 <= m < |s.queue| && s.queue[m] != [] ==> s.queue[m][0] < |s.waits|
  {
    forall m | 0 <= m < |s.owner| ensures s.count[m] == if s.owner[m].None? then 1 else 0 { assert OwnerOk(s.owner[m], s.count[m], s.held, m); }
    forall m | 0 <= m < |s.queue| && s.queue[m] != [] ensures s.queue[m][0] < |s.waits| { assert QueueOk(s.queue[m], s.waits, s.owner[m], m); }
  }

  lemma UnlockInv(s: State, t: Task, m: Mutex)
    requires Inv(s) && t < |s.held| && m < |s.owner| && s.owner[m] == Some(t)
    ensures Inv(Unlock(s, t, m))
  {
    hide Inv;
    InvSizes(s);
    var s1 := s.(prio := s.prio[t := Settled(s, t, m)]);
    PrioInv(s, s1.prio);
    ReleaseInv(s1, t, m);
  }

  lemma LockInv(s: State, t: Task, m: Mutex, wait: bool)
    requires Inv(s) && CanLock(s, t, m)
    ensures Inv(Lock(s, t, m, wait).s)
  {
    hide Inv, Walk;
    InvSizes(s);
    match Walk(s, s.prio, m, s.prio[t], 0)
    case Panic =>
    case Walked(prio) =>
      var s1 := s.(prio := prio);
      PrioInv(s, prio);
      if s.count[m] > 0 { AcquireInv(s1, t, m); } else if wait { ParkInv(s1, t, m); }
  }

  // --- Task death -----------------------------------------------------------------------------------

  /** v_ipc_task_teardown: hand off everything t owns, newest first, then leave the queue. */
  ghost function Teardown(s: State, t: Task): (r: State)
    requires Inv(s) && t < |s.held|
    decreases |s.held[t]|
  {
    if s.held[t] == [] then Leave(s, t)
    else
      HeldShrinks(s, t);
      Teardown(Release(s, t, s.held[t][0]), t)
  }

  lemma HeldShrinks(s: State, t: Task)
    requires Inv(s) && t < |s.held| && s.held[t] != []
    ensures var m := s.held[t][0];
      && m < |s.owner| && s.owner[m] == Some(t) && Sizes(s)
      && Inv(Release(s, t, m)) && Release(s, t, m).held[t] == s.held[t][1..] && |Release(s, t, m).held| == |s.held|
  {
    var m := s.held[t][0];
    HeldOwner(s, t, m);
    ReleaseInv(s, t, m);
    if s.queue[m] != [] {
      DropFacts(s, t, m);
      HandedInv(s, s.held[t := Without(s.held[t], m)], t, m);
    }
  }

  lemma {:induction false} TeardownInv(s: State, t: Task)
    requires Inv(s) && t < |s.held|
    ensures Inv(Teardown(s, t)) && Sizes(Teardown(s, t)) && |Teardown(s, t).held| == |s.held|
    ensures Teardown(s, t).held[t] == [] && Teardown(s, t).waits[t].None?
    decreases |s.held[t]|
  {
    if s.held[t] == [] {
      LeaveInv(s, t);
    } else {
      HeldShrinks(s, t);
      TeardownInv(Release(s, t, s.held[t][0]), t);
    }
  }
}
