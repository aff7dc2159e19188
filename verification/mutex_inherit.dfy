/** Priority inheritance: no task waits for a mutex whose owner is less urgent than itself. */
module MutexInherit {
  import opened Lists
  import opened WaitQueue
  import opened MutexModel
  import opened MutexProof

  /** The law everywhere but on mutex m, whose waiters may be as urgent as p: what holds in the middle
      of the inheritance walk. */
  ghost predicate LawBut(s: State, prio: Prios, m: Mutex, p: nat)
    requires Sizes(s) && m < |s.queue| && |prio| == |s.prio|
  {
    && (forall k :: 0 <= k < |s.queue| && k != m ==> MutexLaw(s, prio, k))
    && (s.owner[m].Some? && s.owner[m].value < |prio| ==>
          forall i :: 0 <= i < |s.queue[m]| && s.queue[m][i] < |prio| ==>
            prio[s.queue[m][i]] <= prio[s.owner[m].value] || prio[s.queue[m][i]] <= p)
  }

  ghost predicate AllLaw(s: State, prio: Prios)
    requires Sizes(s) && |prio| == |s.prio|
  {
    forall k :: 0 <= k < |s.queue| ==> MutexLaw(s, prio, k)
  }

  /** Some tasks were lifted to p, and no other changed. */
  ghost predicate Lifted(was: Prios, prio: Prios, p: nat) {
    |prio| == |was| && forall i :: 0 <= i < |prio| ==> prio[i] == was[i] || (prio[i] == p && was[i] < p)
  }

  /** Boosting the owner of m can only break the law where that owner waits itself. */
  lemma BoostOne(s: State, prio: Prios, m: Mutex, p: nat)
    requires Inv(s) && |prio| == |s.prio| && m < |s.queue| && LawBut(s, prio, m, p) && Outranked(s, prio, m, p)
    ensures var o := s.owner[m].value;
      && (s.waits[o].None? ==> AllLaw(s, prio[o := p]))
      && (s.waits[o].Some? ==> s.waits[o].value < |s.queue| && LawBut(s, prio[o := p], s.waits[o].value, p))
  {
    var o := s.owner[m].value;
    var prio' := prio[o := p];
    forall k | 0 <= k < |s.queue| && s.waits[o] != Some(k) ensures MutexLaw(s, prio', k) {
      assert k != m ==> MutexLaw(s, prio, k);
      forall i | 0 <= i < |s.queue[k]| ensures s.queue[k][i] != o { assert s.queue[k][i] in s.queue[k]; }
    }
    if s.waits[o].Some? {
      var n := s.waits[o].value;
      assert n != m && MutexLaw(s, prio, n);
    }
  }

  /** The walk restores the law for any chain of owners, even a cycle, that it gets to the end of:
      stopping at the first owner that is urgent enough is justified. */
  lemma {:induction false} WalkLaw(s: State, prio: Prios, m: Mutex, p: nat, depth: nat)
    requires Inv(s) && |prio| == |s.prio| && m < |s.queue| && LawBut(s, prio, m, p)
    ensures var r := Walk(s, prio, m, p, depth); r.Walked? ==>
      && AllLaw(s, r.prio) && Lifted(prio, r.prio, p)
      && (s.owner[m].Some? ==> s.owner[m].value < |prio| && r.prio[s.owner[m].value] >= p)
    decreases Below(prio, p)
  {
    hide AllLaw, LawBut, Inv, MutexLaw;
    OwnerKnown(s, m);
    if !Outranked(s, prio, m, p) {
      Stopped(s, prio, m, p);
    } else if depth + 1 <= MAX_PI_DEPTH {
      var o := s.owner[m].value;
      BoostShrinks(prio, p, o);
      BoostOne(s, prio, m, p);
      if s.waits[o].Some? { WalkLaw(s, prio[o := p], s.waits[o].value, p, depth + 1); }
    }
  }

  /** Whatever the queues are like, the walk only lifts tasks to p, and leaves the owner at p or above. */
  lemma {:induction false} WalkLifts(s: State, prio: Prios, m: Mutex, p: nat, depth: nat)
    ensures var r := Walk(s, prio, m, p, depth); r.Walked? ==>
      && Lifted(prio, r.prio, p)
      && (m < |s.owner| && s.owner[m].Some? && s.owner[m].value < |prio| ==> r.prio[s.owner[m].value] >= p)
    decreases Below(prio, p)
  {
    if Outranked(s, prio, m, p) && depth + 1 <= MAX_PI_DEPTH {
      var o := s.owner[m].value;
      BoostShrinks(prio, p, o);
      if o < |s.waits| && s.waits[o].Some? { WalkLifts(s, prio[o := p], s.waits[o].value, p, depth + 1); }
    }
  }

  /** The owner of m, the owner of what that one waits for, and so on: different tasks, all of them less
      urgent than p. */
  ghost predicate LowChain(s: State, prio: Prios, m: Mutex, p: nat, os: seq<Task>) {
    && os != [] && m < |s.owner| && s.owner[m] == Some(os[0]) && Distinct(os)
    && (forall j :: 0 <= j < |os| ==> os[j] < |prio| && prio[os[j]] < p)
    && forall j :: 0 <= j < |os| - 1 ==> WaitsOn(s, os[j], os[j + 1])
  }

  /** Task o waits for a mutex that task n owns. */
  ghost predicate WaitsOn(s: State, o: Task, n: Task) {
    o < |s.waits| && s.waits[o].Some? && s.waits[o].value < |s.owner| && s.owner[s.waits[o].value] == Some(n)
  }

  lemma LowerChain(s: State, prio: Prios, m: Mutex, p: nat, os: seq<Task>)
    requires LowChain(s, prio, m, p, os) && |os| > 1
    ensures Outranked(s, prio, m, p) && os[0] < |s.waits| && s.waits[os[0]].Some? && LowChain(s, prio[os[0] := p], s.waits[os[0]].value, p, os[1..])
  {
    assert WaitsOn(s, os[0], os[0 + 1]);
    forall j | 0 <= j < |os| - 2 ensures WaitsOn(s, os[1..][j], os[1..][j + 1]) { assert WaitsOn(s, os[j + 1], os[j + 1 + 1]); }
  }

  lemma LongerChain(s: State, prio: Prios, m: Mutex, p: nat, o: Task, os: seq<Task>)
    requires m < |s.owner| && s.owner[m] == Some(o) && o < |prio| && prio[o] < p && o < |s.waits| && s.waits[o].Some?
    requires LowChain(s, prio[o := p], s.waits[o].value, p, os)
    ensures LowChain(s, prio, m, p, [o] + os)
  {
    var r := [o] + os;
    assert forall j :: 0 <= j < |os| ==> os[j] != o;
    forall j | 0 <= j < |r| - 1 ensures WaitsOn(s, r[j], r[j + 1]) {
      if j > 0 { assert WaitsOn(s, os[j - 1], os[j - 1 + 1]); }
    }
  }

  /** The walk panics exactly when there is such a chain of more than MAX_PI_DEPTH owners. */
  lemma {:induction false} PanicsExactly(s: State, prio: Prios, m: Mutex, p: nat, depth: nat)
    requires depth <= MAX_PI_DEPTH
    ensures Walk(s, prio, m, p, depth).Panic? <==> exists os :: |os| == MAX_PI_DEPTH + 1 - depth && LowChain(s, prio, m, p, os)
    decreases Below(prio, p)
  {
    hide Below;
    if Outranked(s, prio, m, p) {
      var o := s.owner[m].value;
      BoostShrinks(prio, p, o);
      if depth + 1 > MAX_PI_DEPTH {
        assert LowChain(s, prio, m, p, [o]);
      } else if o < |s.waits| && s.waits[o].Some? {
        var k := s.waits[o].value;
        PanicsExactly(s, prio[o := p], k, p, depth + 1);
        hide Walk;
        if os :| |os| == MAX_PI_DEPTH - depth && LowChain(s, prio[o := p], k, p, os) { LongerChain(s, prio, m, p, o, os); }
        if os :| |os| == MAX_PI_DEPTH + 1 - depth && LowChain(s, prio, m, p, os) { LowerChain(s, prio, m, p, os); }
      } else {
        if os :| |os| == MAX_PI_DEPTH + 1 - depth && LowChain(s, prio, m, p, os) { LowerChain(s, prio, m, p, os); }
      }
    }
  }

  ghost predicate OnChain(s: State, prio: Prios, m: Mutex, p: nat, o: Task) {
    exists os :: o in os && LowChain(s, prio, m, p, os)
  }

  /** Past the first owner the chain is that of the mutex it waits for. */
  lemma ChainSplits(s: State, prio: Prios, m: Mutex, p: nat, o: Task)
    requires Outranked(s, prio, m, p)
    ensures var n := s.owner[m].value;
      OnChain(s, prio, m, p, o) <==> o == n || (n < |s.waits| && s.waits[n].Some? && OnChain(s, prio[n := p], s.waits[n].value, p, o))
  {
    var n := s.owner[m].value;
    assert LowChain(s, prio, m, p, [n]);
    if OnChain(s, prio, m, p, o) && o != n {
      var os :| o in os && LowChain(s, prio, m, p, os);
      assert os[0] == n;
      LowerChain(s, prio, m, p, os);
      assert o in os[1..];
    }
    if n < |s.waits| && s.waits[n].Some? && OnChain(s, prio[n := p], s.waits[n].value, p, o) {
      var os :| o in os && LowChain(s, prio[n := p], s.waits[n].value, p, os);
      LongerChain(s, prio, m, p, n, os);
    }
  }

  /** What the walk lifts, if it does not panic, is exactly the tasks on such chains, each to p. */
  lemma {:induction false} LiftsExactly(s: State, prio: Prios, m: Mutex, p: nat, depth: nat)
    ensures var r := Walk(s, prio, m, p, depth);
      r.Walked? ==> forall o :: 0 <= o < |prio| ==> r.prio[o] == if OnChain(s, prio, m, p, o) then p else prio[o]
    decreases Below(prio, p)
  {
    hide LowChain;
    if Outranked(s, prio, m, p) {
      var n := s.owner[m].value;
      BoostShrinks(prio, p, n);
      forall o | 0 <= o < |prio| ensures OnChain(s, prio, m, p, o) <==> o == n || (n < |s.waits| && s.waits[n].Some? && OnChain(s, prio[n := p], s.waits[n].value, p, o)) {
        ChainSplits(s, prio, m, p, o);
      }
      if n < |s.waits| && s.waits[n].Some? { LiftsExactly(s, prio[n := p], s.waits[n].value, p, depth + 1); }
      hide OnChain, Below;
    } else {
      forall o | 0 <= o < |prio| ensures !OnChain(s, prio, m, p, o) { NoChain(s, prio, m, p, o); }
    }
  }

  lemma NoChain(s: State, prio: Prios, m: Mutex, p: nat, o: Task)
    requires !Outranked(s, prio, m, p)
    ensures !OnChain(s, prio, m, p, o)
  {
  }

  lemma OwnerKnown(s: State, m: Mutex)
    requires Inv(s) && m < |s.queue|
    ensures Sizes(s) && (s.owner[m].Some? ==> s.owner[m].value < |s.held|)
  {
  }

  lemma Stopped(s: State, prio: Prios, m: Mutex, p: nat)
    requires Inv(s) && |prio| == |s.prio| && m < |s.queue| && LawBut(s, prio, m, p) && !Outranked(s, prio, m, p)
    ensures AllLaw(s, prio)
  {
    assert MutexLaw(s, prio, m) by {
      if s.owner[m].Some? && s.owner[m].value < |prio| {}
    }
  }

  /** Every hop lifts a different task: the walk gives up only when more than MAX_PI_DEPTH tasks are
      less urgent than the caller. */
  lemma {:induction false} HopsAreDistinct(s: State, prio: Prios, m: Mutex, p: nat, depth: nat)
    requires depth <= MAX_PI_DEPTH
    ensures var r := Walk(s, prio, m, p, depth);
      && (r.Panic? ==> depth + Below(prio, p) > MAX_PI_DEPTH)
      && (r.Walked? ==> Below(r.prio, p) <= Below(prio, p) <= Below(r.prio, p) + (MAX_PI_DEPTH - depth))
    decreases Below(prio, p)
  {
    if Outranked(s, prio, m, p) {
      var o := s.owner[m].value;
      BoostShrinks(prio, p, o);
      if depth + 1 <= MAX_PI_DEPTH && o < |s.waits| && s.waits[o].Some? {
        HopsAreDistinct(s, prio[o := p], s.waits[o].value, p, depth + 1);
      }
    }
  }

  // --- lock -----------------------------------------------------------------------------------------

  lemma LawStarts(s: State, m: Mutex, p: nat)
    requires Inv(s) && Law(s) && m < |s.queue|
    ensures LawBut(s, s.prio, m, p)
  {
    assert MutexLaw(s, s.prio, m);
  }

  lemma ParkLaw(s: State, t: Task, m: Mutex)
    requires Inv(s) && Law(s) && CanLock(s, t, m) && s.owner[m].Some? && s.owner[m].value < |s.prio|
    requires s.prio[s.owner[m].value] >= s.prio[t]
    ensures Sizes(Park(s, t, m)) && Law(Park(s, t, m))
  {
    hide Place;
    var r := Park(s, t, m);
    EnqueuedMembers(s.queue[m], s.prio, t);
    forall k | 0 <= k < |r.queue| ensures MutexLaw(r, r.prio, k) {
      assert MutexLaw(s, s.prio, k);
      forall i | 0 <= i < |r.queue[k]| && k == m ensures r.queue[k][i] in s.queue[m] || r.queue[k][i] == t {
        assert r.queue[k][i] in r.queue[k];
      }
    }
  }

  lemma AcquireLaw(s: State, t: Task, m: Mutex)
    requires Inv(s) && Law(s) && CanLock(s, t, m) && s.owner[m].None?
    ensures Sizes(Acquire(s, t, m)) && Law(Acquire(s, t, m))
  {
    var r := Acquire(s, t, m);
    FreeFacts(s, m);
    forall k | 0 <= k < |r.queue| ensures MutexLaw(r, r.prio, k) { assert MutexLaw(s, s.prio, k); }
  }

  /** Locking keeps the law, however long the chain of owners behind the mutex and whether or not the
      lock is granted, as long as the chain is within MAX_PI_DEPTH. */
  lemma LockLaw(s: State, t: Task, m: Mutex, wait: bool)
    requires Inv(s) && Law(s) && CanLock(s, t, m)
    ensures Lock(s, t, m, wait).outcome != Panicked ==> Inv(Lock(s, t, m, wait).s) && Law(Lock(s, t, m, wait).s)
  {
    hide Walk, LawBut, Inv;
    InvSizes(s);
    LockInv(s, t, m, wait);
    LawStarts(s, m, s.prio[t]);
    WalkLaw(s, s.prio, m, s.prio[t], 0);
    match Walk(s, s.prio, m, s.prio[t], 0)
    case Panic =>
    case Walked(prio) =>
      var s1 := s.(prio := prio);
      PrioInv(s, prio);
      LawMoves(s, prio);
      if s.count[m] > 0 { AcquireLaw(s1, t, m); } else if wait { ParkLaw(s1, t, m); }
  }

  lemma LawMoves(s: State, prio: Prios)
    requires Sizes(s) && |prio| == |s.prio| && AllLaw(s, prio)
    ensures Sizes(s.(prio := prio)) && Law(s.(prio := prio))
  {
    forall k | 0 <= k < |s.queue| ensures MutexLaw(s.(prio := prio), prio, k) { assert MutexLaw(s, prio, k); }
  }

  // --- unlock, timeout, death ---------------------------------------------------------------------------

  /** The first in line is as urgent as anybody behind it. */
  ghost predicate HeadLeads(s: State, m: Mutex) {
    m < |s.queue| && forall i :: 0 <= i < |s.queue[m]| && s.queue[m][i] < |s.prio| && s.queue[m][0] < |s.prio| ==>
      s.prio[s.queue[m][0]] >= s.prio[s.queue[m][i]]
  }

  ghost predicate Covers(s: State, p: nat, m: Mutex) {
    m < |s.queue| && forall i :: 0 <= i < |s.queue[m]| && s.queue[m][i] < |s.prio| ==> p >= s.prio[s.queue[m][i]]
  }

  /** t's own base priority, or the first in line for some mutex it keeps, is at least p. */
  ghost predicate Topped(s: State, t: Task, m: Mutex, p: nat)
    requires t < |s.base| && t < |s.held|
  {
    p <= s.base[t] || exists j :: j in s.held[t] && j != m && p <= Top(s, j)
  }

  /** What unlocking m needs to keep the law: the first in line for m leads its queue, and of those who
      wait for what the owner keeps, nobody outranks both its base priority and all the first in line. */
  ghost predicate SafeUnlock(s: State, t: Task, m: Mutex)
    requires t < |s.base| && t < |s.held|
  {
    && HeadLeads(s, m)
    && forall k, i :: k in s.held[t] && k != m && k < |s.queue| && 0 <= i < |s.queue[k]| && s.queue[k][i] < |s.prio| ==>
      Topped(s, t, m, s.prio[s.queue[k][i]])
  }

  lemma SettledTops(s: State, t: Task, m: Mutex, p: nat)
    requires Inv(s) && t < |s.held|
    ensures t < |s.base| && (Settled(s, t, m) >= p <==> Topped(s, t, m, p))
  {
    InvSizes(s);
    assert HeldOk(s.held[t], s.owner, t);
    var l := Without(s.held[t], m);
    if Settled(s, t, m) >= p && p > s.base[t] {
      var i :| 0 <= i < |l| && Settled(s, t, m) == Top(s, l[i]);
      WithoutMembers(s.held[t], m, l[i]);
      assert l[i] in l;
    }
    if j :| j in s.held[t] && j != m && p <= Top(s, j) {
      WithoutMembers(s.held[t], m, j);
      var i :| 0 <= i < |l| && l[i] == j;
    }
  }

  lemma SettledCovers(s: State, t: Task, m: Mutex, k: Mutex)
    requires Inv(s) && t < |s.held| && k in s.held[t] && k != m
    ensures Sizes(s) && k < |s.queue|
    ensures Covers(s, Settled(s, t, m), k) <==>
      forall i :: 0 <= i < |s.queue[k]| && s.queue[k][i] < |s.prio| ==> Topped(s, t, m, s.prio[s.queue[k][i]])
  {
    HeldMutex(s, t, k);
    InvSizes(s);
    forall i | 0 <= i < |s.queue[k]| && s.queue[k][i] < |s.prio|
      ensures Settled(s, t, m) >= s.prio[s.queue[k][i]] <==> Topped(s, t, m, s.prio[s.queue[k][i]])
    {
      SettledTops(s, t, m, s.prio[s.queue[k][i]]);
    }
  }

  lemma UnlockShape(s: State, t: Task, m: Mutex)
    requires Inv(s) && t < |s.held| && m < |s.owner| && s.owner[m] == Some(t)
    ensures var r := Unlock(s, t, m);
      && Sizes(r) && r.prio == s.prio[t := Settled(s, t, m)] && |r.queue| == |s.queue|
      && (forall k :: 0 <= k < |s.queue| && k != m ==> r.queue[k] == s.queue[k] && r.owner[k] == s.owner[k])
      && (s.queue[m] == [] ==> r.queue[m] == [] && r.owner[m].None?)
      && (s.queue[m] != [] ==> r.queue[m] == s.queue[m][1..] && r.owner[m] == Some(s.queue[m][0]))
  {
    InvSizes(s);
  }

  /** The law on mutex k after m was unlocked. */
  lemma UnlockedLaw(s: State, t: Task, m: Mutex, k: Mutex)
    requires Inv(s) && Law(s) && t < |s.held| && m < |s.owner| && s.owner[m] == Some(t) && s.waits[t].None? && k < |s.queue|
    ensures Sizes(Unlock(s, t, m)) && k < |Unlock(s, t, m).queue|
    ensures MutexLaw(Unlock(s, t, m), Unlock(s, t, m).prio, k) <==>
      if k == m then HeadLeads(s, m) else k in s.held[t] ==> Covers(s, Settled(s, t, m), k)
  {
    hide Raised, HandOff;
    UnlockShape(s, t, m);
    var r := Unlock(s, t, m);
    hide Unlock;
    assert MutexLaw(s, s.prio, k);
    forall i | 0 <= i < |s.queue[k]| ensures s.queue[k][i] < |s.prio| && s.queue[k][i] != t {
      assert s.queue[k][i] in s.queue[k];
    }
    if k == m && s.queue[m] != [] {
      var q := s.queue[m];
      forall i | 0 <= i < |q| - 1 ensures q[1..][i] == q[i + 1] {}
      assert MutexLaw(r, r.prio, m) <==> forall i :: 1 <= i < |q| ==> s.prio[q[0]] >= s.prio[q[i]];
    } else if k != m {
      assert k in s.held[t] <==> s.owner[k] == Some(t);
      assert r.queue[k] == s.queue[k] && r.owner[k] == s.owner[k];
    }
  }

  /** Unlocking keeps the law exactly when the unlock is safe in that sense. A queue can lose its order
      when a task that is already in it is boosted, since the boost does not move it. */
  lemma UnlockLawIff(s: State, t: Task, m: Mutex)
    requires Inv(s) && Law(s) && t < |s.held| && m < |s.owner| && s.owner[m] == Some(t) && s.waits[t].None?
    ensures Sizes(Unlock(s, t, m)) && (Law(Unlock(s, t, m)) <==> SafeUnlock(s, t, m))
  {
    hide Unlock, Inv, Settled, HeadLeads, Covers, MutexLaw, Topped;
    InvSizes(s);
    forall k | k in s.held[t] && k != m
      ensures k < |s.queue|
      ensures Covers(s, Settled(s, t, m), k) <==>
        forall i :: 0 <= i < |s.queue[k]| && s.queue[k][i] < |s.prio| ==> Topped(s, t, m, s.prio[s.queue[k][i]])
    {
      SettledCovers(s, t, m, k);
    }
    forall k | 0 <= k < |s.queue|
      ensures Sizes(Unlock(s, t, m)) && k < |Unlock(s, t, m).queue|
      ensures MutexLaw(Unlock(s, t, m), Unlock(s, t, m).prio, k) <==>
        if k == m then HeadLeads(s, m) else k in s.held[t] ==> Covers(s, Settled(s, t, m), k)
    {
      UnlockedLaw(s, t, m, k);
    }
    UnlockSize(s, t, m);
    if Law(Unlock(s, t, m)) {
      assert MutexLaw(Unlock(s, t, m), Unlock(s, t, m).prio, m);
      forall k | k in s.held[t] && k != m ensures Covers(s, Settled(s, t, m), k) {
        HeldMutex(s, t, k);
        assert MutexLaw(Unlock(s, t, m), Unlock(s, t, m).prio, k);
      }
    }
  }

  lemma HeldMutex(s: State, t: Task, k: Mutex)
    requires Inv(s) && t < |s.held| && k in s.held[t]
    ensures k < |s.queue|
  {
    HeldOwner(s, t, k);
  }

  lemma UnlockSize(s: State, t: Task, m: Mutex)
    requires Inv(s) && t < |s.held| && m < |s.owner| && s.owner[m] == Some(t)
    ensures Sizes(Unlock(s, t, m)) && |Unlock(s, t, m).queue| == |s.queue|
  {
    UnlockShape(s, t, m);
  }

  /** With its queues in order, an owner's unlock is always safe. */
  lemma SortedIsSafe(s: State, t: Task, m: Mutex)
    requires Inv(s) && t < |s.held| && m < |s.owner| && forall k :: 0 <= k < |s.queue| ==> HeadLeads(s, k)
    ensures SafeUnlock(s, t, m)
  {
    forall k, i | k in s.held[t] && k != m && k < |s.queue| && 0 <= i < |s.queue[k]| && s.queue[k][i] < |s.prio|
      ensures Topped(s, t, m, s.prio[s.queue[k][i]])
    {
      assert HeadLeads(s, k);
      assert s.queue[k][0] in s.queue[k];
    }
  }

  /** A timeout, or a waiter's death, leaves fewer waiters. */
  lemma LeaveLaw(s: State, t: Task)
    requires Inv(s) && Law(s) && t < |s.waits|
    ensures Sizes(Leave(s, t)) && Law(Leave(s, t))
  {
    var r := Leave(s, t);
    forall k | 0 <= k < |r.queue| ensures MutexLaw(r, r.prio, k) {
      assert MutexLaw(s, s.prio, k);
      forall i | 0 <= i < |r.queue[k]| ensures r.queue[k][i] in s.queue[k] {
        WithoutMembers(s.queue[k], t, r.queue[k][i]);
        assert r.queue[k][i] in r.queue[k];
      }
    }
  }

  /** Handing m on keeps the law exactly when the first in line leads its queue. */
  lemma ReleaseLaw(s: State, t: Task, m: Mutex)
    requires Inv(s) && Law(s) && t < |s.held| && m < |s.owner| && s.owner[m] == Some(t)
    ensures Sizes(Release(s, t, m)) && (Law(Release(s, t, m)) <==> HeadLeads(s, m))
  {
    InvSizes(s);
    var r := Release(s, t, m);
    assert MutexLaw(s, s.prio, m);
    forall k | 0 <= k < |r.queue| && k != m ensures MutexLaw(r, r.prio, k) { assert MutexLaw(s, s.prio, k); }
    var q := s.queue[m];
    forall i | 0 <= i < |q| ensures q[i] < |s.prio| { assert q[i] in q; }
    if q != [] {
      assert MutexLaw(r, r.prio, m) <==> HeadLeads(s, m) by {
        forall i | 0 <= i < |q| - 1 ensures q[1..][i] == q[i + 1] {}
        assert HeadLeads(s, m) <==> forall i :: 1 <= i < |q| ==> s.prio[q[0]] >= s.prio[q[i]];
      }
    }
  }
}
