/** Every run of lock, unlock, timeout and task death. */
module MutexRuns {
  import opened Lists
  import opened WaitQueue
  import opened MutexModel
  import opened MutexProof
  import opened MutexInherit

  datatype Op = LockOp(t: Task, m: Mutex, wait: bool) | UnlockOp(t: Task, m: Mutex) | TimeoutOp(t: Task) | KillOp(t: Task)

  datatype Sys = Sys(s: State, dead: set<Task>)

  /** A task that can make a call: alive, and not waiting. */
  ghost predicate Running(x: Sys, t: Task) { t < |x.s.waits| && t !in x.dead && x.s.waits[t].None? }

  ghost predicate Good(x: Sys) {
    Inv(x.s) && forall t :: t in x.dead && t < |x.s.held| ==> x.s.held[t] == [] && x.s.waits[t].None?
  }

  ghost function Apply(x: Sys, op: Op): Sys
    requires Good(x)
  {
    match op
    case LockOp(t, m, wait) =>
      if Running(x, t) && CanLock(x.s, t, m) then x.(s := Lock(x.s, t, m, wait).s) else x
    case UnlockOp(t, m) =>
      if Running(x, t) && m < |x.s.owner| && x.s.owner[m] == Some(t) then x.(s := Unlock(x.s, t, m)) else x
    case TimeoutOp(t) => if t < |x.s.waits| then x.(s := Leave(x.s, t)) else x
    case KillOp(t) =>
      if t < |x.s.held| && t !in x.dead then Sys(Teardown(x.s, t), x.dead + {t}) else x
  }

  lemma ReleaseOthers(s: State, t: Task, m: Mutex, u: Task)
    requires Inv(s) && t < |s.held| && m < |s.owner| && s.owner[m] == Some(t) && u < |s.held| && s.waits[u].None? && s.held[u] == []
    ensures Sizes(Release(s, t, m)) && |Release(s, t, m).held| == |s.held|
    ensures Release(s, t, m).held[u] == [] && Release(s, t, m).waits[u].None?
  {
    InvSizes(s);
    ReleaseInv(s, t, m);
    if s.queue[m] != [] { assert s.queue[m][0] in s.queue[m]; }
  }

  lemma {:induction false} TeardownOthers(s: State, t: Task, u: Task)
    requires Inv(s) && t < |s.held| && u < |s.held| && u != t && s.waits[u].None? && s.held[u] == []
    ensures Sizes(Teardown(s, t)) && |Teardown(s, t).held| == |s.held|
    ensures Teardown(s, t).held[u] == [] && Teardown(s, t).waits[u].None?
    decreases |s.held[t]|
  {
    if s.held[t] != [] {
      HeldShrinks(s, t);
      ReleaseOthers(s, t, s.held[t][0], u);
      TeardownOthers(Release(s, t, s.held[t][0]), t, u);
    }
  }

  lemma UnlockOthers(s: State, t: Task, m: Mutex, u: Task)
    requires Inv(s) && t < |s.held| && m < |s.owner| && s.owner[m] == Some(t) && u < |s.held| && s.waits[u].None? && s.held[u] == []
    ensures Sizes(Unlock(s, t, m)) && |Unlock(s, t, m).held| == |s.held|
    ensures Unlock(s, t, m).held[u] == [] && Unlock(s, t, m).waits[u].None?
  {
    var s1 := s.(prio := s.prio[t := Settled(s, t, m)]);
    PrioInv(s, s1.prio);
    ReleaseOthers(s1, t, m, u);
  }

  lemma StepGood(x: Sys, op: Op)
    requires Good(x)
    ensures Good(Apply(x, op)) && |Apply(x, op).s.held| == |x.s.held|
  {
    hide Inv, Lock, Unlock, Teardown, Leave;
    InvSizes(x.s);
    match op
    case LockOp(t, m, wait) =>
      if Running(x, t) && CanLock(x.s, t, m) { LockInv(x.s, t, m, wait); LockOthers(x.s, t, m, wait); }
    case UnlockOp(t, m) =>
      if Running(x, t) && m < |x.s.owner| && x.s.owner[m] == Some(t) {
        UnlockInv(x.s, t, m);
        UnlockKeeps(x.s, t, m);
        forall u | u in x.dead && u < |x.s.held| ensures Apply(x, op).s.held[u] == [] && Apply(x, op).s.waits[u].None? {
          UnlockOthers(x.s, t, m, u);
        }
      }
    case TimeoutOp(t) =>
      if t < |x.s.waits| { LeaveInv(x.s, t); LeaveOthers(x.s, t); }
    case KillOp(t) =>
      if t < |x.s.held| && t !in x.dead {
        TeardownInv(x.s, t);
        forall u | u in x.dead && u < |x.s.held| ensures Apply(x, op).s.held[u] == [] && Apply(x, op).s.waits[u].None? {
          TeardownOthers(x.s, t, u);
        }
      }
  }

  lemma UnlockKeeps(s: State, t: Task, m: Mutex)
    requires Inv(s) && t < |s.held| && m < |s.owner| && s.owner[m] == Some(t)
    ensures Sizes(Unlock(s, t, m)) && |Unlock(s, t, m).held| == |s.held|
  {
    InvSizes(s);
  }

  lemma LockOthers(s: State, t: Task, m: Mutex, wait: bool)
    requires Inv(s) && CanLock(s, t, m)
    ensures var r := Lock(s, t, m, wait).s;
      && |r.held| == |s.held| && |r.waits| == |s.waits|
      && forall u :: 0 <= u < |s.held| && u != t ==> r.held[u] == s.held[u] && r.waits[u] == s.waits[u]
  {
    hide Walk;
  }

  lemma LeaveOthers(s: State, t: Task)
    requires Inv(s) && t < |s.waits|
    ensures var r := Leave(s, t);
      && r.held == s.held && |r.waits| == |s.waits|
      && forall u :: 0 <= u < |s.held| ==> r.waits[u] == s.waits[u] || r.waits[u].None?
  {
  }

  /** Tasks with these base priorities, and n free mutexes. */
  ghost function Init(base: Prios, n: nat): Sys {
    Sys(State(base, base, seq(|base|, i => None), seq(|base|, i => []), seq(n, i => None), seq(n, i => []), seq(n, i => 1)), {})
  }

  lemma InitGood(base: Prios, n: nat)
    ensures Good(Init(base, n)) && Law(Init(base, n).s)
  {
  }

  ghost function Run(base: Prios, n: nat, ops: seq<Op>): (x: Sys)
    ensures Good(x)
    decreases |ops|
  {
    InitGood(base, n);
    if ops == [] then Init(base, n)
    else
      var y := Run(base, n, ops[..|ops| - 1]);
      StepGood(y, ops[|ops| - 1]);
      Apply(y, ops[|ops| - 1])
  }

  /** After every run: a mutex has at most one owner, is on exactly its owner's held list and there
      once, has count 1 exactly when it is free, and has waiters only while somebody owns it. */
  lemma {:induction false} MutexSafety(base: Prios, n: nat, ops: seq<Op>, m: Mutex)
    requires m < |Run(base, n, ops).s.owner|
    ensures var s := Run(base, n, ops).s;
      && Sizes(s)
      && (forall t, u :: 0 <= t < |s.held| && 0 <= u < |s.held| && m in s.held[t] && m in s.held[u] ==> t == u)
      && (forall t :: 0 <= t < |s.held| ==> (m in s.held[t] <==> s.owner[m] == Some(t)) && Distinct(s.held[t]))
      && (s.count[m] == 1 <==> s.owner[m].None?) && s.count[m] <= 1
      && (s.owner[m].None? ==> s.queue[m] == [])
  {
    var s := Run(base, n, ops).s;
    forall t | 0 <= t < |s.held| ensures m in s.held[t] <==> s.owner[m] == Some(t) {
      if m in s.held[t] { HeldOwner(s, t, m); }
    }
    if s.owner[m].None? { FreeFacts(s, m); }
  }

  // --- No barging -----------------------------------------------------------------------------------

  /** What death does to each mutex: t's own go to their first waiter, t leaves the queue it is in, and
      nothing else moves. */
  lemma {:induction false} TeardownShape(s: State, t: Task, k: Mutex)
    requires Inv(s) && t < |s.held| && k < |s.queue|
    ensures var r := Teardown(s, t);
      && Sizes(r) && Inv(r) && |r.queue| == |s.queue| && r.prio == s.prio
      && (k in s.held[t] ==> if s.queue[k] == [] then r.owner[k].None? && r.queue[k] == []
                             else r.owner[k] == Some(s.queue[k][0]) && r.queue[k] == s.queue[k][1..])
      && (k !in s.held[t] ==> r.owner[k] == s.owner[k] && r.queue[k] == if s.waits[t] == Some(k) then Without(s.queue[k], t) else s.queue[k])
    decreases |s.held[t]|
  {
    hide Inv, Release, Leave, Without;
    TeardownInv(s, t);
    InvSizes(s);
    if s.held[t] != [] {
      var m := s.held[t][0];
      HeldShrinks(s, t);
      var s1 := Release(s, t, m);
      ReleaseShape(s, t, m, k);
      TeardownShape(s1, t, k);
      assert m !in s.held[t][1..] && (k in s.held[t] <==> k == m || k in s.held[t][1..]) by { HeldSplit(s, t); }
    } else {
      LeaveShape(s, t, k);
    }
  }

  lemma HeldSplit(s: State, t: Task)
    requires Inv(s) && t < |s.held| && s.held[t] != []
    ensures s.held[t][0] !in s.held[t][1..] && s.held[t] == [s.held[t][0]] + s.held[t][1..]
  {
    assert HeldOk(s.held[t], s.owner, t);
  }

  lemma LeaveShape(s: State, t: Task, k: Mutex)
    requires Inv(s) && t < |s.held| && k < |s.queue|
    ensures var r := Leave(s, t);
      && |r.queue| == |s.queue| && r.prio == s.prio && r.owner == s.owner && |s.owner| == |s.queue| && t < |s.waits|
      && r.queue[k] == if s.waits[t] == Some(k) then Without(s.queue[k], t) else s.queue[k]
  {
    InvSizes(s);
  }

  lemma ReleaseShape(s: State, t: Task, m: Mutex, k: Mutex)
    requires Inv(s) && t < |s.held| && m < |s.owner| && s.owner[m] == Some(t) && k < |s.queue|
    ensures var r := Release(s, t, m);
      && |r.queue| == |s.queue| && |r.owner| == |s.owner| && |r.waits| == |s.waits| && r.prio == s.prio && r.waits[t] == s.waits[t]
      && (k != m ==> r.owner[k] == s.owner[k] && r.queue[k] == s.queue[k])
      && (k == m ==> if s.queue[k] == [] then r.owner[k].None? && r.queue[k] == []
                     else r.owner[k] == Some(s.queue[k][0]) && r.queue[k] == s.queue[k][1..])
      && s.waits[t] != Some(m)
  {
    InvSizes(s);
    if s.queue[m] != [] { assert s.queue[m][0] in s.queue[m]; }
  }

  /** When the owner of a mutex that has waiters unlocks it or dies, the first waiter owns it at once:
      it is never free in between, so nobody else who comes to lock it gets it. */
  lemma {:induction false} NoBarging(x: Sys, op: Op, t: Task, m: Mutex, u: Task, wait: bool)
    requires Good(x) && m < |x.s.owner| && x.s.owner[m] == Some(t) && x.s.queue[m] != []
    requires (op == UnlockOp(t, m) && Running(x, t)) || (op == KillOp(t) && t !in x.dead)
    ensures var y := Apply(x, op).s;
      && Inv(y) && m < |y.owner| && y.owner[m] == Some(x.s.queue[m][0]) && y.count[m] == 0
      && (CanLock(y, u, m) ==> Lock(y, u, m, wait).outcome != Granted)
  {
    hide Walk, Teardown;
    StepGood(x, op);
    InvSizes(x.s);
    OwnerKnown(x.s, m);
    if op.UnlockOp? {
      UnlockShape(x.s, t, m);
    } else {
      TeardownShape(x.s, t, m);
    }
  }

  // --- The inheritance law over runs -----------------------------------------------------------------

  /** Death keeps the law exactly when the first in line leads the queue of every mutex t owns. */
  lemma {:induction false} TeardownLawIff(s: State, t: Task)
    requires Inv(s) && Law(s) && t < |s.held|
    ensures Sizes(Teardown(s, t))
    ensures Law(Teardown(s, t)) <==> forall k :: k in s.held[t] ==> HeadLeads(s, k)
  {
    hide Teardown, HeadLeads, Inv, MutexLaw;
    TeardownInv(s, t);
    InvSizes(s);
    var r := Teardown(s, t);
    forall k | 0 <= k < |s.queue|
      ensures |r.queue| == |s.queue| && (MutexLaw(r, r.prio, k) <==> (k in s.held[t] ==> HeadLeads(s, k)))
    {
      TeardownShape(s, t, k);
      TornLaw(s, t, k, r);
    }
    if |s.queue| == 0 { NoMutexes(s, t); } else { TeardownShape(s, t, 0); }
    if Law(r) {
      forall k | k in s.held[t] ensures HeadLeads(s, k) {
        HeldMutex(s, t, k);
        assert MutexLaw(r, r.prio, k);
      }
    }
  }

  lemma NoMutexes(s: State, t: Task)
    requires Inv(s) && t < |s.held| && |s.queue| == 0
    ensures s.held[t] == [] && Teardown(s, t) == s && s.waits[t].None?
  {
    if s.held[t] != [] { HeldOwner(s, t, s.held[t][0]); }
  }

  lemma TornLaw(s: State, t: Task, k: Mutex, r: State)
    requires Inv(s) && Law(s) && t < |s.held| && k < |s.queue| && Sizes(r) && |r.queue| == |s.queue| && r.prio == s.prio
    requires k in s.held[t] ==> if s.queue[k] == [] then r.owner[k].None? && r.queue[k] == []
                                else r.owner[k] == Some(s.queue[k][0]) && r.queue[k] == s.queue[k][1..]
    requires k !in s.held[t] ==> r.owner[k] == s.owner[k] && (r.queue[k] == s.queue[k] || r.queue[k] == Without(s.queue[k], t))
    ensures MutexLaw(r, r.prio, k) <==> (k in s.held[t] ==> HeadLeads(s, k))
  {
    var q := s.queue[k];
    assert MutexLaw(s, s.prio, k);
    forall i | 0 <= i < |q| ensures q[i] < |s.prio| { assert q[i] in q; }
    if k in s.held[t] {
      if q != [] {
        forall i | 0 <= i < |q| - 1 ensures q[1..][i] == q[i + 1] {}
        assert MutexLaw(r, r.prio, k) <==> forall i :: 1 <= i < |q| ==> s.prio[q[0]] >= s.prio[q[i]];
      }
    } else {
      forall i | 0 <= i < |r.queue[k]| ensures r.queue[k][i] in q {
        WithoutMembers(q, t, r.queue[k][i]);
        assert r.queue[k][i] in r.queue[k];
      }
    }
  }

  /** A step that keeps the law: any but an unlock or a death with somebody in the wrong place in a
      queue. (A lock whose chain is too deep panics, which changes no priority.) */
  ghost predicate Orderly(x: Sys, op: Op)
    requires Good(x)
  {
    match op
    case LockOp(_, _, _) => true
    case UnlockOp(t, m) =>
      Running(x, t) && t < |x.s.held| && m < |x.s.owner| && x.s.owner[m] == Some(t) ==> SafeUnlock(x.s, t, m)
    case TimeoutOp(_) => true
    case KillOp(t) => t < |x.s.held| && t !in x.dead ==> forall k :: k in x.s.held[t] ==> HeadLeads(x.s, k)
  }

  /** One step, from any state where the law holds. */
  lemma {:induction false} StepLaw(x: Sys, op: Op)
    requires Good(x) && Law(x.s)
    ensures Good(Apply(x, op)) && (Law(Apply(x, op).s) <==> Orderly(x, op))
  {
    hide Inv, Lock, Unlock, Teardown, Leave, SafeUnlock, Law;
    StepGood(x, op);
    InvSizes(x.s);
    match op
    case LockOp(t, m, wait) =>
      if Running(x, t) && CanLock(x.s, t, m) {
        LockLaw(x.s, t, m, wait);
        PanicStops(x.s, t, m, wait);
      }
    case UnlockOp(t, m) =>
      if Running(x, t) && m < |x.s.owner| && x.s.owner[m] == Some(t) { UnlockLawIff(x.s, t, m); }
    case TimeoutOp(t) => if t < |x.s.waits| { LeaveLaw(x.s, t); }
    case KillOp(t) => if t < |x.s.held| && t !in x.dead { TeardownLawIff(x.s, t); }
  }

  lemma PanicStops(s: State, t: Task, m: Mutex, wait: bool)
    requires Inv(s) && CanLock(s, t, m)
    ensures Lock(s, t, m, wait).outcome == Panicked ==> Lock(s, t, m, wait).s == s
  {
  }

  ghost predicate OrderlyRun(base: Prios, n: nat, ops: seq<Op>)
    decreases |ops|
  {
    ops == [] || (OrderlyRun(base, n, ops[..|ops| - 1]) && Orderly(Run(base, n, ops[..|ops| - 1]), ops[|ops| - 1]))
  }

  ghost predicate LawAfter(base: Prios, n: nat, ops: seq<Op>, k: nat)
    requires k <= |ops|
  {
    Law(Run(base, n, ops[..k]).s)
  }

  /** The law holds all along a run exactly when each of its steps is orderly. */
  lemma {:induction false} LawHolds(base: Prios, n: nat, ops: seq<Op>)
    ensures OrderlyRun(base, n, ops) <==> forall k :: 0 <= k <= |ops| ==> LawAfter(base, n, ops, k)
    decreases |ops|
  {
    hide Law, Orderly, Run, Apply, Good;
    if ops == [] {
      InitLaw(base, n, ops);
    } else {
      var less := ops[..|ops| - 1];
      LawHolds(base, n, less);
      forall k | 0 <= k <= |less| ensures LawAfter(base, n, less, k) == LawAfter(base, n, ops, k) { assert less[..k] == ops[..k]; }
      if LawAfter(base, n, less, |less|) { LastStep(base, n, ops); }
    }
  }

  lemma InitLaw(base: Prios, n: nat, ops: seq<Op>)
    requires ops == []
    ensures LawAfter(base, n, ops, 0)
  {
    InitGood(base, n);
  }

  lemma LastStep(base: Prios, n: nat, ops: seq<Op>)
    requires ops != [] && LawAfter(base, n, ops[..|ops| - 1], |ops| - 1)
    ensures LawAfter(base, n, ops, |ops|) <==> Orderly(Run(base, n, ops[..|ops| - 1]), ops[|ops| - 1])
  {
    hide Law, Orderly, Apply, Good;
    var less := ops[..|ops| - 1];
    assert less[..|less|] == less && ops[..|ops|] == ops;
    StepLaw(Run(base, n, less), ops[|ops| - 1]);
  }

  // --- Queues in order -------------------------------------------------------------------------------

  ghost predicate AllSorted(s: State)
    requires Inv(s)
  {
    forall m :: 0 <= m < |s.queue| ==> Sorted(s.queue[m], s.prio)
  }

  lemma SortedLeads(s: State)
    requires Inv(s) && AllSorted(s)
    ensures forall m :: 0 <= m < |s.queue| ==> HeadLeads(s, m)
  {
    forall m | 0 <= m < |s.queue| ensures HeadLeads(s, m) {
      assert Sorted(s.queue[m], s.prio);
    }
  }

  /** Changing the priority of tasks that are in no queue leaves the queues in order. */
  lemma SamePlaces(s: State, prio: Prios)
    requires Inv(s) && AllSorted(s) && |prio| == |s.prio|
    requires forall t :: 0 <= t < |prio| && s.waits[t].Some? ==> prio[t] == s.prio[t]
    ensures Inv(s.(prio := prio)) && AllSorted(s.(prio := prio))
  {
    PrioInv(s, prio);
    forall m | 0 <= m < |s.queue| ensures Sorted(s.queue[m], prio) {
      assert Sorted(s.queue[m], s.prio);
      forall i | 0 <= i < |s.queue[m]| ensures s.waits[s.queue[m][i]].Some? { assert s.queue[m][i] in s.queue[m]; }
    }
  }

  /** As long as nobody who is outranked and waiting himself owns the mutex, locking it keeps every
      queue in order: the walk then boosts at most one task, and that one is in no queue. */
  lemma {:induction false} LockSorted(s: State, t: Task, m: Mutex, wait: bool)
    requires Inv(s) && AllSorted(s) && CanLock(s, t, m)
    requires Outranked(s, s.prio, m, s.prio[t]) ==> s.waits[s.owner[m].value].None?
    ensures Inv(Lock(s, t, m, wait).s) && AllSorted(Lock(s, t, m, wait).s)
  {
    LockInv(s, t, m, wait);
    var prio := Walk(s, s.prio, m, s.prio[t], 0).prio;
    assert prio == if Outranked(s, s.prio, m, s.prio[t]) then s.prio[s.owner[m].value := s.prio[t]] else s.prio;
    SamePlaces(s, prio);
    var s1 := s.(prio := prio);
    if s.count[m] == 0 && wait { EnqueuedSorted(s1.queue[m], prio, t); }
  }

  lemma UnlockSorted(s: State, t: Task, m: Mutex)
    requires Inv(s) && AllSorted(s) && t < |s.held| && m < |s.owner| && s.owner[m] == Some(t) && s.waits[t].None?
    ensures Inv(Unlock(s, t, m)) && AllSorted(Unlock(s, t, m))
  {
    hide Raised;
    UnlockInv(s, t, m);
    UnlockShape(s, t, m);
    var r := Unlock(s, t, m);
    SamePlaces(s, r.prio);
    hide Unlock;
    var s1 := s.(prio := r.prio);
    forall k | 0 <= k < |r.queue| ensures Sorted(r.queue[k], r.prio) { assert Sorted(s1.queue[k], s1.prio); }
  }

  lemma LeaveSorted(s: State, t: Task)
    requires Inv(s) && AllSorted(s) && t < |s.waits|
    ensures Inv(Leave(s, t)) && AllSorted(Leave(s, t))
  {
    LeaveInv(s, t);
    if s.waits[t].Some? { WithoutSorted(s.queue[s.waits[t].value], s.prio, t); }
  }

  lemma TeardownSorted(s: State, t: Task)
    requires Inv(s) && AllSorted(s) && t < |s.held|
    ensures Inv(Teardown(s, t)) && AllSorted(Teardown(s, t))
  {
    hide Teardown;
    TeardownInv(s, t);
    InvSizes(s);
    var r := Teardown(s, t);
    forall k | 0 <= k < |r.queue| ensures Sorted(r.queue[k], r.prio) {
      if |s.queue| == 0 { NoMutexes(s, t); } else { TeardownShape(s, t, 0); }
      TeardownShape(s, t, k);
      assert Sorted(s.queue[k], s.prio);
      WithoutSorted(s.queue[k], s.prio, t);
    }
  }

  /** A lock that would not boost a task waiting for another mutex. */
  ghost predicate Flat(x: Sys, op: Op) {
    op.LockOp? && Running(x, op.t) && CanLock(x.s, op.t, op.m) && op.t < |x.s.prio| ==>
      Outranked(x.s, x.s.prio, op.m, x.s.prio[op.t]) && x.s.owner[op.m].value < |x.s.waits| ==>
        x.s.waits[x.s.owner[op.m].value].None?
  }

  lemma FlatStep(x: Sys, op: Op)
    requires Good(x) && Law(x.s) && AllSorted(x.s) && Flat(x, op)
    ensures Good(Apply(x, op)) && Law(Apply(x, op).s) && AllSorted(Apply(x, op).s)
  {
    hide Inv, AllSorted, Law, Lock, Unlock, Teardown, Leave;
    StepGood(x, op);
    InvSizes(x.s);
    StepLaw(x, op);
    SortedLeads(x.s);
    match op
    case LockOp(t, m, wait) =>
      if Running(x, t) && CanLock(x.s, t, m) {
        OwnerKnown(x.s, m);
        LockSorted(x.s, t, m, wait);
        OneHop(x.s, t, m, wait);
      }
    case UnlockOp(t, m) =>
      if Running(x, t) && m < |x.s.owner| && x.s.owner[m] == Some(t) {
        SortedIsSafe(x.s, t, m);
        UnlockSorted(x.s, t, m);
      }
    case TimeoutOp(t) => if t < |x.s.waits| { LeaveSorted(x.s, t); }
    case KillOp(t) =>
      if t < |x.s.held| && t !in x.dead {
        forall k | k in x.s.held[t] ensures HeadLeads(x.s, k) { HeldMutex(x.s, t, k); }
        TeardownSorted(x.s, t);
      }
  }

  lemma OneHop(s: State, t: Task, m: Mutex, wait: bool)
    requires Inv(s) && CanLock(s, t, m) && (Outranked(s, s.prio, m, s.prio[t]) ==> s.waits[s.owner[m].value].None?)
    ensures Lock(s, t, m, wait).outcome != Panicked
  {
  }

  ghost predicate FlatRun(base: Prios, n: nat, ops: seq<Op>)
    decreases |ops|
  {
    ops == [] || (FlatRun(base, n, ops[..|ops| - 1]) && Flat(Run(base, n, ops[..|ops| - 1]), ops[|ops| - 1]))
  }

  /** While no boost reaches a task that is itself waiting, nothing else is needed: after every run all
      queues are in order and no owner is less urgent than one of its waiters. */
  lemma {:induction false} FlatRunsKeepLaw(base: Prios, n: nat, ops: seq<Op>)
    requires FlatRun(base, n, ops)
    ensures Law(Run(base, n, ops).s) && AllSorted(Run(base, n, ops).s)
    decreases |ops|
  {
    if ops == [] {
      InitGood(base, n);
    } else {
      FlatRunsKeepLaw(base, n, ops[..|ops| - 1]);
      FlatStep(Run(base, n, ops[..|ops| - 1]), ops[|ops| - 1]);
    }
  }

  // --- Where it goes wrong ---------------------------------------------------------------------------

  /** Four tasks, two mutexes. Task 0 takes mutex 0 and task 2 mutex 1; then 1 and 2 wait for mutex 0, in
      order of urgency. */
  function NestedOps(): seq<Op> { [LockOp(0, 0, true), LockOp(2, 1, true), LockOp(1, 0, true), LockOp(2, 0, true)] }

  ghost function Nested(): State {
    State([0, 2, 1, 5], [2, 2, 1, 5], [None, Some(0), Some(0), None], [[0], [], [1], []],
          [Some(0), Some(2)], [[1, 2], []], [0, 0])
  }

  lemma Snoc(base: Prios, n: nat, ops: seq<Op>, op: Op)
    ensures Run(base, n, ops + [op]) == Apply(Run(base, n, ops), op)
  {
    assert (ops + [op])[..|ops|] == ops;
  }

  /** An uncontended lock. */
  lemma Takes(x: Sys, t: Task, m: Mutex)
    requires Good(x) && Running(x, t) && CanLock(x.s, t, m) && x.s.owner[m].None?
    ensures t < |x.s.held| && m < |x.s.count| && Apply(x, LockOp(t, m, true)) == x.(s := Acquire(x.s, t, m))
  {
    FreeFacts(x.s, m);
  }

  /** One that has to wait. */
  lemma Waits(x: Sys, t: Task, m: Mutex, prio: Prios, q: seq<Task>)
    requires Good(x) && Running(x, t) && CanLock(x.s, t, m) && m < |x.s.count| && x.s.count[m] == 0 && t < |x.s.prio| && m < |x.s.queue|
    requires Walk(x.s, x.s.prio, m, x.s.prio[t], 0) == Walked(prio)
    requires Known(x.s.queue[m], prio) && t < |prio| && Enqueued(x.s.queue[m], prio, t) == q
    ensures Apply(x, LockOp(t, m, true)) == x.(s := x.s.(prio := prio, queue := x.s.queue[m := q], waits := x.s.waits[t := Some(m)]))
  {
  }

  ghost function Base(): Prios { [0, 2, 1, 5] }

  lemma Uncontended()
    ensures var x := Init(Base(), 2);
      && |x.s.waits| == 4 && x.s.waits == [None, None, None, None] && x.s.held == [[], [], [], []]
      && x.s.owner == [None, None] && x.s.count == [1, 1] && x.s.queue == [[], []] && x.s.prio == Base() && x.dead == {}
  {
  }

  lemma FirstTaken()
    ensures Run(Base(), 2, [LockOp(0, 0, true)])
      == Sys(State(Base(), Base(), [None, None, None, None], [[0], [], [], []], [Some(0), None], [[], []], [0, 1]), {})
  {
    hide Good, Apply;
    var a := [LockOp(0, 0, true)];
    Snoc(Base(), 2, [], LockOp(0, 0, true));
    assert [] + a == a;
    Uncontended();
    var x := Init(Base(), 2);
    Takes(x, 0, 0);
    var none: seq<Mutex> := [];
    assert [0] + none == [0];
  }

  lemma SecondTaken()
    ensures Run(Base(), 2, [LockOp(0, 0, true), LockOp(2, 1, true)])
      == Sys(State(Base(), Base(), [None, None, None, None], [[0], [], [1], []], [Some(0), Some(2)], [[], []], [0, 0]), {})
  {
    hide Good, Apply, Run;
    FirstTaken();
    var a := [LockOp(0, 0, true)];
    Snoc(Base(), 2, a, LockOp(2, 1, true));
    assert a + [LockOp(2, 1, true)] == [LockOp(0, 0, true), LockOp(2, 1, true)];
    Takes(Run(Base(), 2, a), 2, 1);
    var none: seq<Mutex> := [];
    assert [1] + none == [1];
  }

  ghost function Raise(): Prios { [2, 2, 1, 5] }

  /** Behind as many as outrank it or are its equals. */
  lemma EnqueuedAt(q: seq<Task>, prio: Prios, t: Task, k: nat)
    requires Known(q, prio) && t < |prio| && k <= |q| && (forall i :: 0 <= i < k ==> prio[q[i]] >= prio[t]) && (k < |q| ==> prio[q[k]] < prio[t])
    ensures Enqueued(q, prio, t) == q[..k] + [t] + q[k..]
  {
    AheadIs(q, ByPrio(prio), prio[t], k);
  }

  /** Where the two waiters go. */
  lemma Queues()
    ensures Known([], Raise()) && Enqueued([], Raise(), 1) == [1]
    ensures Known([1], Raise()) && Enqueued([1], Raise(), 2) == [1, 2]
  {
    hide Enqueued;
    EnqueuedAt([], Raise(), 1, 0);
    EnqueuedAt([1], Raise(), 2, 1);
  }

  /** The first of them boosts the owner, the second need not. */
  lemma Walks(s: State)
    requires |s.owner| == 2 && s.owner[0] == Some(0) && |s.waits| == 4 && s.waits[0].None?
    ensures Walk(s, Base(), 0, 2, 0) == Walked(Raise()) && Walk(s, Raise(), 0, 1, 0) == Walked(Raise())
  {
    BoostShrinks(Base(), 2, 0);
    assert Base()[0 := 2] == Raise();
  }

  lemma FirstWaits()
    ensures Run(Base(), 2, [LockOp(0, 0, true), LockOp(2, 1, true)] + [LockOp(1, 0, true)])
      == Sys(State(Base(), Raise(), [None, Some(0), None, None], [[0], [], [1], []], [Some(0), Some(2)], [[1], []], [0, 0]), {})
  {
    hide Good, Apply, Run, Walk, Enqueued, Raise, Known;
    var a := [LockOp(0, 0, true), LockOp(2, 1, true)];
    SecondTaken();
    Snoc(Base(), 2, a, LockOp(1, 0, true));
    Walks(Run(Base(), 2, a).s);
    Queues();
    assert |Raise()| == 4 by { RaiseSize(); }
    Waits(Run(Base(), 2, a), 1, 0, Raise(), [1]);
  }

  lemma RaiseSize()
    ensures |Raise()| == 4 && Raise()[2] == 1
  {
  }

  lemma Nests()
    ensures Run(Base(), 2, NestedOps()) == Sys(Nested(), {})
  {
    hide Good, Apply, Run, Walk, Enqueued, Known, NestedOps, Nested;
    var ab := [LockOp(0, 0, true), LockOp(2, 1, true)] + [LockOp(1, 0, true)];
    FirstWaits();
    Snoc(Base(), 2, ab, LockOp(2, 0, true));
    assert ab + [LockOp(2, 0, true)] == NestedOps() by { SpelledOut(); }
    var x := Run(Base(), 2, ab);
    Walks(x.s);
    Queues();
    Waits(x, 2, 0, Raise(), [1, 2]);
    assert Nested() == x.s.(queue := x.s.queue[0 := [1, 2]], waits := x.s.waits[2 := Some(0)]) by { NestedIs(x.s); }
  }

  lemma SpelledOut()
    ensures [LockOp(0, 0, true), LockOp(2, 1, true)] + [LockOp(1, 0, true)] + [LockOp(2, 0, true)] == NestedOps()
  {
  }

  lemma NestedIs(s: State)
    requires s == State(Base(), Raise(), [None, Some(0), None, None], [[0], [], [1], []], [Some(0), Some(2)], [[1], []], [0, 0])
    ensures Nested() == s.(queue := s.queue[0 := [1, 2]], waits := s.waits[2 := Some(0)])
  {
  }

  /** Then task 3 locks mutex 1 and waits: 2 is boosted past 1 where it stands in the queue of mutex 0,
      and 0 after it. All is in order still. When 0 unlocks mutex 0 it goes to 1, and 2 waits for somebody
      less urgent. */
  lemma {:induction false} BoostedInQueue()
    ensures var x := Run(Base(), 2, NestedOps()).s; Law(x) && AllSorted(x)
    ensures var y := Run(Base(), 2, NestedOps() + [LockOp(3, 1, true)]).s;
      Law(y) && y.prio == [5, 2, 5, 5] && |y.queue| == 2 && y.queue[0] == [1, 2]
    ensures !Law(Run(Base(), 2, NestedOps() + [LockOp(3, 1, true), UnlockOp(0, 0)]).s)
  {
    hide Good, Run, Law, SafeUnlock, Nested, Lock, Inv, AllSorted;
    Nests();
    Boosts();
    var c := NestedOps() + [LockOp(3, 1, true)];
    Snoc(Base(), 2, NestedOps(), LockOp(3, 1, true));
    Snoc(Base(), 2, c, UnlockOp(0, 0));
    assert c + [UnlockOp(0, 0)] == NestedOps() + [LockOp(3, 1, true), UnlockOp(0, 0)];
    var y := Run(Base(), 2, c);
    StepLaw(y, UnlockOp(0, 0));
  }

  lemma Boosts()
    ensures Inv(Nested()) && Law(Nested()) && AllSorted(Nested()) && CanLock(Nested(), 3, 1) && |Nested().waits| == 4 && Nested().waits[3].None?
    ensures var l := Lock(Nested(), 3, 1, true);
      && l.outcome == Parked && Inv(l.s) && Law(l.s) && l.s.prio == [5, 2, 5, 5] && |l.s.queue| == 2 && l.s.queue[0] == [1, 2]
      && |l.s.owner| == 2 && l.s.owner[0] == Some(0) && |l.s.held| == 4 && |l.s.waits| == 4 && l.s.waits[0].None? && !SafeUnlock(l.s, 0, 0)
  {
    var s := Nested();
    NestedInv();
    var p1 := [2, 2, 5, 5];
    var p2 := [5, 2, 5, 5];
    BoostShrinks(s.prio, 5, 2);
    BoostShrinks(p1, 5, 0);
    assert s.prio[2 := 5] == p1 && p1[0 := 5] == p2;
    assert Walk(s, p1, 0, 5, 1) == Walked(p2);
    assert Walk(s, s.prio, 1, 5, 0) == Walked(p2);
    LockLaw(s, 3, 1, true);
    var l := Lock(s, 3, 1, true).s;
    assert l.queue[0] == [1, 2] && l.owner[0] == Some(0) && l.waits[0].None?;
    assert !HeadLeads(l, 0) by { assert l.prio[l.queue[0][0]] < l.prio[l.queue[0][1]]; }
  }

  lemma NestedInv()
    ensures Inv(Nested()) && Law(Nested()) && AllSorted(Nested())
  {
    hide Owned, Queued;
    NestedOwned();
    NestedQueued();
  }

  lemma NestedOwned()
    ensures Sizes(Nested()) && Owned(Nested())
  {
    var s := Nested();
    assert s.held[0] == [0] && s.held[1] == [] && s.held[2] == [1] && s.held[3] == [];
  }

  lemma NestedQueued()
    ensures Sizes(Nested()) && Queued(Nested())
  {
    var s := Nested();
    assert s.queue[0] == [1, 2] && s.queue[1] == [];
    assert s.waits[0].None? && s.waits[1] == Some(0) && s.waits[2] == Some(0) && s.waits[3].None?;
    assert 1 in s.queue[0] && 2 in s.queue[0];
  }
}
