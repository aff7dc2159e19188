/** The mutex code of kernel/ipc.c in place: the inheritance walk, the hand-off, the recomputation of
    a priority and the teardown of a task, as loops over the task and mutex fields. */
module MutexImpl {
  import opened Lists
  import opened WaitQueue
  import opened MutexModel
  import opened MutexProof
  import opened MutexInherit
  import MutexRuns

  class Mutexes {
    const base: Prios
    var prio: Prios
    var waits: seq<Option<Mutex>>
    var held: seq<seq<Mutex>>
    var owner: seq<Option<Task>>
    var queue: seq<seq<Task>>
    var count: seq<nat>

    ghost function Now(): State
      reads this
    {
      State(base, prio, waits, held, owner, queue, count)
    }

    ghost predicate Valid()
      reads this
    {
      Inv(Now()) && Sizes(Now())
    }

    constructor (bases: Prios, n: nat)
      ensures Valid() && base == bases && prio == bases && |owner| == n
      ensures forall m :: 0 <= m < n ==> owner[m].None? && count[m] == 1
    {
      base, prio := bases, bases;
      waits, held := seq(|bases|, i => None), seq(|bases|, i => []);
      owner, queue, count := seq(n, i => None), seq(n, i => []), seq(n, i => 1);
    }

    /** The inheritance walk at the start of a lock. False is a panic: the chain is too deep. */
    method Inherit(m: Mutex, p: nat) returns (ok: bool)
      requires Valid() && m < |owner|
      modifies this`prio
      ensures Valid()
      ensures Walk(old(Now()), old(prio), m, p, 0) == if ok then Walked(prio) else Panic
      ensures !ok || |prio| == |old(prio)|
    {
      hide Inv, Walk;
      ghost var s, was := Now(), prio;
      var k: nat, depth: nat, more := m, 0, true;
      KnownOwners(s);
      while more && owner[k].Some? && prio[owner[k].value] < p
        invariant Now() == s.(prio := prio) && |prio| == |was| && k < |owner| && depth <= MAX_PI_DEPTH
        invariant OwnersKnown(s)
        invariant more ==> Walk(s, was, m, p, 0) == Walk(s, prio, k, p, depth)
        invariant !more ==> Walk(s, was, m, p, 0) == Walked(prio)
        decreases more, Below(prio, p)
      {
        var o := owner[k].value;
        WalkOn(s, prio, k, p, depth);
        depth := depth + 1;
        if depth > MAX_PI_DEPTH {
          PrioInv(s, prio);
          return false;
        }
        prio := prio[o := p];
        if waits[o].None? { more := false; } else { k := waits[o].value; }
      }
      if more { WalkEnds(s, prio, k, p, depth); }
      PrioInv(s, prio);
      return true;
    }

    /** mutex_lock_common. */
    method Lock(t: Task, m: Mutex, wait: bool) returns (outcome: Outcome)
      requires Valid() && CanLock(Now(), t, m)
      modifies this
      ensures Valid()
      ensures var l := MutexModel.Lock(old(Now()), t, m, wait);
        outcome == l.outcome && (outcome != Panicked ==> Now() == l.s)
      ensures outcome == Panicked <==> exists os :: |os| == MAX_PI_DEPTH + 1 && LowChain(old(Now()), old(prio), m, old(prio)[t], os)
      ensures outcome != Panicked ==> (outcome == Granted <==> old(owner)[m].None?)
      ensures outcome != Panicked ==> (outcome == Refused <==> old(owner)[m].Some? && !wait)
      ensures outcome != Panicked ==> (outcome == Parked <==> old(owner)[m].Some? && wait)
      ensures outcome == Granted ==>
        && owner == old(owner)[m := Some(t)] && held == old(held)[t := [m] + old(held)[t]] && count == old(count)[m := 0]
        && waits == old(waits) && queue == old(queue)
      ensures outcome == Refused ==> owner == old(owner) && held == old(held) && count == old(count) && waits == old(waits) && queue == old(queue)
      ensures outcome == Parked ==>
        && owner == old(owner) && held == old(held) && count == old(count) && waits == old(waits)[t := Some(m)]
        && Known(old(queue)[m], prio) && m < |queue| && Lined(old(queue)[m], queue[m], prio, t) && queue == old(queue)[m := queue[m]]
      ensures outcome != Panicked ==> |prio| == |old(prio)| && forall o :: 0 <= o < |prio| ==>
        prio[o] == if OnChain(old(Now()), old(prio), m, old(prio)[t], o) then old(prio)[t] else old(prio)[o]
      ensures outcome != Panicked && old(owner)[m].Some? ==> old(owner)[m].value < |prio| && prio[old(owner)[m].value] >= old(prio)[t]
    {
      hide Inv, Walk, Lined, Lifted, LowChain, OnChain;
      ghost var s := Now();
      LiftsExactly(s, prio, m, prio[t], 0);
      PanicsExactly(s, prio, m, prio[t], 0);
      WalkLifts(s, prio, m, prio[t], 0);
      LockFacts(s, t, m);
      LockInv(s, t, m, wait);
      var ok := Inherit(m, prio[t]);
      if !ok { return Panicked; }
      if count[m] > 0 {
        count := count[m := 0];
        owner := owner[m := Some(t)];
        held := held[t := [m] + held[t]];
        return Granted;
      }
      if !wait { return Refused; }
      QueueKnown(Now(), m);
      EnqueuedLines(queue[m], prio, t);
      var q := Enqueue(queue[m], prio, t);
      queue := queue[m := q];
      waits := waits[t := Some(m)];
      return Parked;
    }

    /** mutex_unlock_common. */
    method Unlock(t: Task, m: Mutex) returns (ok: bool)
      requires Valid() && t < |held| && m < |owner|
      modifies this
      ensures Valid() && ok == (old(owner)[m] == Some(t))
      ensures Now() == if ok then MutexModel.Unlock(old(Now()), t, m) else old(Now())
      ensures ok ==> HandedOn(old(Now()), Now(), m) && (forall k :: k in held[t] <==> k in old(held)[t] && k != m)
      ensures ok ==> SettledAt(Now(), t, prio[t]) && prio == old(prio)[t := prio[t]]
    {
      hide Inv, MutexModel.HandOff, Raised, HandedOn, SettledAt;
      if owner[m] != Some(t) { return false; }
      ghost var s := Now();
      UnlockFacts(s, t, m);
      UnlockInv(s, t, m);
      InvSizes(s);
      InvSizes(MutexModel.Unlock(s, t, m));
      var mine := Remove(held[t], m);
      var p := Recompute(base[t], mine);
      held := held[t := mine];
      prio := prio[t := p];
      HandOff(m);
      return true;
    }

    /** A base priority, raised to the first waiter of every mutex on the list. */
    method Recompute(from: nat, mine: seq<Mutex>) returns (p: nat)
      requires Valid()
      ensures p == Raised(Now(), from, mine)
    {
      hide Inv, Raised;
      p := from;
      var i := 0;
      NothingHeld(Now(), from);
      assert mine[..0] == [];
      while i < |mine|
        invariant i <= |mine| && p == Raised(Now(), from, mine[..i])
      {
        RaisedMore(Now(), from, mine, i);
        var k := mine[i];
        if k < |queue| && queue[k] != [] && queue[k][0] < |prio| && prio[queue[k][0]] > p { p := prio[queue[k][0]]; }
        i := i + 1;
      }
      assert mine[..i] == mine;
    }

    /** The mutex goes straight to the first waiter, or is free. */
    method HandOff(m: Mutex)
      requires Sizes(Now()) && m < |owner| && (queue[m] != [] ==> queue[m][0] < |waits|)
      modifies this`queue, this`waits, this`owner, this`held, this`count
      ensures Now() == MutexModel.HandOff(old(Now()), m)
    {
      if queue[m] == [] {
        owner := owner[m := None];
        count := count[m := count[m] + 1];
      } else {
        var w := queue[m][0];
        queue := queue[m := queue[m][1..]];
        waits := waits[w := None];
        owner := owner[m := Some(w)];
        held := held[w := [m] + held[w]];
      }
    }

    /** A waiter whose timeout expired is taken out of the queue. */
    method Expire(t: Task)
      requires Valid() && t < |waits|
      modifies this`queue, this`waits
      ensures Valid() && Now() == Leave(old(Now()), t)
      ensures |waits| == |old(waits)| && waits == old(waits)[t := None] && |queue| == |old(queue)|
      ensures forall k :: 0 <= k < |queue| ==> if old(waits)[t] == Some(k) then forall u :: u in queue[k] <==> u in old(queue)[k] && u != t
                                               else queue[k] == old(queue)[k]
    {
      hide Inv;
      LeaveFacts(Now(), t);
      LeaveInv(Now(), t);
      if waits[t].Some? {
        var m := waits[t].value;
        WaitKnown(Now(), t);
        var q := Remove(queue[m], t);
        queue := queue[m := q];
        waits := waits[t := None];
      }
    }

    /** v_ipc_task_teardown. */
    method Teardown(t: Task)
      requires Valid() && t < |held|
      modifies this
      ensures Valid() && Now() == MutexProof.Teardown(old(Now()), t)
      ensures held[t] == [] && waits[t].None?
      ensures prio == old(prio) && |queue| == |owner| == |old(queue)|
      ensures forall k :: 0 <= k < |queue| && k in old(held)[t] ==>
        if old(queue)[k] == [] then owner[k].None? && queue[k] == [] else owner[k] == Some(old(queue)[k][0]) && queue[k] == old(queue)[k][1..]
      ensures forall k :: 0 <= k < |queue| && k !in old(held)[t] ==> owner[k] == old(owner)[k]
    {
      hide Inv, MutexModel.HandOff, MutexProof.Teardown, MutexModel.Release;
      ghost var s := Now();
      TornFacts(s, t);
      TeardownInv(s, t);
      while held[t] != []
        invariant Valid() && t < |held| && MutexProof.Teardown(Now(), t) == MutexProof.Teardown(s, t)
        decreases |held[t]|
      {
        ghost var s1 := Now();
        HeldShrinks(s1, t);
        TeardownStep(s1, t);
        var m := held[t][0];
        held := held[t := held[t][1..]];
        QueueHead(s1, m);
        HandOff(m);
      }
      TeardownLast(Now(), t);
      Expire(t);
    }
  }

  /** Mutex m is free, or its first waiter owns it and waits no longer; no other mutex changed hands. */
  ghost predicate HandedOn(s: State, r: State, m: Mutex) {
    && m < |s.queue| && |r.queue| == |s.queue| && |r.owner| == |s.owner| == |s.queue| && |r.count| == |s.count| == |s.queue| && |r.waits| == |s.waits|
    && (forall k :: 0 <= k < |s.queue| && k != m ==> r.owner[k] == s.owner[k] && r.queue[k] == s.queue[k] && r.count[k] == s.count[k])
    && (s.queue[m] == [] ==> r.owner[m].None? && r.count[m] == 1 && r.queue[m] == [] && r.waits == s.waits)
    && (s.queue[m] != [] ==> var w := s.queue[m][0];
          && r.owner[m] == Some(w) && r.count[m] == 0 && r.queue[m] == s.queue[m][1..]
          && w < |s.waits| && w < |r.held| && r.waits == s.waits[w := None] && m in r.held[w])
  }

  /** The base priority, or the highest of the first in line for what the task holds. */
  ghost predicate SettledAt(s: State, t: Task, p: nat) {
    && t < |s.base| && t < |s.held| && s.base[t] <= p && (forall k :: k in s.held[t] ==> Top(s, k) <= p)
    && (p == s.base[t] || exists k :: k in s.held[t] && Top(s, k) == p)
  }

  lemma LockFacts(s: State, t: Task, m: Mutex)
    requires Inv(s) && CanLock(s, t, m)
    ensures |s.owner| == |s.queue| == |s.count| && |s.prio| == |s.held| == |s.waits|
    ensures s.count[m] > 0 <==> s.owner[m].None?
    ensures s.owner[m].Some? ==> s.owner[m].value < |s.prio|
  {
    assert OwnerOk(s.owner[m], s.count[m], s.held, m);
  }

  lemma UnlockFacts(s: State, t: Task, m: Mutex)
    requires Inv(s) && t < |s.held| && m < |s.owner| && s.owner[m] == Some(t)
    ensures Sizes(s) && Sizes(MutexModel.Unlock(s, t, m)) && |MutexModel.Unlock(s, t, m).prio| == |s.prio|
    ensures var r := MutexModel.Unlock(s, t, m);
      && HandedOn(s, r, m) && (forall k :: k in r.held[t] <==> k in s.held[t] && k != m)
      && SettledAt(r, t, r.prio[t]) && r.prio == s.prio[t := r.prio[t]]
  {
    InvSizes(s);
    HeadNotOwner(s, t, m);
    UnlockHands(s, t, m);
    HeldAfter(s, t, m);
    KeptHeads(s, t);
    Others(s, MutexModel.Unlock(s, t, m), m);
    hide Inv, MutexModel.Unlock, HandedOn, SettledAt, Without, Raised, Settled;
    SettledIs(s, MutexModel.Unlock(s, t, m), t, m);
  }

  /** Nobody waits for what it owns. */
  lemma KeptHeads(s: State, t: Task)
    requires Inv(s) && t < |s.held|
    ensures forall k :: k in s.held[t] ==> k < |s.queue| && (s.queue[k] != [] ==> s.queue[k][0] != t)
  {
    InvSizes(s);
    forall k | k in s.held[t] ensures k < |s.queue| && (s.queue[k] != [] ==> s.queue[k][0] != t) {
      HeldOwner(s, t, k);
      HeadNotOwner(s, t, k);
    }
  }

  lemma Others(s: State, r: State, m: Mutex)
    requires HandedOn(s, r, m)
    ensures |r.queue| == |s.queue| && forall k :: 0 <= k < |s.queue| && k != m ==> r.queue[k] == s.queue[k]
  {
  }

  lemma HeadNotOwner(s: State, t: Task, m: Mutex)
    requires Inv(s) && m < |s.owner| && s.owner[m] == Some(t)
    ensures |s.queue| == |s.owner| && (s.queue[m] != [] ==> s.queue[m][0] != t && s.queue[m][0] < |s.waits| && s.queue[m][0] < |s.held|)
    ensures m < |s.count| && s.count[m] == 0
  {
    assert OwnerOk(s.owner[m], s.count[m], s.held, m);
    if s.queue[m] != [] {
      assert s.queue[m][0] in s.queue[m];
      assert WaitOk(s.waits[s.queue[m][0]], s.queue, s.owner, s.queue[m][0]);
    }
  }

  lemma UnlockHands(s: State, t: Task, m: Mutex)
    requires Sizes(s) && t < |s.held| && m < |s.owner| && s.count[m] == 0
    requires s.queue[m] != [] ==> s.queue[m][0] < |s.waits|
    ensures var r := MutexModel.Unlock(s, t, m);
      && Sizes(r) && |r.prio| == |s.prio| && |r.held| == |s.held| && HandedOn(s, r, m)
      && r.base == s.base && r.prio == s.prio[t := Settled(s, t, m)]
  {
    hide Raised, Without;
  }

  lemma HeldAfter(s: State, t: Task, m: Mutex)
    requires Inv(s) && t < |s.held| && m < |s.owner| && s.owner[m] == Some(t) && Sizes(s)
    requires s.queue[m] != [] ==> s.queue[m][0] != t && s.queue[m][0] < |s.waits|
    ensures var r := MutexModel.Unlock(s, t, m);
      t < |r.held| && r.held[t] == Without(s.held[t], m) && forall k :: k in r.held[t] <==> k in s.held[t] && k != m
  {
    assert HeldOk(s.held[t], s.owner, t);
    RemovedMembers(s.held[t], m);
    hide Raised;
  }

  /** The first in line for what t keeps are the same before and after. */
  lemma SettledIs(s: State, r: State, t: Task, m: Mutex)
    requires Sizes(s) && Sizes(r) && t < |s.held| && t < |r.held| && r.held[t] == Without(s.held[t], m) && r.base == s.base
    requires forall k :: k in r.held[t] <==> k in s.held[t] && k != m
    requires |r.queue| == |s.queue| && forall k :: 0 <= k < |s.queue| && k != m ==> r.queue[k] == s.queue[k]
    requires |r.prio| == |s.prio| && r.prio == s.prio[t := Settled(s, t, m)]
    requires forall k :: 0 <= k < |s.queue| && s.queue[k] != [] && k != m ==> s.queue[k][0] != t || k !in r.held[t]
    ensures SettledAt(r, t, r.prio[t])
  {
    var l := Without(s.held[t], m);
    forall k | k in l ensures Top(r, k) == Top(s, k) {}
    forall k | k in l ensures Top(s, k) <= r.prio[t] {
      var i :| 0 <= i < |l| && l[i] == k;
      assert Top(s, l[i]) <= Settled(s, t, m);
    }
    if r.prio[t] != s.base[t] {
      var i :| 0 <= i < |l| && Settled(s, t, m) == Top(s, l[i]);
      assert l[i] in l;
    }
  }

  lemma LeaveFacts(s: State, t: Task)
    requires Inv(s) && t < |s.waits|
    ensures var r := Leave(s, t);
      && r.waits == s.waits[t := None] && |r.queue| == |s.queue|
      && forall k :: 0 <= k < |s.queue| ==> if s.waits[t] == Some(k) then forall u :: u in r.queue[k] <==> u in s.queue[k] && u != t
                                            else r.queue[k] == s.queue[k]
  {
    assert s.waits[t].None? ==> s.waits[t := None] == s.waits;
    if s.waits[t].Some? { RemovedMembers(s.queue[s.waits[t].value], t); }
  }

  lemma TornFacts(s: State, t: Task)
    requires Inv(s) && t < |s.held|
    ensures var r := MutexProof.Teardown(s, t);
      && r.prio == s.prio && |r.queue| == |r.owner| == |s.queue|
      && (forall k :: 0 <= k < |s.queue| && k in s.held[t] ==>
            if s.queue[k] == [] then r.owner[k].None? && r.queue[k] == [] else r.owner[k] == Some(s.queue[k][0]) && r.queue[k] == s.queue[k][1..])
      && forall k :: 0 <= k < |s.queue| && k !in s.held[t] ==> k < |s.owner| && r.owner[k] == s.owner[k]
  {
    hide MutexProof.Teardown;
    InvSizes(s);
    if |s.queue| == 0 { MutexRuns.NoMutexes(s, t); } else { MutexRuns.TeardownShape(s, t, 0); }
    hide Inv;
    var r := MutexProof.Teardown(s, t);
    forall k | 0 <= k < |s.queue|
      ensures k in s.held[t] ==> if s.queue[k] == [] then r.owner[k].None? && r.queue[k] == [] else r.owner[k] == Some(s.queue[k][0]) && r.queue[k] == s.queue[k][1..]
      ensures k !in s.held[t] ==> r.owner[k] == s.owner[k]
    {
      MutexRuns.TeardownShape(s, t, k);
    }
  }

  ghost predicate OwnersKnown(s: State) {
    && |s.waits| == |s.prio| && |s.owner| == |s.queue|
    && (forall m :: 0 <= m < |s.owner| && s.owner[m].Some? ==> s.owner[m].value < |s.prio|)
    && (forall t :: 0 <= t < |s.waits| && s.waits[t].Some? ==> s.waits[t].value < |s.owner|)
  }

  lemma KnownOwners(s: State)
    requires Inv(s)
    ensures OwnersKnown(s)
  {
  }

  lemma NothingHeld(s: State, base: nat)
    ensures Raised(s, base, []) == base
  {
  }

  lemma WalkOn(s: State, prio: Prios, m: Mutex, p: nat, depth: nat)
    requires m < |s.owner| && s.owner[m].Some? && s.owner[m].value < |prio| == |s.waits| && prio[s.owner[m].value] < p
    ensures Below(prio[s.owner[m].value := p], p) < Below(prio, p)
    ensures depth + 1 > MAX_PI_DEPTH ==> Walk(s, prio, m, p, depth) == Panic
    ensures var o := s.owner[m].value; depth + 1 <= MAX_PI_DEPTH ==>
      Walk(s, prio, m, p, depth) == if s.waits[o].None? then Walked(prio[o := p]) else Walk(s, prio[o := p], s.waits[o].value, p, depth + 1)
  {
    BoostShrinks(prio, p, s.owner[m].value);
  }

  lemma WalkEnds(s: State, prio: Prios, m: Mutex, p: nat, depth: nat)
    requires !Outranked(s, prio, m, p)
    ensures Walk(s, prio, m, p, depth) == Walked(prio)
  {
  }

  lemma QueueKnown(s: State, m: Mutex)
    requires Inv(s) && m < |s.queue|
    ensures Known(s.queue[m], s.prio)
  {
  }

  lemma QueueHead(s: State, m: Mutex)
    requires Inv(s) && m < |s.queue|
    ensures Sizes(s) && (s.queue[m] != [] ==> s.queue[m][0] < |s.waits|)
  {
    InvSizes(s);
  }

  lemma WaitKnown(s: State, t: Task)
    requires Inv(s) && t < |s.waits| && s.waits[t].Some?
    ensures s.waits[t].value < |s.queue|
  {
  }

  lemma RaisedMore(s: State, base: nat, held: seq<Mutex>, i: nat)
    requires i < |held|
    ensures Raised(s, base, held[..i + 1]) ==
      if Top(s, held[i]) > Raised(s, base, held[..i]) then Top(s, held[i]) else Raised(s, base, held[..i])
  {
    assert held[..i + 1][..i] == held[..i];
  }

  lemma TeardownStep(s: State, t: Task)
    requires Inv(s) && t < |s.held| && s.held[t] != []
    ensures var m := s.held[t][0];
      && m < |s.owner| && Sizes(s) && Inv(Release(s, t, m)) && |Release(s, t, m).held| == |s.held|
      && MutexProof.Teardown(s, t) == MutexProof.Teardown(Release(s, t, m), t)
      && Release(s, t, m) == MutexModel.HandOff(s.(held := s.held[t := s.held[t][1..]]), m)
  {
    HeldShrinks(s, t);
    assert Without(s.held[t], s.held[t][0]) == s.held[t][1..];
  }

  lemma TeardownLast(s: State, t: Task)
    requires Inv(s) && t < |s.held| && s.held[t] == []
    ensures MutexProof.Teardown(s, t) == Leave(s, t)
  {
  }
}
