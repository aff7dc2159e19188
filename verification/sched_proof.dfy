/** Every task is always on exactly the list its status names. */
module SchedProof {
  import opened Lists
  import opened SchedModel

  // --- One list -----------------------------------------------------------------------------------------

  /** A list whose members and whose rightful members did not change. */
  lemma SameList(l: seq<Task>, prio: seq<nat>, status: seq<Status>, prio': seq<nat>, status': seq<Status>,
                 h: Home, but: Option<Task>, but': Option<Task>)
    requires |prio| == |status| == |prio'| == |status'| && Holds(l, prio, status, h, but)
    requires forall t: Task :: t < |prio| ==>
      ((Some(t) != but && HomeOf(prio, status, t) == h) <==> (Some(t) != but' && HomeOf(prio', status', t) == h))
    ensures Holds(l, prio', status', h, but')
  {
  }

  lemma OffMembers(l: seq<Task>, t: Task)
    requires Distinct(l)
    ensures Distinct(Off(l, t)) && forall x :: x in Off(l, t) <==> x in l && x != t
  {
    RemovedMembers(l, t);
  }

  lemma OffList(l: seq<Task>, prio: seq<nat>, status: seq<Status>, t: Task)
    requires |prio| == |status| && t < |prio| && Holds(l, prio, status, HomeOf(prio, status, t), None)
    ensures Holds(Off(l, t), prio, status, HomeOf(prio, status, t), Some(t))
  {
    OffMembers(l, t);
  }

  lemma OntoList(l: seq<Task>, r: seq<Task>, prio: seq<nat>, status: seq<Status>, st: Status, t: Task)
    requires |prio| == |status| && t < |prio|
    requires Holds(l, prio, status, HomeOf(prio, status[t := st], t), Some(t))
    requires (forall x :: x in r <==> x in l || x == t) && (t !in l ==> Distinct(r))
    ensures Holds(r, prio, status[t := st], HomeOf(prio, status[t := st], t), None)
  {
  }

  lemma AppendMembers(l: seq<Task>, t: Task)
    ensures forall x :: x in l + [t] <==> x in l || x == t
    ensures Distinct(l) && t !in l ==> Distinct(l + [t])
  {
  }

  // --- Off one list, onto another -------------------------------------------------------------------------

  lemma RemovePlaced(s: State, t: Task)
    requires Sizes(s) && Placed(s, None) && t < |s.prio|
    ensures Sizes(Remove(s, t)) && Placed(Remove(s, t), Some(t))
  {
    hide Off, Holds;
    MoveSizes(s, t, Ready);
    var r, h := Remove(s, t), HomeOf(s.prio, s.status, t);
    forall p | 0 <= p < |s.ready| ensures Holds(r.ready[p], s.prio, s.status, OnReady(p), Some(t)) {
      assert Holds(s.ready[p], s.prio, s.status, OnReady(p), None);
      if h == OnReady(p) { OffList(s.ready[p], s.prio, s.status, t); } else { SameList(s.ready[p], s.prio, s.status, s.prio, s.status, OnReady(p), None, Some(t)); }
    }
    if h == OnBlocked { OffList(s.blocked, s.prio, s.status, t); } else { SameList(s.blocked, s.prio, s.status, s.prio, s.status, OnBlocked, None, Some(t)); }
    if h == OnDelayed {
      OffList(s.delayed, s.prio, s.status, t);
      OffRanked(s.delayed, s.due, t);
    } else {
      SameList(s.delayed, s.prio, s.status, s.prio, s.status, OnDelayed, None, Some(t));
    }
  }

  lemma OffRanked(l: seq<Task>, due: seq<nat>, t: Task)
    requires Ranked(l, ByDue(due))
    ensures Ranked(Off(l, t), ByDue(due))
  {
    if t in l { CutRanked(l, ByDue(due), Where(l, t)); }
  }

  lemma PlacePlaced(s: State, t: Task, st: Status)
    requires Sizes(s) && Placed(s, Some(t)) && t < |s.prio|
    ensures Sizes(Place(s, t, st)) && Placed(Place(s, t, st), None)
  {
    hide Holds, Distinct;
    MoveSizes(s, t, st);
    var status := s.status[t := st];
    var r, h := Place(s, t, st), HomeOf(s.prio, status, t);
    forall p | 0 <= p < |s.ready| ensures Holds(r.ready[p], s.prio, status, OnReady(p), None) {
      assert Holds(s.ready[p], s.prio, s.status, OnReady(p), Some(t));
      if h == OnReady(p) {
        AppendMembers(s.ready[p], t);
        HoldsDistinct(s.ready[p], s.prio, s.status, OnReady(p), Some(t));
        OntoList(s.ready[p], s.ready[p] + [t], s.prio, s.status, st, t);
      } else {
        SameList(s.ready[p], s.prio, s.status, s.prio, status, OnReady(p), Some(t), None);
      }
    }
    HoldsDistinct(s.blocked, s.prio, s.status, OnBlocked, Some(t));
    HoldsDistinct(s.delayed, s.prio, s.status, OnDelayed, Some(t));
    if h == OnBlocked {
      AppendMembers(s.blocked, t);
      OntoList(s.blocked, s.blocked + [t], s.prio, s.status, st, t);
    } else {
      SameList(s.blocked, s.prio, s.status, s.prio, status, OnBlocked, Some(t), None);
    }
    if h == OnDelayed {
      InsertMembers(s.delayed, ByDue(s.due), t);
      InsertRanked(s.delayed, ByDue(s.due), t);
      OntoList(s.delayed, Insert(s.delayed, ByDue(s.due), t), s.prio, s.status, st, t);
    } else {
      SameList(s.delayed, s.prio, s.status, s.prio, status, OnDelayed, Some(t), None);
    }
  }

  lemma HoldsDistinct(l: seq<Task>, prio: seq<nat>, status: seq<Status>, h: Home, but: Option<Task>)
    requires |prio| == |status| && Holds(l, prio, status, h, but)
    ensures Distinct(l) && (forall x :: x in l ==> x < |prio|) && (but.Some? ==> but.value !in l)
  {
  }

  lemma RemoveLaw(s: State, t: Task)
    requires Law(s) && t < |s.prio|
    ensures LawBut(Remove(s, t), Some(t))
  {
    hide Placed;
    MoveSizes(s, t, Ready);
    RemovePlaced(s, t);
  }

  /** A status the task can be given where it stands. */
  ghost predicate Fits(s: State, t: Task, st: Status)
    requires Sizes(s) && t < |s.prio|
  {
    (st.Running? ==> t == s.current) && (st.Terminated? ==> !s.waits[t]) && (st.Freed? ==> t != s.current && t != s.idle)
  }

  lemma PlaceLaw(s: State, t: Task, st: Status)
    requires LawBut(s, Some(t)) && t < |s.prio| && Fits(s, t, st)
    ensures Law(Place(s, t, st))
  {
    hide Placed;
    MoveSizes(s, t, st);
    PlacePlaced(s, t, st);
  }

  /** A task that is on no list anyway. */
  lemma NowhereLaw(s: State, t: Task)
    requires Law(s) && t < |s.prio| && HomeOf(s.prio, s.status, t) == Nowhere
    ensures LawBut(s, Some(t))
  {
    RemoveLaw(s, t);
  }

  /** A task in transit may get a new priority, deadline and wait. */
  lemma TransitLaw(s: State, r: State, t: Task)
    requires LawBut(s, Some(t)) && t < |s.prio| && Sizes(r) && SameTasks(s, r)
    requires r.prio == s.prio[t := r.prio[t]] && r.due == s.due[t := r.due[t]] && r.waits == s.waits[t := r.waits[t]]
    requires r.ready == s.ready && r.blocked == s.blocked && r.delayed == s.delayed && r.status == s.status && r.current == s.current
    requires s.status[t].Terminated? ==> !r.waits[t]
    ensures LawBut(r, Some(t))
  {
    hide Holds;
    forall p | 0 <= p < |s.ready| ensures Holds(r.ready[p], r.prio, r.status, OnReady(p), Some(t)) {
      assert Holds(s.ready[p], s.prio, s.status, OnReady(p), Some(t));
      SameList(s.ready[p], s.prio, s.status, r.prio, r.status, OnReady(p), Some(t), Some(t));
    }
    SameList(s.blocked, s.prio, s.status, r.prio, r.status, OnBlocked, Some(t), Some(t));
    SameList(s.delayed, s.prio, s.status, r.prio, r.status, OnDelayed, Some(t), Some(t));
    HoldsDistinct(s.delayed, s.prio, s.status, OnDelayed, Some(t));
    forall i, j | 0 <= i < j < |r.delayed| ensures ByDue(r.due)(r.delayed[i]) >= ByDue(r.due)(r.delayed[j]) {
      assert r.delayed[i] in r.delayed && r.delayed[j] in r.delayed;
      assert ByDue(s.due)(s.delayed[i]) >= ByDue(s.due)(s.delayed[j]);
    }
  }

  lemma MoveLaw(s: State, t: Task, st: Status)
    requires Law(s) && t < |s.prio| && Fits(s, t, st)
    ensures Law(Move(s, t, st))
  {
    MoveSizes(s, t, st);
    RemoveLaw(s, t);
    RemoveWaits(s, t);
    PlaceLaw(Remove(s, t), t, st);
  }

  lemma RemoveWaits(s: State, t: Task)
    requires Sizes(s) && t < |s.prio|
    ensures var r := Remove(s, t);
      r.waits == s.waits && r.due == s.due && r.status == s.status && r.prio == s.prio && r.current == s.current && r.idle == s.idle && r.now == s.now
  {
  }

  /** Whether a task waits for a semaphore does not place it. */
  lemma WaitsLaw(s: State, t: Task, w: bool)
    requires Law(s) && t < |s.prio| && (s.status[t].Terminated? ==> !w)
    ensures Law(s.(waits := s.waits[t := w]))
  {
    hide Holds;
  }

  // --- Every operation ------------------------------------------------------------------------------------

  /** Nobody can run: the current task gave up the processor and no list has anybody. */
  ghost predicate Starved(s: State)
    requires Sizes(s)
  {
    !s.status[s.current].Running? && forall p :: 0 <= p < |s.ready| ==> s.ready[p] == []
  }

  lemma RequeueLaw(s: State)
    requires Law(s)
    ensures Law(Requeue(s)) && !Requeue(s).status[s.current].Running? && Requeue(s).current == s.current
    ensures SameTasks(s, Requeue(s)) && Requeue(s).prio == s.prio
  {
    MoveSizes(s, s.current, Ready);
    if s.status[s.current].Running? {
      NowhereLaw(s, s.current);
      PlaceLaw(s, s.current, Ready);
    }
  }

  lemma PopLaw(s: State, p: nat)
    requires Law(s) && p < |s.ready| && s.ready[p] != [] && !s.status[s.current].Running?
    ensures s.ready[p][0] < |s.status| && Law(Pop(s, p))
    ensures s.prio[s.ready[p][0]] == p && s.status[s.ready[p][0]].Ready?
  {
    var t := s.ready[p][0];
    assert Holds(s.ready[p], s.prio, s.status, OnReady(p), None);
    assert t in s.ready[p];
    RemoveLaw(s, t);
    RemoveWaits(s, t);
    MoveSizes(s, t, Running);
    var s1 := Remove(s, t).(current := t);
    assert Off(s.ready[p], t) == s.ready[p][1..];
    hide Placed;
    assert LawBut(s1, Some(t));
    PlaceLaw(s1, t, Running);
    assert Pop(s, p) == Place(s1, t, Running);
  }

  /** A switch keeps every task where it belongs exactly when somebody can run: otherwise the idle task
      is set running while it is on the blocked or the delayed list. */
  lemma SwitchLaw(s: State)
    requires Law(s)
    ensures Sizes(Switch(s)) && (Law(Switch(s)) <==> !Starved(s))
  {
    SwitchSizes(s);
    RequeueLaw(s);
    var s1 := Requeue(s);
    var h := Highest(s1.ready, |s1.ready|);
    if h.Some? {
      PopLaw(s1, h.value);
      RunnableNotStarved(s, h.value);
    } else {
      StarvedSwitch(s);
    }
  }

  lemma RunnableNotStarved(s: State, p: nat)
    requires Law(s) && p < |s.ready| && SameTasks(s, Requeue(s)) && Requeue(s).ready[p] != []
    ensures !Starved(s)
  {
    if !s.status[s.current].Running? { assert s.ready[p] != []; }
  }

  lemma ReadyListed(s: State, t: Task)
    requires Law(s) && t < |s.prio|
    ensures s.status[t].Ready? ==> exists p :: 0 <= p < |s.ready| && s.ready[p] != []
  {
    if s.status[t].Ready? { assert t in s.ready[s.prio[t]]; }
  }

  lemma StarvedSwitch(s: State)
    requires Law(s) && Sizes(Requeue(s)) && Highest(Requeue(s).ready, |Requeue(s).ready|).None?
    ensures Starved(s) && Sizes(Switch(s)) && !Law(Switch(s))
  {
    SwitchSizes(s);
    RequeueLaw(s);
    var s1, r := Requeue(s), Switch(s);
    assert s1 == s by { ReadyListed(s1, s.current); }
    var i := s.idle;
    ReadyListed(s, i);
    assert i in s.blocked || i in s.delayed;
    assert i in r.blocked || i in r.delayed;
  }

  lemma ParkLaw(s: State, t: Task, d: nat, w: bool, st: Status)
    requires Law(s) && t == s.current && s.status[t].Running? && (st.Blocked? || st.Delayed?)
    ensures Law(Place(s.(due := s.due[t := d], waits := s.waits[t := w]), t, st))
  {
    NowhereLaw(s, t);
    var r := s.(due := s.due[t := d], waits := s.waits[t := w]);
    TransitLaw(s, r, t);
    PlaceLaw(r, t, st);
  }

  lemma WokenLaw(s: State, t: Task)
    requires Law(s) && t < |s.prio|
    ensures Law(Woken(s, t))
  {
    MoveSizes(s, t, Ready);
    RemoveLaw(s, t);
    RemoveWaits(s, t);
    var s1 := Remove(s, t);
    var r := s1.(due := s1.due[t := 0]);
    TransitLaw(s1, r, t);
    PlaceLaw(r, t, Ready);
  }

  lemma {:induction false} WakeDueLaw(s: State)
    requires Law(s)
    ensures Law(WakeDue(s))
    decreases |s.delayed|
  {
    hide Woken, Placed, Roles;
    if WakeDue(s) != s {
      WokenSizes(s, s.delayed[0]);
      WokenLaw(s, s.delayed[0]);
      WakeDueLaw(Woken(s, s.delayed[0]));
    }
  }

  lemma {:induction false} EjectLaw(s: State, walk: seq<Task>)
    requires Law(s)
    ensures Law(Eject(s, walk))
    decreases |walk|
  {
    hide Woken, Placed, Roles;
    if walk != [] {
      if Expired(s, walk[0]) {
        WokenLaw(s, walk[0]);
        EjectLaw(Woken(s, walk[0]), walk[1..]);
      } else {
        EjectLaw(s, walk[1..]);
      }
    }
  }

  lemma TickLaw(s: State, n: nat)
    requires Law(s)
    ensures Law(Tick(s, n))
  {
    hide WakeDue, Eject, Holds;
    var s1 := s.(now := s.now + n);
    assert Law(s1);
    hide LawBut;
    WakeDueLaw(s1);
    EjectLaw(WakeDue(s1), WakeDue(s1).blocked);
  }

  lemma ExitLaw(s: State, t: Task)
    requires Law(s)
    ensures Law(Exit(s, t))
  {
    if Visible(s, t) && !s.status[t].Terminated? {
      WaitsLaw(s, t, false);
      MoveLaw(s.(waits := s.waits[t := false]), t, Terminated);
    }
  }

  lemma CreateLaw(s: State, p: nat)
    requires Law(s)
    ensures Law(Create(s, p))
  {
    var r := Create(s, p);
    if p < |s.ready| {
      var t := |s.prio|;
      forall q | 0 <= q < |r.ready| ensures Holds(r.ready[q], r.prio, r.status, OnReady(q), None) {
        assert Holds(s.ready[q], s.prio, s.status, OnReady(q), None);
        Grown(s.ready[q], s, r, OnReady(q));
        AppendMembers(s.ready[q], t);
      }
      Grown(s.blocked, s, r, OnBlocked);
      Grown(s.delayed, s, r, OnDelayed);
      forall i, j | 0 <= i < j < |r.delayed| ensures ByDue(r.due)(r.delayed[i]) >= ByDue(r.due)(r.delayed[j]) {
        assert r.delayed[i] in r.delayed && r.delayed[j] in r.delayed;
        assert ByDue(s.due)(s.delayed[i]) >= ByDue(s.due)(s.delayed[j]);
      }
    }
  }

  /** The tasks there were before are still where they belong. */
  lemma Grown(l: seq<Task>, s: State, r: State, h: Home)
    requires |s.prio| == |s.status| && |r.prio| == |r.status| == |s.prio| + 1 && r.prio[..|s.prio|] == s.prio && r.status[..|s.prio|] == s.status
    requires Holds(l, s.prio, s.status, h, None)
    ensures Distinct(l) && forall t: Task :: t in l <==> t < |s.prio| && HomeOf(r.prio, r.status, t) == h
  {
    forall t: Task | t < |s.prio| ensures HomeOf(r.prio, r.status, t) == HomeOf(s.prio, s.status, t) {
      assert r.prio[..|s.prio|][t] == r.prio[t] && r.status[..|s.prio|][t] == r.status[t];
    }
  }

  lemma ChangePrioLaw(s: State, t: Task, p: nat)
    requires Law(s) && t < |s.prio| && p < |s.ready|
    ensures Law(ChangePrio(s, t, p))
  {
    MoveSizes(s, t, Ready);
    if s.status[t].Ready? {
      RemoveLaw(s, t);
      RemoveWaits(s, t);
      var s1 := Remove(s, t);
      var r := s1.(prio := s1.prio[t := p]);
      TransitLaw(s1, r, t);
      PlaceLaw(r, t, Ready);
    } else {
      SetPrioLaw(s, t, p);
    }
  }

  lemma SetPrioLaw(s: State, t: Task, p: nat)
    requires Law(s) && t < |s.prio| && p < |s.ready| && !s.status[t].Ready?
    ensures Law(s.(prio := s.prio[t := p]))
  {
    hide Holds;
    var r := s.(prio := s.prio[t := p]);
    forall q | 0 <= q < |r.ready| ensures Holds(r.ready[q], r.prio, r.status, OnReady(q), None) {
      assert Holds(s.ready[q], s.prio, s.status, OnReady(q), None);
      SameList(s.ready[q], s.prio, s.status, r.prio, r.status, OnReady(q), None, None);
    }
    SameList(s.blocked, s.prio, s.status, r.prio, r.status, OnBlocked, None, None);
    SameList(s.delayed, s.prio, s.status, r.prio, r.status, OnDelayed, None, None);
  }

  lemma CollectLaw(s: State)
    requires Law(s)
    ensures Law(Collect(s))
  {
    var e := FirstEnded(s.blocked, s.status);
    if Collect(s) != s { MoveLaw(s, e.value, Freed); }
  }

  lemma DelayLaw(s: State, ticks: nat)
    requires Law(s)
    ensures Law(Delay(s, ticks))
  {
    hide Placed, Roles, Place, Remove;
    var t := s.current;
    if s.status[t].Running? {
      assert s.waits[t := s.waits[t]] == s.waits;
      ParkLaw(s, t, s.now + ticks, s.waits[t], Delayed);
    }
  }

  lemma WaitLaw(s: State, timeout: Option<nat>)
    requires Law(s)
    ensures Law(Park(s, timeout)) && Law(Resume(s))
  {
    hide Placed, Roles, Place, Remove;
    var t := s.current;
    if s.status[t].Running? {
      ParkLaw(s, t, if timeout.None? then 0 else s.now + timeout.value, true, Blocked);
      WaitsLaw(s, t, false);
    }
  }

  lemma WakeLaw(s: State, t: Task)
    requires Law(s)
    ensures Law(Grant(s, t)) && Law(Unblock(s, t))
  {
    hide Placed, Roles, Place, Remove;
    if t < |s.prio| && s.status[t].Blocked? {
      WaitsLaw(s, t, false);
      MoveLaw(s.(waits := s.waits[t := false]), t, Ready);
      MoveLaw(s, t, Ready);
    }
  }

  /** Every operation keeps every task on the list its status names, but for a switch with nobody to
      run. */
  lemma {:induction false} StepLaw(s: State, op: Op)
    requires Law(s)
    ensures Sizes(Apply(s, op)) && (Law(Apply(s, op)) <==> !(op.SwitchOp? && Starved(s)))
  {
    StepSizes(s, op);
    hide Placed, Roles, Starved, Switch, Move, Delay, Park, Resume, Grant, Unblock, Tick, Exit, Collect, Create, ChangePrio;
    match op
    case SwitchOp => SwitchLaw(s);
    case BlockOp => MoveLaw(s, s.current, Blocked);
    case DelayOp(ticks) => DelayLaw(s, ticks);
    case ParkOp(timeout) => WaitLaw(s, timeout);
    case ResumeOp => WaitLaw(s, None);
    case GrantOp(u) => WakeLaw(s, u);
    case UnblockOp(u) => WakeLaw(s, u);
    case TickOp(n) => TickLaw(s, n);
    case ExitOp(u) => ExitLaw(s, u);
    case CollectOp => CollectLaw(s);
    case CreateOp(p) => CreateLaw(s, p);
    case PrioOp(u, p) => if u < |s.prio| && p < |s.ready| { ChangePrioLaw(s, u, p); }
  }
}
