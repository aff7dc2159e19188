/** Runs of the scheduler from scheduler_init on, and what a tick and a switch do. */
module SchedRuns {
  import opened Lists
  import opened SchedModel
  import opened SchedProof

  // --- The lists over every run ---------------------------------------------------------------------------

  /** The idle task is not ended and does not wait. */
  ghost predicate SparesIdle(s: State, op: Op) {
    op != ExitOp(s.idle) && (op.ParkOp? ==> s.current != s.idle)
  }

  ghost predicate IdleAlive(s: State)
    requires Sizes(s)
  {
    s.status[s.idle].Ready? || s.status[s.idle].Running?
  }

  lemma AliveNotStarved(s: State)
    requires Law(s) && IdleAlive(s)
    ensures !Starved(s)
  {
    ReadyListed(s, s.idle);
  }

  /** Taking a task off a list and putting it onto another touches nobody else's status. */
  lemma StatusAfter(s: State, t: Task, st: Status)
    requires Sizes(s) && t < |s.prio|
    ensures Sizes(Remove(s, t)) && Remove(s, t).status == s.status
    ensures Place(s, t, st).status == s.status[t := st] && Move(s, t, st).status == s.status[t := st]
  {
    MoveSizes(s, t, st);
    RemoveWaits(s, t);
  }

  lemma {:induction false} WakeDueStatus(s: State, t: Task)
    requires Sizes(s) && t < |s.prio|
    ensures |WakeDue(s).status| == |s.status| && (WakeDue(s).status[t] == s.status[t] || WakeDue(s).status[t].Ready?)
    decreases |s.delayed|
  {
    if WakeDue(s) != s {
      var u := s.delayed[0];
      WokenSizes(s, u);
      WokenStatus(s, u);
      WakeDueStatus(Woken(s, u), t);
    }
  }

  lemma WokenStatus(s: State, t: Task)
    requires Sizes(s) && t < |s.prio|
    ensures Woken(s, t).status == s.status[t := Ready]
  {
    StatusAfter(s, t, Ready);
  }

  lemma {:induction false} EjectStatus(s: State, walk: seq<Task>, t: Task)
    requires Sizes(s) && t < |s.prio|
    ensures |Eject(s, walk).status| == |s.status| && (Eject(s, walk).status[t] == s.status[t] || Eject(s, walk).status[t].Ready?)
    decreases |walk|
  {
    if walk != [] {
      if Expired(s, walk[0]) {
        WokenSizes(s, walk[0]);
        WokenStatus(s, walk[0]);
        EjectStatus(Woken(s, walk[0]), walk[1..], t);
      } else {
        EjectStatus(s, walk[1..], t);
      }
    }
  }

  lemma StepAlive(s: State, op: Op)
    requires Law(s) && IdleAlive(s) && SparesIdle(s, op)
    ensures Sizes(Apply(s, op)) && Apply(s, op).idle == s.idle && IdleAlive(Apply(s, op))
  {
    hide Remove, Place, WakeDue, Eject, Placed, Move;
    StepSizes(s, op);
    var i := s.idle;
    match op
    case SwitchOp => SwitchAlive(s);
    case BlockOp => StatusAfter(s, s.current, Blocked);
    case DelayOp(ticks) => StatusAfter(s.(due := s.due[s.current := s.now + ticks]), s.current, Delayed);
    case ParkOp(k) =>
      var d := if k.None? then 0 else s.now + k.value;
      StatusAfter(s.(due := s.due[s.current := d], waits := s.waits[s.current := true]), s.current, Blocked);
    case ResumeOp =>
    case GrantOp(t) => if t < |s.prio| { StatusAfter(s.(waits := s.waits[t := false]), t, Ready); }
    case UnblockOp(t) => if t < |s.prio| { StatusAfter(s, t, Ready); }
    case TickOp(n) =>
      var s1 := s.(now := s.now + n);
      WakeDueSizes(s1);
      WakeDueStatus(s1, i);
      EjectStatus(WakeDue(s1), WakeDue(s1).blocked, i);
    case ExitOp(t) => if t < |s.prio| { StatusAfter(s.(waits := s.waits[t := false]), t, Terminated); }
    case CollectOp => if FirstEnded(s.blocked, s.status).Some? { StatusAfter(s, FirstEnded(s.blocked, s.status).value, Freed); }
    case CreateOp(p) =>
    case PrioOp(t, p) =>
      if t < |s.prio| && p < |s.ready| {
        StatusAfter(s, t, Ready);
        var s1 := Remove(s, t);
        MoveSizes(s, t, Ready);
        StatusAfter(s1.(prio := s1.prio[t := p]), t, Ready);
      }
  }

  lemma SwitchAlive(s: State)
    requires Law(s) && IdleAlive(s)
    ensures Sizes(Switch(s)) && Switch(s).idle == s.idle && IdleAlive(Switch(s))
  {
    SwitchSizes(s);
    RequeueLaw(s);
    StatusAfter(s, s.current, Ready);
  }

  /** Nobody ended the idle task or made it wait along the way. */
  ghost predicate Careful(levels: nat, ops: seq<Op>)
    requires levels > 0
    decreases |ops|
  {
    ops == [] || (Careful(levels, ops[..|ops| - 1]) && SparesIdle(Run(levels, ops[..|ops| - 1]), ops[|ops| - 1]))
  }

  lemma InitLaw(levels: nat)
    requires levels > 0
    ensures Law(Init(levels)) && IdleAlive(Init(levels))
  {
    var s := Init(levels);
    forall p | 0 <= p < levels ensures Holds(s.ready[p], s.prio, s.status, OnReady(p), None) {}
  }

  lemma {:induction false} RunsKeepLaw(levels: nat, ops: seq<Op>)
    requires levels > 0 && Careful(levels, ops)
    ensures Law(Run(levels, ops)) && IdleAlive(Run(levels, ops))
    decreases |ops|
  {
    hide LawBut, IdleAlive;
    if ops == [] {
      InitLaw(levels);
    } else {
      var s, op := Run(levels, ops[..|ops| - 1]), ops[|ops| - 1];
      RunsKeepLaw(levels, ops[..|ops| - 1]);
      AliveNotStarved(s);
      StepLaw(s, op);
      StepAlive(s, op);
    }
  }

  /** The lists task t is on. */
  ghost function ListsWith(s: State, t: Task): set<Home> {
    (set p | 0 <= p < |s.ready| && t in s.ready[p] :: OnReady(p))
    + (if t in s.blocked then {OnBlocked} else {}) + (if t in s.delayed then {OnDelayed} else {})
  }

  ghost predicate InOrder(l: seq<Task>, due: seq<nat>) {
    forall i, j :: 0 <= i < j < |l| && l[i] < |due| && l[j] < |due| ==> due[l[i]] <= due[l[j]]
  }

  /** After every run that spares the idle task, a task is on the one list its status names and on no
      other, and on that once; the sleepers are in order of their wake-up tick. */
  lemma {:induction false} OnOneList(levels: nat, ops: seq<Op>, t: Task)
    requires levels > 0 && Careful(levels, ops) && t < |Run(levels, ops).prio|
    ensures var s := Run(levels, ops); var h := HomeOf(s.prio, s.status, t);
      && ListsWith(s, t) == (if h == Nowhere then {} else {h})
      && (forall p :: 0 <= p < |s.ready| ==> Distinct(s.ready[p])) && Distinct(s.blocked) && Distinct(s.delayed)
      && InOrder(s.delayed, s.due)
  {
    RunsKeepLaw(levels, ops);
    ListedOnce(Run(levels, ops), t);
    SleepersInOrder(Run(levels, ops));
  }

  lemma ListedOnce(s: State, t: Task)
    requires Law(s) && t < |s.prio|
    ensures var h := HomeOf(s.prio, s.status, t); ListsWith(s, t) == if h == Nowhere then {} else {h}
    ensures (forall p :: 0 <= p < |s.ready| ==> Distinct(s.ready[p])) && Distinct(s.blocked) && Distinct(s.delayed)
  {
    var h := HomeOf(s.prio, s.status, t);
    forall p | 0 <= p < |s.ready| ensures Distinct(s.ready[p]) && (t in s.ready[p] <==> h == OnReady(p)) {
      assert Holds(s.ready[p], s.prio, s.status, OnReady(p), None);
    }
    if h.OnReady? {
      assert h.p < |s.ready|;
      assert (set p | 0 <= p < |s.ready| && t in s.ready[p] :: OnReady(p)) == {h};
    }
  }

  lemma SleepersInOrder(s: State)
    requires Law(s)
    ensures InOrder(s.delayed, s.due)
  {
    forall i, j | 0 <= i < j < |s.delayed| && s.delayed[i] < |s.due| && s.delayed[j] < |s.due|
      ensures s.due[s.delayed[i]] <= s.due[s.delayed[j]]
    {
      assert ByDue(s.due)(s.delayed[i]) >= ByDue(s.due)(s.delayed[j]);
    }
  }

  /** There was somebody to run at every switch along the way. */
  ghost predicate SomebodyRuns(levels: nat, ops: seq<Op>)
    requires levels > 0
    decreases |ops|
  {
    ops == [] || (SomebodyRuns(levels, ops[..|ops| - 1]) && !(ops[|ops| - 1].SwitchOp? && Starved(Run(levels, ops[..|ops| - 1]))))
  }

  ghost predicate LawAfter(levels: nat, ops: seq<Op>, k: nat)
    requires levels > 0 && k <= |ops|
  {
    Law(Run(levels, ops[..k]))
  }

  /** Every task is where its status says all along a run exactly when every switch finds somebody to run. */
  lemma {:induction false} LawExactly(levels: nat, ops: seq<Op>)
    requires levels > 0
    ensures SomebodyRuns(levels, ops) <==> forall k :: 0 <= k <= |ops| ==> LawAfter(levels, ops, k)
    decreases |ops|
  {
    hide LawBut, Starved, Run, Apply, Sizes;
    if ops == [] {
      FirstLaw(levels, ops);
    } else {
      var less := ops[..|ops| - 1];
      LawExactly(levels, less);
      forall k | 0 <= k <= |less| ensures LawAfter(levels, less, k) == LawAfter(levels, ops, k) { assert less[..k] == ops[..k]; }
      if LawAfter(levels, less, |less|) { LastLaw(levels, ops); }
    }
  }

  lemma FirstLaw(levels: nat, ops: seq<Op>)
    requires levels > 0 && ops == []
    ensures LawAfter(levels, ops, 0)
  {
    InitLaw(levels);
  }

  lemma LastLaw(levels: nat, ops: seq<Op>)
    requires levels > 0 && ops != [] && LawAfter(levels, ops[..|ops| - 1], |ops| - 1)
    ensures LawAfter(levels, ops, |ops|) <==> !(ops[|ops| - 1].SwitchOp? && Starved(Run(levels, ops[..|ops| - 1])))
  {
    hide LawBut, Starved, Apply;
    var less := ops[..|ops| - 1];
    assert less[..|less|] == less && ops[..|ops|] == ops;
    StepLaw(Run(levels, less), ops[|ops| - 1]);
  }

  // --- Where it goes wrong --------------------------------------------------------------------------------

  /** A kernel with nothing but its idle task. */
  ghost function Lonely(st: Status, ready: seq<Task>, blocked: seq<Task>): State {
    State([0], [st], [ready], blocked, [], [0], [false], 0, 0, 0)
  }

  lemma LonelySwitch(st: Status, ready: seq<Task>, blocked: seq<Task>)
    requires !st.Running? && (ready == [0] || ready == [])
    ensures Switch(Lonely(st, ready, blocked)) == Lonely(Running, [], blocked)
  {
    var s := Lonely(st, ready, blocked);
    assert s.ready[0] == ready && Highest(s.ready, 1) == if ready == [] then None else Some(0);
    assert s.status[0 := Running] == [Running] && [0][1..] == [];
    assert [ready][0 := []] == [[]];
  }

  lemma LonelyExit()
    ensures Exit(Lonely(Running, [], []), 0) == Lonely(Terminated, [], [0])
  {
    var s := Lonely(Running, [], []);
    assert s.waits[0 := false] == [false];
    assert Remove(s, 0) == s;
  }

  /** The idle task started, was ended by a task_exit_request, and is run again for lack of others: it
      runs while it waits on the blocked list to be freed. */
  lemma {:induction false} IdleEnded()
    ensures var s := Run(1, [SwitchOp, ExitOp(0), SwitchOp]);
      && s.status[s.current].Running? && s.current in s.blocked && !Law(s)
    ensures var s := Run(1, [SwitchOp, ExitOp(0)]); Law(s) && Starved(s)
  {
    hide Switch, Exit, LawBut;
    var a, b, c := [SwitchOp], [SwitchOp, ExitOp(0)], [SwitchOp, ExitOp(0), SwitchOp];
    assert a[..0] == [] && b[..1] == a && c[..2] == b;
    InitLaw(1);
    assert Init(1).ready == [[0]];
    LonelySwitch(Ready, [0], []);
    assert Run(1, a) == Lonely(Running, [], []);
    assert !Starved(Run(1, [])) by { assert Init(1).ready[0] != []; }
    StepLaw(Run(1, []), SwitchOp);
    LonelyExit();
    assert Run(1, b) == Lonely(Terminated, [], [0]);
    StepLaw(Run(1, a), ExitOp(0));
    LonelySwitch(Terminated, [], [0]);
    assert Run(1, c) == Lonely(Running, [], [0]);
    StepLaw(Run(1, b), SwitchOp);
  }

  // --- The switch -------------------------------------------------------------------------------------------

  /** After a switch no ready task is more urgent than the current one; and the one that was running
      gave way only to a task at least as urgent. */
  lemma {:induction false} MostUrgentRuns(s: State)
    requires Law(s)
    ensures var r := Switch(s);
      && Sizes(r) && r.status[r.current].Running?
      && (forall t :: 0 <= t < |r.prio| && r.status[t].Ready? ==> r.prio[t] <= r.prio[r.current])
      && (s.status[s.current].Running? ==> r.prio[r.current] >= s.prio[s.current])
  {
    SwitchSizes(s);
    RequeueLaw(s);
    var s1, r := Requeue(s), Switch(s);
    StatusAfter(s, s.current, Ready);
    hide Place, LawBut, Sizes;
    var h := Highest(s1.ready, |s1.ready|);
    NoneAbove(s1);
    if h.Some? { PopLaw(s1, h.value); }
  }

  /** Nobody is ready above the highest list that has somebody. */
  lemma NoneAbove(s: State)
    requires Law(s)
    ensures Sizes(s) && |s.status| == |s.prio|
    ensures var h := Highest(s.ready, |s.ready|);
      forall t :: 0 <= t < |s.prio| && s.status[t].Ready? ==> h.Some? && s.prio[t] <= h.value
  {
    forall t | 0 <= t < |s.prio| && s.status[t].Ready? ensures s.prio[t] < |s.ready| && s.ready[s.prio[t]] != [] { ReadyHome(s, t); }
  }

  lemma ReadyHome(s: State, t: Task)
    requires Law(s) && t < |s.prio| && s.status[t].Ready?
    ensures s.prio[t] < |s.ready| && t in s.ready[s.prio[t]]
  {
    assert Holds(s.ready[s.prio[t]], s.prio, s.status, OnReady(s.prio[t]), None);
  }

  // --- The tick ---------------------------------------------------------------------------------------------

  /** Those of priority p, in order. */
  ghost function OfPrio(l: seq<Task>, prio: seq<nat>, p: nat): seq<Task> {
    if l == [] then []
    else (if l[0] < |prio| && prio[l[0]] == p then [l[0]] else []) + OfPrio(l[1..], prio, p)
  }

  /** Those whose deadline has passed, in order. */
  ghost function Late(l: seq<Task>, s: State): seq<Task>
    requires Sizes(s)
  {
    if l == [] then [] else (if Expired(s, l[0]) then [l[0]] else []) + Late(l[1..], s)
  }

  /** The tasks of l, in that order, became ready: each at the end of its ready list, with its deadline
      cleared; nobody else's status, deadline or priority changed. */
  ghost predicate BecameReady(s: State, r: State, l: seq<Task>)
    requires Sizes(s) && Sizes(r)
  {
    && SameTasks(s, r) && r.prio == s.prio && r.current == s.current && r.now == s.now && r.waits == s.waits
    && (forall t :: 0 <= t < |s.prio| ==> r.status[t] == if t in l then Ready else s.status[t])
    && (forall t :: 0 <= t < |s.prio| ==> r.due[t] == if t in l then 0 else s.due[t])
    && (forall p :: 0 <= p < |s.ready| ==> r.ready[p] == s.ready[p] + OfPrio(l, s.prio, p))
  }

  lemma OneMore(s: State, m: State, r: State, t: Task, l: seq<Task>)
    requires Sizes(s) && Sizes(m) && Sizes(r) && BecameReady(s, m, [t]) && BecameReady(m, r, l)
    ensures BecameReady(s, r, [t] + l)
  {
    assert ([t] + l)[1..] == l && [t][1..] == [];
    forall p | 0 <= p < |s.ready| ensures r.ready[p] == s.ready[p] + OfPrio([t] + l, s.prio, p) {
      assert r.ready[p] == (s.ready[p] + OfPrio([t], s.prio, p)) + OfPrio(l, s.prio, p);
    }
  }

  lemma NoMore(s: State)
    requires Sizes(s)
    ensures BecameReady(s, s, [])
  {
  }

  lemma WokenShape(s: State, t: Task)
    requires Law(s) && Sizes(s) && t < |s.prio| && (s.status[t].Blocked? || s.status[t].Delayed?)
    ensures Law(Woken(s, t)) && BecameReady(s, Woken(s, t), [t])
    ensures s.status[t].Blocked? ==> Woken(s, t).delayed == s.delayed && Woken(s, t).blocked == Off(s.blocked, t)
    ensures s.status[t].Delayed? ==> Woken(s, t).delayed == Off(s.delayed, t) && Woken(s, t).blocked == s.blocked
  {
    WokenLaw(s, t);
    WokenIs(s, t);
    WokenSizes(s, t);
    OnlyOne(s.prio, t);
    hide LawBut, Off, Woken, OfPrio;
  }

  /** Off the list it is on, and at the end of its ready list. */
  lemma WokenIs(s: State, t: Task)
    requires Sizes(s) && t < |s.prio| && (s.status[t].Blocked? || s.status[t].Delayed?)
    ensures Woken(s, t) == s.(
      status := s.status[t := Ready], due := s.due[t := 0], ready := s.ready[s.prio[t] := s.ready[s.prio[t]] + [t]],
      blocked := if s.status[t].Blocked? then Off(s.blocked, t) else s.blocked,
      delayed := if s.status[t].Delayed? then Off(s.delayed, t) else s.delayed)
  {
    hide Off;
  }

  lemma OnlyOne(prio: seq<nat>, t: Task)
    requires t < |prio|
    ensures forall p :: OfPrio([t], prio, p) == if prio[t] == p then [t] else []
  {
    forall p ensures OfPrio([t], prio, p) == if prio[t] == p then [t] else [] { assert [t][1..] == []; }
  }

  /** How many sleepers at the head are due. */
  ghost function DueCount(s: State): (k: nat)
    ensures k <= |s.delayed|
  {
    Ahead(s.delayed, ByDue(s.due), -(s.now as int))
  }

  /** Waking the head leaves the same sleepers due behind it. */
  lemma DueStep(s: State, r: State)
    requires Law(s) && Sizes(s) && Sizes(r) && s.delayed != [] && DueCount(s) > 0 && s.delayed[0] < |s.due|
    requires r.delayed == s.delayed[1..] && r.now == s.now && r.due == s.due[s.delayed[0] := 0]
    ensures DueCount(r) == DueCount(s) - 1 && s.delayed[..DueCount(s)] == [s.delayed[0]] + r.delayed[..DueCount(r)]
    ensures r.delayed[DueCount(r)..] == s.delayed[DueCount(s)..]
  {
    var k := DueCount(s) - 1;
    HoldsDistinct(s.delayed, s.prio, s.status, OnDelayed, None);
    forall i | 0 <= i < |r.delayed| ensures ByDue(r.due)(r.delayed[i]) == ByDue(s.due)(s.delayed[i + 1]) {
      assert s.delayed[i + 1] != s.delayed[0];
    }
    AheadIs(r.delayed, ByDue(r.due), -(s.now as int), k);
  }

  lemma {:induction false} WakeDueShape(s: State)
    requires Law(s) && Sizes(s)
    ensures var r := WakeDue(s);
      && Law(r) && Sizes(r) && BecameReady(s, r, s.delayed[..DueCount(s)])
      && r.delayed == s.delayed[DueCount(s)..] && r.blocked == s.blocked
    decreases |s.delayed|
  {
    hide LawBut, BecameReady, Woken, Off;
    WakeDueLaw(s);
    WakeDueSizes(s);
    HeadSleeps(s);
    if DueCount(s) == 0 {
      NoMore(s);
      assert s.delayed[..0] == [];
    } else {
      var t := s.delayed[0];
      WokenSizes(s, t);
      WokenShape(s, t);
      OffHead(s.delayed);
      var m := Woken(s, t);
      WokenDue(s, m, t);
      DueStep(s, m);
      WakeDueShape(m);
      OneMore(s, m, WakeDue(m), t, m.delayed[..DueCount(m)]);
    }
  }

  lemma WokenDue(s: State, m: State, t: Task)
    requires Sizes(s) && Sizes(m) && BecameReady(s, m, [t]) && t < |s.due|
    ensures m.due == s.due[t := 0] && m.now == s.now
  {
  }

  lemma OffHead(l: seq<Task>)
    requires l != []
    ensures Off(l, l[0]) == l[1..]
  {
  }

  /** The test of the loop, and what it says. */
  lemma HeadSleeps(s: State)
    requires Law(s) && Sizes(s)
    ensures s.delayed != [] ==> s.delayed[0] < |s.prio| && s.status[s.delayed[0]].Delayed?
    ensures DueCount(s) > 0 <==> s.delayed != [] && s.delayed[0] < |s.due| && s.due[s.delayed[0]] <= s.now
  {
    if s.delayed != [] { assert s.delayed[0] in s.delayed; }
  }

  lemma LateStep(s: State, m: State, t: Task, walk: seq<Task>)
    requires Sizes(s) && Sizes(m) && BecameReady(s, m, [t]) && t !in walk
    requires forall x :: x in m.blocked <==> x in s.blocked && x != t
    ensures Late(walk, m) == Late(walk, s)
  {
    if walk != [] { LateStep(s, m, t, walk[1..]); }
  }

  lemma {:induction false} EjectShape(s: State, walk: seq<Task>)
    requires Law(s) && Sizes(s) && Distinct(walk)
    ensures var r := Eject(s, walk); Law(r) && Sizes(r) && BecameReady(s, r, Late(walk, s)) && r.delayed == s.delayed
    decreases |walk|
  {
    hide LawBut, BecameReady, Woken, Off;
    EjectLaw(s, walk);
    EjectSizes(s, walk);
    if walk == [] {
      NoMore(s);
    } else if Expired(s, walk[0]) {
      var t := walk[0];
      ExpiredBlocked(s, t);
      WokenSizes(s, t);
      WokenShape(s, t);
      var m := Woken(s, t);
      BlockedDistinct(s);
      OffMembers(s.blocked, t);
      assert t !in walk[1..];
      LateStep(s, m, t, walk[1..]);
      EjectShape(m, walk[1..]);
      OneMore(s, m, Eject(m, walk[1..]), t, Late(walk[1..], m));
    } else {
      EjectShape(s, walk[1..]);
      assert Late(walk, s) == Late(walk[1..], s);
    }
  }

  lemma BlockedDistinct(s: State)
    requires Law(s)
    ensures Distinct(s.blocked)
  {
  }

  lemma ExpiredBlocked(s: State, t: Task)
    requires Law(s) && Sizes(s) && Expired(s, t)
    ensures s.status[t].Blocked?
  {
  }

  /** Who should be woken at a given tick: sleepers that are due, and waiters past their deadline. */
  ghost predicate Overdue(s: State, t: Task, now: nat)
    requires Sizes(s) && t < |s.prio|
  {
    (s.status[t].Delayed? && s.due[t] <= now) || (s.status[t].Blocked? && s.waits[t] && s.due[t] != 0 && s.due[t] < now)
  }

  /** The sleepers and waiters a tick wakes, in order. */
  ghost function WokenBy(s: State, n: nat): seq<Task>
    requires Sizes(s)
  {
    var s1 := s.(now := s.now + n);
    s1.delayed[..DueCount(s1)] + Late(s1.blocked, s1)
  }

  lemma {:induction false} LateMembers(l: seq<Task>, s: State, t: Task)
    requires Sizes(s)
    ensures t in Late(l, s) <==> t in l && Expired(s, t)
  {
    if l != [] { LateMembers(l[1..], s, t); }
  }

  lemma {:induction false} OfPrioAppend(a: seq<Task>, b: seq<Task>, prio: seq<nat>, p: nat)
    ensures OfPrio(a + b, prio, p) == OfPrio(a, prio, p) + OfPrio(b, prio, p)
  {
    if a == [] {
      assert a + b == b;
    } else {
      assert (a + b)[1..] == a[1..] + b && (a + b)[0] == a[0];
      var h := if a[0] < |prio| && prio[a[0]] == p then [a[0]] else [];
      calc {
        OfPrio(a + b, prio, p);
        h + OfPrio(a[1..] + b, prio, p);
        { OfPrioAppend(a[1..], b, prio, p); }
        h + (OfPrio(a[1..], prio, p) + OfPrio(b, prio, p));
        (h + OfPrio(a[1..], prio, p)) + OfPrio(b, prio, p);
      }
    }
  }

  lemma Both(s: State, m: State, r: State, a: seq<Task>, b: seq<Task>)
    requires Sizes(s) && Sizes(m) && Sizes(r) && BecameReady(s, m, a) && BecameReady(m, r, b)
    ensures BecameReady(s, r, a + b)
  {
    forall p | 0 <= p < |s.ready| ensures r.ready[p] == s.ready[p] + OfPrio(a + b, s.prio, p) {
      OfPrioAppend(a, b, s.prio, p);
      assert r.ready[p] == (s.ready[p] + OfPrio(a, s.prio, p)) + OfPrio(b, s.prio, p);
    }
  }

  /** After the sleepers are up, the same waiters are late as before. */
  lemma StillLate(s: State, m: State, a: seq<Task>, walk: seq<Task>)
    requires Sizes(s) && Sizes(m) && BecameReady(s, m, a) && m.blocked == s.blocked && forall x :: x in walk ==> x !in a
    ensures Late(walk, m) == Late(walk, s)
  {
    if walk != [] { StillLate(s, m, a, walk[1..]); }
  }

  lemma Overdues(s: State, n: nat, t: Task)
    requires Law(s) && Sizes(s) && t < |s.prio|
    ensures t in WokenBy(s, n) <==> Overdue(s, t, s.now + n)
  {
    hide LawBut, Late, DueCount;
    var s1 := s.(now := s.now + n);
    ClockLaw(s, n);
    LateMembers(s1.blocked, s1, t);
    DueMembers(s1, t);
    BlockedKnown(s, t);
  }

  lemma BlockedKnown(s: State, t: Task)
    requires Law(s) && Sizes(s) && t < |s.prio|
    ensures t in s.blocked <==> s.status[t].Blocked? || s.status[t].Terminated?
    ensures s.status[t].Terminated? ==> !s.waits[t]
  {
  }

  /** The head of the delayed list that is due, as a set. */
  lemma DueMembers(s: State, t: Task)
    requires Law(s) && Sizes(s) && t < |s.prio|
    ensures t in s.delayed[..DueCount(s)] <==> s.status[t].Delayed? && s.due[t] <= s.now
  {
    var k, l := DueCount(s), s.delayed;
    InsertRanks(s);
    HoldsDistinct(l, s.prio, s.status, OnDelayed, None);
    assert t in l <==> s.status[t].Delayed?;
    hide LawBut, DueCount;
    if t in l {
      var i :| 0 <= i < |l| && l[i] == t;
      if i < k { assert l[..k][i] == t; }
      if t in l[..k] {
        var j :| 0 <= j < k && l[..k][j] == t;
        assert l[j] == t;
      }
    }
  }

  /** The due ones are exactly those up to the count. */
  lemma InsertRanks(s: State)
    requires Law(s) && Sizes(s)
    ensures forall i :: 0 <= i < |s.delayed| ==> s.delayed[i] < |s.due| && (i < DueCount(s) <==> s.due[s.delayed[i]] <= s.now)
  {
    var k := DueCount(s);
    forall i | 0 <= i < |s.delayed| ensures s.delayed[i] < |s.due| && (i < k <==> s.due[s.delayed[i]] <= s.now) {
      assert s.delayed[i] in s.delayed;
      if i > k { assert ByDue(s.due)(s.delayed[k]) >= ByDue(s.due)(s.delayed[i]); }
    }
  }

  lemma ClockLaw(s: State, n: nat)
    requires Law(s)
    ensures Law(s.(now := s.now + n)) && Sizes(s.(now := s.now + n))
  {
  }

  lemma TickWakes(s: State, n: nat)
    requires Law(s) && Sizes(s)
    ensures var r := Tick(s, n); Law(r) && Sizes(r) && BecameReady(s.(now := s.now + n), r, WokenBy(s, n))
  {
    hide LawBut, Sizes, Late, BecameReady, DueCount, WakeDue, Eject;
    var s1 := s.(now := s.now + n);
    ClockLaw(s, n);
    WakeDueShape(s1);
    var m, a := WakeDue(s1), s1.delayed[..DueCount(s1)];
    BlockedDistinct(m);
    EjectShape(m, m.blocked);
    SleepersNotBlocked(s1, a);
    StillLate(s1, m, a, s1.blocked);
    Both(s1, m, Eject(m, m.blocked), a, Late(m.blocked, m));
  }

  /** A tick wakes exactly the sleepers whose tick has come and the waiters whose deadline has passed,
      sleepers first, in order of their ticks; they join the ready lists in that order and nothing else
      changes. Afterwards nobody is overdue. */
  lemma {:induction false} TickExact(s: State, n: nat)
    requires Law(s) && Sizes(s)
    ensures var r := Tick(s, n);
      && Law(r) && Sizes(r) && BecameReady(s.(now := s.now + n), r, WokenBy(s, n))
      && (forall t :: 0 <= t < |s.prio| ==> (t in WokenBy(s, n) <==> Overdue(s, t, s.now + n)))
      && (forall t :: 0 <= t < |r.prio| ==> !Overdue(r, t, r.now))
  {
    hide LawBut, BecameReady, WokenBy, Tick;
    TickWakes(s, n);
    TickSizes(s, n);
    var s1, r := s.(now := s.now + n), Tick(s, n);
    forall t | 0 <= t < |s.prio| ensures (t in WokenBy(s, n) <==> Overdue(s, t, s.now + n)) && !Overdue(r, t, r.now) {
      Overdues(s, n, t);
      NoLonger(s1, r, WokenBy(s, n), t);
    }
  }

  lemma TickSizes(s: State, n: nat)
    requires Sizes(s)
    ensures Sizes(Tick(s, n)) && |Tick(s, n).prio| == |s.prio|
  {
    hide WakeDue, Eject;
    var s1 := s.(now := s.now + n);
    ClockSizes(s, n);
    WakeDueSizes(s1);
    EjectSizes(WakeDue(s1), WakeDue(s1).blocked);
  }

  lemma ClockSizes(s: State, n: nat)
    requires Sizes(s)
    ensures Sizes(s.(now := s.now + n))
  {
  }

  lemma SleepersNotBlocked(s: State, a: seq<Task>)
    requires Law(s) && Sizes(s) && a <= s.delayed
    ensures forall x :: x in s.blocked ==> x !in a
  {
    forall x | x in a ensures x !in s.blocked { assert x in s.delayed; }
  }

  lemma NoLonger(s: State, r: State, l: seq<Task>, t: Task)
    requires Sizes(s) && Sizes(r) && BecameReady(s, r, l) && t < |s.prio| && (Overdue(s, t, s.now) ==> t in l)
    ensures !Overdue(r, t, r.now)
  {
  }
}
