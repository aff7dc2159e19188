/** The scheduler and any number of semaphores together: takes that block, gives that hand over, ticks
    that eject from the semaphore's own queue, tasks that die waiting. A task whose take has just timed out
    finishes that call before it makes another one. */
module SchedSema {
  import opened Lists
  import WaitQueue
  import opened SchedModel
  import opened SchedProof
  import opened SchedRuns

  /** A counting semaphore and its wait queue. */
  datatype Sem = Sem(count: nat, limit: nat, queue: seq<Task>)

  /** `on` is the semaphore a set wait_sem points to. */
  datatype Joint = Joint(s: State, on: seq<nat>, sems: seq<Sem>)

  /** What a wait for semaphore k looks like from the scheduler: blocked, with wait_sem set to k. */
  ghost predicate Waits(x: Joint, t: Task, k: nat) {
    t < |x.s.status| && t < |x.s.waits| && t < |x.on| && x.s.status[t].Blocked? && x.s.waits[t] && x.on[t] == k
  }

  ghost predicate QueueLaw(x: Joint, k: nat)
    requires k < |x.sems|
  {
    var m := x.sems[k];
    Distinct(m.queue) && m.count <= m.limit && (m.queue != [] ==> m.count == 0) && forall t: Task :: t in m.queue <==> Waits(x, t, k)
  }

  /** The scheduler's lists are in order, and a task is in a semaphore's queue, once, exactly when it is
      blocked with wait_sem set to that semaphore. */
  ghost predicate JointLaw(x: Joint) {
    && Law(x.s) && |x.on| == |x.s.prio|
    && (forall k :: 0 <= k < |x.sems| ==> QueueLaw(x, k))
    && forall t: Task, k: nat :: Waits(x, t, k) ==> k < |x.sems|
  }

  // --- Operations -----------------------------------------------------------------------------------------

  function SetQueue(x: Joint, k: nat, q: seq<Task>): Joint
    requires k < |x.sems|
  {
    x.(sems := x.sems[k := x.sems[k].(queue := q)])
  }

  /** semaphore_take_common by the current task, until it runs on or waits. */
  ghost function Take(x: Joint, k: nat, timeout: Option<nat>): Joint
    requires Sizes(x.s)
  {
    var t := x.s.current;
    if k >= |x.sems| || t >= |x.on| || !x.s.status[t].Running? || x.s.waits[t] then x
    else if x.sems[k].count > 0 then x.(sems := x.sems[k := x.sems[k].(count := x.sems[k].count - 1)])
    else if timeout == Some(0) || !WaitQueue.Known(x.sems[k].queue, x.s.prio) then x
    else SetQueue(x, k, WaitQueue.Enqueued(x.sems[k].queue, x.s.prio, t)).(s := Park(x.s, timeout), on := x.on[t := k])
  }

  /** semaphore_give_common. */
  ghost function Give(x: Joint, k: nat): Joint
    requires Sizes(x.s)
  {
    if k >= |x.sems| then x
    else if x.sems[k].queue != [] then SetQueue(x, k, x.sems[k].queue[1..]).(s := Grant(x.s, x.sems[k].queue[0]))
    else if x.sems[k].count < x.sems[k].limit then x.(sems := x.sems[k := x.sems[k].(count := x.sems[k].count + 1)])
    else x
  }

  /** Off the queue of the semaphore its wait_sem points to. */
  ghost function Unqueue(x: Joint, t: Task): Joint {
    if t < |x.on| && x.on[t] < |x.sems| then SetQueue(x, x.on[t], WaitQueue.Without(x.sems[x.on[t]].queue, t)) else x
  }

  /** The second loop of the tick: off the semaphore's queue, off the blocked list, and ready. */
  ghost function EjectAll(x: Joint, walk: seq<Task>): Joint
    requires Sizes(x.s)
    decreases |walk|
  {
    if walk == [] then x
    else if Expired(x.s, walk[0]) then
      WokenSizes(x.s, walk[0]);
      EjectAll(Unqueue(x, walk[0]).(s := Woken(x.s, walk[0])), walk[1..])
    else EjectAll(x, walk[1..])
  }

  ghost function Ticked(x: Joint, n: nat): Joint
    requires Sizes(x.s)
  {
    var s1 := x.s.(now := x.s.now + n);
    WakeDueSizes(s1);
    EjectAll(x.(s := WakeDue(s1)), WakeDue(s1).blocked)
  }

  /** task_exit_request, with the part of v_ipc_task_teardown that leaves a semaphore's queue. */
  ghost function Ended(x: Joint, t: Task): Joint
    requires Sizes(x.s)
  {
    var y := if Visible(x.s, t) && !x.s.status[t].Terminated? && x.s.waits[t] then Unqueue(x, t) else x;
    y.(s := Exit(x.s, t))
  }

  datatype Act = TakeAct(k: nat, timeout: Option<nat>) | GiveAct(k: nat) | TickAct(n: nat) | ExitAct(t: Task) | Other(op: Op)

  /** What the current task does in a call of its own. */
  predicate OwnCall(op: Op) { op.BlockOp? || op.DelayOp? }

  ghost function Do(x: Joint, a: Act): Joint
    requires Sizes(x.s)
  {
    match a
    case TakeAct(k, timeout) => Take(x, k, timeout)
    case GiveAct(k) => Give(x, k)
    case TickAct(n) => Ticked(x, n)
    case ExitAct(t) => Ended(x, t)
    case Other(op) =>
      if op.ParkOp? || op.GrantOp? || op.TickOp? || op.ExitOp? || (OwnCall(op) && x.s.waits[x.s.current]) then x
      else x.(s := SchedModel.Apply(x.s, op), on := if op.CreateOp? && op.p < |x.s.ready| then x.on + [0] else x.on)
  }

  // --- Steps that leave the waiters alone -----------------------------------------------------------------

  ghost predicate SameWaiters(x: Joint, y: Joint) { forall t: Task, k: nat :: Waits(y, t, k) <==> Waits(x, t, k) }

  lemma Undisturbed(x: Joint, y: Joint)
    requires JointLaw(x) && SameWaiters(x, y) && y.sems == x.sems && Law(y.s) && |y.on| == |y.s.prio|
    ensures JointLaw(y)
  {
    hide LawBut, Waits;
    forall k | 0 <= k < |y.sems| ensures QueueLaw(y, k) { assert QueueLaw(x, k); }
  }

  /** A move between lists changes one status, and nobody's wait. */
  lemma MoveFrame(s: State, t: Task, st: Status)
    requires Sizes(s) && t < |s.prio|
    ensures var r := Move(s, t, st); r.status == s.status[t := st] && r.waits == s.waits && |r.prio| == |s.prio|
    ensures var r := Place(s, t, st); r.status == s.status[t := st] && r.waits == s.waits && |r.prio| == |s.prio|
    ensures var r := Woken(s, t); r.status == s.status[t := Ready] && r.waits == s.waits && |r.prio| == |s.prio|
  {
    MovedSizes(s, t, st);
    MoveSizes(s, t, st);
    RemoveWaits(s, t);
  }

  lemma SwitchFrame(s: State)
    requires Law(s)
    ensures var r := Switch(s);
      && r.waits == s.waits && |r.prio| == |s.prio| && |r.status| == |s.status|
      && (!Starved(s) ==> forall t :: 0 <= t < |s.status| ==> (r.status[t].Blocked? <==> s.status[t].Blocked?))
  {
    SwitchSizes(s);
    RequeueLaw(s);
    RequeueFrame(s);
    hide Placed, Roles, Starved, SameTasks, Requeue;
    var s1 := Requeue(s);
    var h := Highest(s1.ready, |s1.ready|);
    if h.Some? {
      PopLaw(s1, h.value);
      assert Switch(s) == Pop(s1, h.value);
    } else {
      StarvedSwitch(s);
    }
  }

  lemma RequeueFrame(s: State)
    requires Law(s)
    ensures var r := Requeue(s);
      && r.waits == s.waits && |r.prio| == |s.prio| && |r.status| == |s.status|
      && forall t :: 0 <= t < |s.status| ==> (r.status[t].Blocked? <==> s.status[t].Blocked?)
  {
    MoveFrame(s, s.current, Ready);
  }

  /** Blocked with wait_sem set, whatever it is set to. */
  ghost predicate Idling(s: State, t: Task) { t < |s.status| && t < |s.waits| && s.status[t].Blocked? && s.waits[t] }

  /** The same tasks wait as before. */
  lemma SameIdlers(x: Joint, y: Joint)
    requires |y.on| >= |x.on| && |x.on| == |x.s.status| && (forall t :: 0 <= t < |x.on| ==> y.on[t] == x.on[t])
    requires forall t: Task :: Idling(y.s, t) <==> Idling(x.s, t)
    ensures SameWaiters(x, y)
  {
    forall t: Task, k: nat ensures Waits(y, t, k) <==> Waits(x, t, k) { assert Idling(y.s, t) <==> Idling(x.s, t); }
  }

  lemma OwnFrame(s: State, op: Op)
    requires Law(s) && (OwnCall(op) || op.ResumeOp?) && (OwnCall(op) ==> !s.waits[s.current])
    ensures Sizes(Apply(s, op)) && |Apply(s, op).prio| == |s.prio| && forall t: Task :: Idling(Apply(s, op), t) <==> Idling(s, t)
  {
    var c := s.current;
    StepSizes(s, op);
    hide Move, Place, Placed, Remove;
    if op.BlockOp? {
      MoveFrame(s, c, Blocked);
    } else if op.DelayOp? {
      MoveFrame(s.(due := s.due[c := s.now + op.ticks]), c, Delayed);
    }
  }

  lemma RestFrame(s: State, op: Op)
    requires Law(s) && (op.CollectOp? || op.CreateOp? || op.PrioOp?)
    ensures Sizes(Apply(s, op)) && forall t: Task :: Idling(Apply(s, op), t) <==> Idling(s, t)
    ensures |Apply(s, op).prio| == |s.prio| + if op.CreateOp? && op.p < |s.ready| then 1 else 0
  {
    StepSizes(s, op);
    hide Move, Place, Placed, Remove, ChangePrio;
    match op
    case CollectOp => if FirstEnded(s.blocked, s.status).Some? { MoveFrame(s, FirstEnded(s.blocked, s.status).value, Freed); }
    case PrioOp(t, p) => if t < |s.prio| && p < |s.ready| { PrioFrame(s, t, p); }
    case _ =>
  }

  lemma PrioFrame(s: State, t: Task, p: nat)
    requires Sizes(s) && t < |s.prio| && p < |s.ready|
    ensures var r := ChangePrio(s, t, p); r.status == s.status && r.waits == s.waits && |r.prio| == |s.prio|
  {
    MoveSizes(s, t, Ready);
    RemoveWaits(s, t);
    if s.status[t].Ready? {
      var s1 := Remove(s, t);
      MoveFrame(s1.(prio := s1.prio[t := p]), t, Ready);
      assert s.status[t := Ready] == s.status;
    }
  }

  // --- Leaving and joining a queue --------------------------------------------------------------------------

  /** Task t no longer waits for k, and nobody else's wait changed. */
  lemma Leaves(x: Joint, y: Joint, t: Task, k: nat)
    requires JointLaw(x) && Waits(x, t, k) && Law(y.s) && |y.on| == |y.s.prio|
    requires |y.sems| == |x.sems| && k < |x.sems| && y.sems == x.sems[k := y.sems[k]] && y.sems[k] == x.sems[k].(queue := y.sems[k].queue)
    requires Distinct(y.sems[k].queue) && forall u :: u in y.sems[k].queue <==> u in x.sems[k].queue && u != t
    requires forall u: Task, j: nat :: Waits(y, u, j) <==> Waits(x, u, j) && u != t
    ensures JointLaw(y)
  {
    hide LawBut;
    assert t in x.sems[k].queue by { assert QueueLaw(x, k); }
    forall j | 0 <= j < |y.sems| ensures QueueLaw(y, j) {
      assert QueueLaw(x, j);
      if j != k { assert forall u :: Waits(y, u, j) <==> Waits(x, u, j); }
    }
  }

  lemma WaiterKnown(x: Joint, t: Task)
    requires JointLaw(x) && t < |x.s.status| && t < |x.s.waits| && x.s.status[t].Blocked? && x.s.waits[t]
    ensures t < |x.on| && x.on[t] < |x.sems| && Waits(x, t, x.on[t]) && Distinct(x.sems[x.on[t]].queue) && t in x.sems[x.on[t]].queue
  {
    assert Waits(x, t, x.on[t]);
    assert QueueLaw(x, x.on[t]);
  }

  /** Ejected: off both lists at once. */
  lemma EjectLaws(x: Joint, t: Task)
    requires JointLaw(x) && Expired(x.s, t)
    ensures t < |x.s.prio| && JointLaw(Unqueue(x, t).(s := Woken(x.s, t)))
  {
    hide Placed, Roles, WaitQueue.Without, QueueLaw;
    ExpiredBlocked(x.s, t);
    WaiterKnown(x, t);
    WokenLaw(x.s, t);
    MoveFrame(x.s, t, Ready);
    RemovedMembers(x.sems[x.on[t]].queue, t);
    assert WaitQueue.Without(x.sems[x.on[t]].queue, t) == WithoutFirst(x.sems[x.on[t]].queue, Is(t)) by { WithoutIs(x.sems[x.on[t]].queue, t); }
    Leaves(x, Unqueue(x, t).(s := Woken(x.s, t)), t, x.on[t]);
  }

  lemma WithoutIs(q: seq<Task>, t: Task)
    ensures WaitQueue.Without(q, t) == WithoutFirst(q, Is(t))
    ensures t !in q ==> WaitQueue.Without(q, t) == q
  {
  }

  lemma {:induction false} EjectAllLaw(x: Joint, walk: seq<Task>)
    requires JointLaw(x)
    ensures JointLaw(EjectAll(x, walk)) && EjectAll(x, walk).s == Eject(x.s, walk)
    decreases |walk|
  {
    hide Woken, Unqueue, Placed, Roles, QueueLaw;
    if walk != [] {
      if Expired(x.s, walk[0]) {
        WokenSizes(x.s, walk[0]);
        EjectLaws(x, walk[0]);
        EjectAllLaw(Unqueue(x, walk[0]).(s := Woken(x.s, walk[0])), walk[1..]);
      } else {
        EjectAllLaw(x, walk[1..]);
      }
    }
  }

  lemma {:induction false} SleepersFrame(s: State)
    requires Law(s)
    ensures var r := WakeDue(s);
      && r.waits == s.waits && |r.prio| == |s.prio| && |r.status| == |s.status|
      && forall t :: 0 <= t < |s.status| ==> (r.status[t].Blocked? <==> s.status[t].Blocked?)
    decreases |s.delayed|
  {
    hide Woken, Placed, Roles;
    if WakeDue(s) != s {
      var t := s.delayed[0];
      WokenSizes(s, t);
      WokenLaw(s, t);
      MoveFrame(s, t, Ready);
      SleepersFrame(Woken(s, t));
    }
  }

  lemma TickedLaw(x: Joint, n: nat)
    requires JointLaw(x)
    ensures JointLaw(Ticked(x, n)) && Ticked(x, n).s == Tick(x.s, n)
  {
    hide Placed, Roles, WakeDue, EjectAll, Eject, QueueLaw, Waits;
    var s1 := x.s.(now := x.s.now + n);
    ClockLaw(x.s, n);
    WakeDueLaw(s1);
    WakeDueSizes(s1);
    SleepersFrame(s1);
    SameIdlers(x, x.(s := WakeDue(s1)));
    Undisturbed(x, x.(s := WakeDue(s1)));
    EjectAllLaw(x.(s := WakeDue(s1)), WakeDue(s1).blocked);
  }

  lemma EndedLaw(x: Joint, t: Task)
    requires JointLaw(x)
    ensures JointLaw(Ended(x, t))
  {
    hide Placed, Roles, WaitQueue.Without, QueueLaw;
    var y := Ended(x, t);
    ExitLaw(x.s, t);
    if Visible(x.s, t) && !x.s.status[t].Terminated? {
      MoveFrame(x.s.(waits := x.s.waits[t := false]), t, Terminated);
      hide Visible, Move;
      if x.s.status[t].Blocked? && x.s.waits[t] {
        WaiterKnown(x, t);
        RemovedMembers(x.sems[x.on[t]].queue, t);
        assert WaitQueue.Without(x.sems[x.on[t]].queue, t) == WithoutFirst(x.sems[x.on[t]].queue, Is(t)) by { WithoutIs(x.sems[x.on[t]].queue, t); }
        Leaves(x, y, t, x.on[t]);
      } else {
        NotQueued(x, t);
        SameIdlers(x, y);
        Undisturbed(x, y);
      }
    }
  }

  /** A task that does not wait is in no queue, and taking it off one changes nothing. */
  lemma NotQueued(x: Joint, t: Task)
    requires JointLaw(x) && t < |x.s.status| && t < |x.s.waits| && !(x.s.status[t].Blocked? && x.s.waits[t])
    ensures Unqueue(x, t) == x
  {
    if t < |x.on| && x.on[t] < |x.sems| {
      var k := x.on[t];
      assert QueueLaw(x, k);
      WithoutIs(x.sems[k].queue, t);
      assert x.sems[k := x.sems[k]] == x.sems;
    }
  }

  lemma TakeLaw(x: Joint, k: nat, timeout: Option<nat>)
    requires JointLaw(x)
    ensures JointLaw(Take(x, k, timeout))
  {
    hide Placed, Roles, WaitQueue.Enqueued;
    var y, t := Take(x, k, timeout), x.s.current;
    if y != x {
      assert QueueLaw(x, k);
      if x.sems[k].count > 0 {
        CountLaw(x, y, k);
      } else {
        WaitLaw(x.s, timeout);
        var d := if timeout.None? then 0 else x.s.now + timeout.value;
        MoveFrame(x.s.(due := x.s.due[t := d], waits := x.s.waits[t := true]), t, Blocked);
        WaitQueue.EnqueuedMembers(x.sems[k].queue, x.s.prio, t);
        hide Park;
        JoinsQueue(x, y, t, k);
      }
    }
  }

  /** A count changes while nobody is in line. */
  lemma CountLaw(x: Joint, y: Joint, k: nat)
    requires JointLaw(x) && k < |x.sems| && |y.sems| == |x.sems| && x.sems[k].queue == [] && y.sems[k].count <= x.sems[k].limit
    requires y == x.(sems := x.sems[k := x.sems[k].(count := y.sems[k].count)])
    ensures JointLaw(y)
  {
    SameSems(x, y);
    hide LawBut, Waits;
    forall j | 0 <= j < |y.sems| ensures QueueLaw(y, j) { assert QueueLaw(x, j); }
  }

  /** Task t now waits for k as well, and nobody else's wait changed. */
  lemma JoinsQueue(x: Joint, y: Joint, t: Task, k: nat)
    requires JointLaw(x) && Law(y.s) && |y.on| == |y.s.prio| && k < |x.sems| == |y.sems| && x.sems[k].count == 0
    requires y.sems == x.sems[k := x.sems[k].(queue := y.sems[k].queue)] && Distinct(y.sems[k].queue)
    requires forall u :: u in y.sems[k].queue <==> u in x.sems[k].queue || u == t
    requires forall u: Task, j: nat :: Waits(y, u, j) <==> Waits(x, u, j) || (u == t && j == k)
    ensures JointLaw(y)
  {
    hide LawBut, Waits;
    forall j | 0 <= j < |y.sems| ensures QueueLaw(y, j) { assert QueueLaw(x, j); }
  }

  lemma GiveLaw(x: Joint, k: nat)
    requires JointLaw(x)
    ensures JointLaw(Give(x, k))
  {
    hide Placed, Roles;
    var y := Give(x, k);
    if k < |x.sems| {
      assert QueueLaw(x, k);
      var q := x.sems[k].queue;
      if q != [] {
        var w := q[0];
        assert w in q;
        WakeLaw(x.s, w);
        MoveFrame(x.s.(waits := x.s.waits[w := false]), w, Ready);
        HeadGone(q);
        hide Move;
        Leaves(x, y, w, k);
      } else {
        if y != x { CountLaw(x, y, k); }
      }
    }
  }

  lemma SameSems(x: Joint, y: Joint)
    requires y.s == x.s && y.on == x.on
    ensures SameWaiters(x, y)
  {
  }

  lemma HeadGone(q: seq<Task>)
    requires q != [] && Distinct(q)
    ensures Distinct(q[1..]) && forall u :: u in q[1..] <==> u in q && u != q[0]
  {
    assert q == [q[0]] + q[1..];
  }

  // --- Every step -------------------------------------------------------------------------------------------

  /** task_unblock on a task that waits for a semaphore. */
  ghost predicate Robbed(x: Joint, a: Act) {
    a.Other? && a.op.UnblockOp? && Idling(x.s, a.op.t)
  }

  /** A switch with nobody to run. */
  ghost predicate Starving(x: Joint, a: Act)
    requires Sizes(x.s)
  {
    a.Other? && a.op.SwitchOp? && Starved(x.s)
  }

  lemma UnblockLaw(x: Joint, t: Task)
    requires JointLaw(x)
    ensures Sizes(Do(x, Other(UnblockOp(t))).s) && (JointLaw(Do(x, Other(UnblockOp(t)))) <==> !Idling(x.s, t))
  {
    var y := Do(x, Other(UnblockOp(t)));
    WakeLaw(x.s, t);
    UnblockFrame(x.s, t);
    DoUnblock(x, t);
    hide Placed, Roles, QueueLaw, Unblock, Do;
    if Idling(x.s, t) {
      WaiterKnown(x, t);
      if JointLaw(y) { StillQueued(y, t, x.on[t]); }
    } else {
      SameIdlers(x, y);
      Undisturbed(x, y);
    }
  }

  lemma DoUnblock(x: Joint, t: Task)
    requires Sizes(x.s)
    ensures Do(x, Other(UnblockOp(t))) == x.(s := Unblock(x.s, t))
  {
    hide Unblock;
  }

  lemma UnblockFrame(s: State, t: Task)
    requires Law(s)
    ensures Sizes(Unblock(s, t)) && |Unblock(s, t).prio| == |s.prio|
    ensures forall u: Task :: Idling(Unblock(s, t), u) <==> Idling(s, u) && u != t
  {
    StepSizes(s, UnblockOp(t));
    hide Placed, Roles;
    if t < |s.prio| && s.status[t].Blocked? {
      MoveFrame(s, t, Ready);
      hide Move;
    }
  }

  lemma StillQueued(y: Joint, t: Task, k: nat)
    requires k < |y.sems| && QueueLaw(y, k) && t in y.sems[k].queue
    ensures Waits(y, t, k)
  {
  }

  /** Every step keeps the scheduler's lists and the semaphores' queues in agreement, but for two: a switch
      with nobody to run, and a task_unblock of a task that waits for a semaphore, which leaves it ready and
      in the queue. */
  lemma {:induction false} StepJoint(x: Joint, a: Act)
    requires JointLaw(x)
    ensures Sizes(Do(x, a).s) && (JointLaw(Do(x, a)) <==> !Robbed(x, a) && !Starving(x, a))
  {
    hide Placed, Roles, QueueLaw, Waits, Take, Give, Ticked, Ended, Apply, Idling, Starved;
    match a
    case TakeAct(k, timeout) => TakeLaw(x, k, timeout);
    case GiveAct(k) => GiveLaw(x, k);
    case TickAct(n) => TickedLaw(x, n);
    case ExitAct(t) => EndedLaw(x, t);
    case Other(op) => OtherLaw(x, op);
  }

  lemma OtherLaw(x: Joint, op: Op)
    requires JointLaw(x)
    ensures var a := Other(op); Sizes(Do(x, a).s) && (JointLaw(Do(x, a)) <==> !Robbed(x, a) && !Starving(x, a))
  {
    hide Placed, Roles, QueueLaw, Waits, Starved;
    StepLaw(x.s, op);
    var y := Do(x, Other(op));
    if op.UnblockOp? {
      UnblockLaw(x, op.t);
    } else if op.SwitchOp? {
      SwitchFrame(x.s);
      if !Starved(x.s) {
        hide Switch;
        SameIdlers(x, y);
        Undisturbed(x, y);
      }
    } else if y != x {
      hide Apply;
      if op.CollectOp? || op.CreateOp? || op.PrioOp? { RestFrame(x.s, op); } else { OwnFrame(x.s, op); }
      SameIdlers(x, y);
      Undisturbed(x, y);
    }
  }

  // --- Runs ---------------------------------------------------------------------------------------------------

  /** Semaphores with these counts and limits, and nobody about. */
  ghost function Start(levels: nat, sems: seq<Sem>): Joint
    requires levels > 0
  {
    Joint(Init(levels), [0], sems)
  }

  predicate Fresh(sems: seq<Sem>) { forall k :: 0 <= k < |sems| ==> sems[k].queue == [] && sems[k].count <= sems[k].limit }

  lemma StartLaw(levels: nat, sems: seq<Sem>)
    requires levels > 0 && Fresh(sems)
    ensures JointLaw(Start(levels, sems))
  {
    InitLaw(levels);
    hide LawBut;
  }

  /** A run in which every step is one that keeps the agreement. */
  ghost predicate Orderly(x: Joint, acts: seq<Act>)
    decreases |acts|
  {
    acts == [] || (Sizes(x.s) && !Robbed(x, acts[0]) && !Starving(x, acts[0]) && Orderly(Do(x, acts[0]), acts[1..]))
  }

  ghost predicate InAgreement(x: Joint, acts: seq<Act>)
    decreases |acts|
  {
    JointLaw(x) && (acts == [] || InAgreement(Do(x, acts[0]), acts[1..]))
  }

  /** Scheduler and semaphores agree at every point of a run exactly when the run has neither. */
  lemma {:induction false} AgreesExactly(x: Joint, acts: seq<Act>)
    requires JointLaw(x)
    ensures InAgreement(x, acts) <==> Orderly(x, acts)
    decreases |acts|
  {
    hide LawBut, Robbed, Starving, Do, QueueLaw, Waits;
    assert Sizes(x.s) by { LawSizes(x.s); }
    if acts != [] {
      StepJoint(x, acts[0]);
      if JointLaw(Do(x, acts[0])) { AgreesExactly(Do(x, acts[0]), acts[1..]); }
    }
  }

  /** ... from scheduler_init on, with any semaphores. */
  lemma {:induction false} RunsAgreeExactly(levels: nat, sems: seq<Sem>, acts: seq<Act>)
    requires levels > 0 && Fresh(sems)
    ensures InAgreement(Start(levels, sems), acts) <==> Orderly(Start(levels, sems), acts)
  {
    StartLaw(levels, sems);
    AgreesExactly(Start(levels, sems), acts);
  }

  lemma LawSizes(s: State)
    requires Law(s)
    ensures Sizes(s)
  {
  }

  /** What a joint step is to the scheduler. */
  ghost function Seen(x: Joint, a: Act): Op {
    match a
    case TakeAct(_, timeout) => ParkOp(timeout)
    case GiveAct(k) => if k < |x.sems| && x.sems[k].queue != [] then GrantOp(x.sems[k].queue[0]) else ResumeOp
    case TickAct(n) => TickOp(n)
    case ExitAct(t) => ExitOp(t)
    case Other(op) => op
  }

  /** To the scheduler every joint step is one of its own, or none: all that holds over its runs holds here.
      A tick and an exit are always that. */
  lemma {:induction false} Projects(x: Joint, a: Act)
    requires JointLaw(x)
    ensures Sizes(Do(x, a).s) && (Do(x, a).s == x.s || Do(x, a).s == Apply(x.s, Seen(x, a)))
    ensures a.TickAct? || a.ExitAct? ==> Sizes(x.s) && Do(x, a).s == Apply(x.s, Seen(x, a))
  {
    StepJoint(x, a);
    hide Placed, Roles, QueueLaw, Tick, Ticked, Park, Grant, Exit, Apply, WaitQueue.Enqueued;
    match a
    case TakeAct(k, timeout) => ApplyIs(x.s, timeout, 0, 0, 0);
    case GiveAct(k) => if k < |x.sems| && x.sems[k].queue != [] { ApplyIs(x.s, None, x.sems[k].queue[0], 0, 0); }
    case TickAct(n) =>
      ApplyIs(x.s, None, 0, n, 0);
      TickedLaw(x, n);
    case ExitAct(t) => ApplyIs(x.s, None, 0, 0, t);
    case Other(op) =>
  }

  lemma ApplyIs(s: State, timeout: Option<nat>, w: Task, n: nat, t: Task)
    requires Sizes(s)
    ensures Apply(s, ParkOp(timeout)) == Park(s, timeout) && Apply(s, GrantOp(w)) == Grant(s, w)
    ensures Apply(s, TickOp(n)) == Tick(s, n) && Apply(s, ExitOp(t)) == Exit(s, t)
  {
    hide Park, Grant, Tick, Exit, Sizes;
  }

  /** A give that finds somebody in line makes the first of them ready, with wait_sem cleared, and banks
      nothing. */
  lemma {:induction false} GiveWakes(x: Joint, k: nat)
    requires JointLaw(x) && k < |x.sems| && x.sems[k].queue != []
    ensures var w, y := x.sems[k].queue[0], Give(x, k);
      && |y.sems| == |x.sems| && y.sems[k].queue == x.sems[k].queue[1..] && y.sems[k].count == x.sems[k].count == 0
      && w < |y.s.status| && y.s.status[w].Ready? && w < |y.s.waits| && !y.s.waits[w]
  {
    var w := x.sems[k].queue[0];
    assert QueueLaw(x, k) && w in x.sems[k].queue;
    MoveFrame(x.s.(waits := x.s.waits[w := false]), w, Ready);
    hide Move;
  }

  // --- A waiter unblocked ---------------------------------------------------------------------------------

  ghost function After(x: Joint, acts: seq<Act>): Joint
    decreases |acts|
  {
    if acts == [] || !Sizes(x.s) then x else After(Do(x, acts[0]), acts[1..])
  }

  lemma OneMore(x: Joint, acts: seq<Act>, a: Act, rest: seq<Act>)
    requires acts == [a] + rest && Sizes(x.s)
    ensures After(x, acts) == After(Do(x, a), rest)
  {
    assert acts[1..] == rest;
  }

  /** One semaphore without a token. */
  ghost function Idle(): Joint { Start(2, [Sem(0, 1, [])]) }

  ghost function Pair(status: Status, ready: seq<seq<Task>>, blocked: seq<Task>, waits: bool, current: Task): State {
    State([0, 1], [Ready, status], ready, blocked, [], [0, 0], [false, waits], 0, current, 0)
  }

  lemma Created()
    ensures Sizes(Idle().s) && Do(Idle(), Other(CreateOp(1))) == Joint(Pair(Ready, [[0], [1]], [], false, 0), [0, 0], [Sem(0, 1, [])])
  {
    var s := Init(2);
    assert s.ready == [[0], []] && s.ready[1] + [1] == [1];
    assert s.ready[1 := [1]] == [[0], [1]];
  }

  lemma Chosen()
    ensures Sizes(Pair(Ready, [[0], [1]], [], false, 0)) && Switch(Pair(Ready, [[0], [1]], [], false, 0)) == Pair(Running, [[0], []], [], false, 1)
  {
    var s := Pair(Ready, [[0], [1]], [], false, 0);
    assert Highest(s.ready, 2) == Some(1);
    assert [1][1..] == [] && s.ready[1 := []] == [[0], []] && s.status[1 := Running] == [Ready, Running];
  }

  lemma Slept()
    ensures var s := Pair(Running, [[0], []], [], false, 1); Sizes(s) && Park(s, None) == Pair(Blocked, [[0], []], [1], true, 1)
  {
    var s := Pair(Running, [[0], []], [], false, 1);
    assert s.due[1 := 0] == s.due && s.waits[1 := true] == [false, true] && s.status[1 := Blocked] == [Ready, Blocked];
    var none: seq<Task> := [];
    assert none + [1] == [1];
  }

  lemma Lined(prio: seq<nat>)
    requires |prio| == 2
    ensures WaitQueue.Known([], prio) && WaitQueue.Enqueued([], prio, 1) == [1]
  {
    var none: seq<Task> := [];
    AheadIs(none, WaitQueue.ByPrio(prio), prio[1], 0);
  }

  lemma Parked()
    ensures Sizes(Pair(Running, [[0], []], [], false, 1))
    ensures Take(Joint(Pair(Running, [[0], []], [], false, 1), [0, 0], [Sem(0, 1, [])]), 0, None)
      == Joint(Pair(Blocked, [[0], []], [1], true, 1), [0, 0], [Sem(0, 1, [1])])
  {
    hide Park, WaitQueue.Enqueued, WaitQueue.Known;
    Slept();
    Lined([0, 1]);
    assert [0, 0][1 := 0] == [0, 0];
  }

  lemma Released()
    ensures var s := Pair(Blocked, [[0], []], [1], true, 1);
      Sizes(s) && Unblock(s, 1) == Pair(Ready, [[0], [1]], [], true, 1) && Idling(s, 1)
  {
    var s := Pair(Blocked, [[0], []], [1], true, 1);
    OffOnly();
    hide Off, WithoutFirst;
    var s1 := s.(blocked := []);
    assert Remove(s, 1) == s1;
    var none: seq<Task> := [];
    assert none + [1] == [1] && s1.ready[1 := [1]] == [[0], [1]] && s1.status[1 := Ready] == [Ready, Ready];
    hide Remove;
    assert Place(s1, 1, Ready) == Pair(Ready, [[0], [1]], [], true, 1);
  }

  lemma OffOnly()
    ensures Off([1], 1) == []
  {
    assert Find([1], Is(1)) == 0;
  }

  lemma SwitchIs(x: Joint)
    requires Sizes(x.s)
    ensures Do(x, Other(SwitchOp)) == x.(s := Switch(x.s)) && Do(x, TakeAct(0, None)) == Take(x, 0, None)
  {
    hide Switch, Take;
  }

  /** A task is created, runs, and waits for a semaphore; everything agrees. task_unblock then makes it
      ready, and it is still in the semaphore's queue. */
  lemma {:induction false} UnblockedWaiter()
    ensures var x := After(Idle(), [Other(CreateOp(1)), Other(SwitchOp), TakeAct(0, None)]);
      && JointLaw(x) && x.sems == [Sem(0, 1, [1])]
      && var y := Do(x, Other(UnblockOp(1)));
      |y.s.status| == 2 && y.s.status[1].Ready? && y.sems == [Sem(0, 1, [1])] && !JointLaw(y)
  {
    PairIs();
    hide LawBut, Do, Idle, Pair, Take, QueueLaw, Waits, Switch, Unblock, Idling, JointLaw;
    var c, a, b := Other(CreateOp(1)), Other(SwitchOp), TakeAct(0, None);
    Created();
    OneMore(Idle(), [c, a, b], c, [a, b]);
    StepJoint(Idle(), c);
    var x1 := Do(Idle(), c);
    Chosen();
    SwitchIs(x1);
    OneMore(x1, [a, b], a, [b]);
    StepJoint(x1, a);
    var x2 := Do(x1, a);
    Parked();
    SwitchIs(x2);
    OneMore(x2, [b], b, []);
    StepJoint(x2, b);
    var x := Do(x2, b);
    Released();
    DoUnblock(x, 1);
    UnblockLaw(x, 1);
  }

  lemma PairIs()
    ensures Sizes(Pair(Ready, [[0], [1]], [], false, 0))
    ensures !Starved(Pair(Ready, [[0], [1]], [], false, 0)) && JointLaw(Idle())
    ensures Pair(Ready, [[0], [1]], [], true, 1).status == [Ready, Ready]
  {
    StartLaw(2, [Sem(0, 1, [])]);
    var s := Pair(Ready, [[0], [1]], [], false, 0);
    assert s.ready[0] != [];
  }
}
