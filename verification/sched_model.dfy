/** The scheduler of kernel/task.c: a ready list per priority, the blocked list, the delayed list, the
    running task, and every operation that moves a task from one of them to another. Ticks do not wrap.

    A task that has just marked itself as blocked, delayed or ended makes no further call before the
    switch it asked for. */
module SchedModel {
  import opened Lists

  type Task = nat

  /** `Freed` is a task whose control block the idle task has given back. */
  datatype Status = Ready | Running | Blocked | Delayed | Terminated | Freed

  /** `ready[p]` is the ready list of priority p, head first. `due` is the delay_ticks field of each task,
      `waits` says whether its wait_sem is set. */
  datatype State = State(
    prio: seq<nat>, status: seq<Status>, ready: seq<seq<Task>>, blocked: seq<Task>, delayed: seq<Task>,
    due: seq<nat>, waits: seq<bool>, now: nat, current: Task, idle: Task)

  // --- Where a task belongs ---------------------------------------------------------------------------

  /** The list a status names. Ended tasks wait on the blocked list until they are freed. */
  datatype Home = OnReady(p: nat) | OnBlocked | OnDelayed | Nowhere

  function HomeOf(prio: seq<nat>, status: seq<Status>, t: Task): Home
    requires t < |prio| == |status|
  {
    match status[t]
    case Ready => OnReady(prio[t])
    case Blocked => OnBlocked
    case Terminated => OnBlocked
    case Delayed => OnDelayed
    case Running => Nowhere
    case Freed => Nowhere
  }

  /** List l has exactly the tasks that belong there, none twice; `but` is a task in transit. */
  ghost predicate Holds(l: seq<Task>, prio: seq<nat>, status: seq<Status>, h: Home, but: Option<Task>)
    requires |prio| == |status|
  {
    Distinct(l) && forall t: Task :: t in l <==> t < |prio| && Some(t) != but && HomeOf(prio, status, t) == h
  }

  /** Soonest first. */
  ghost function ByDue(due: seq<nat>): Task -> int { (t: Task) => if t < |due| then var d: int := due[t]; -d else 0 }

  ghost predicate Sizes(s: State) {
    && |s.prio| == |s.status| == |s.due| == |s.waits| && s.current < |s.prio| && s.idle < |s.prio|
    && forall t :: 0 <= t < |s.prio| ==> s.prio[t] < |s.ready|
  }

  /** Every task is on exactly the list its status names; `but`, if any, is on none. */
  ghost predicate Placed(s: State, but: Option<Task>)
    requires Sizes(s)
  {
    && (forall p :: 0 <= p < |s.ready| ==> Holds(s.ready[p], s.prio, s.status, OnReady(p), but))
    && Holds(s.blocked, s.prio, s.status, OnBlocked, but)
    && Holds(s.delayed, s.prio, s.status, OnDelayed, but)
    && Ranked(s.delayed, ByDue(s.due))
  }

  /** Only the current task can be running; the dead wait for nothing; neither the current nor the idle
      task has been freed. */
  ghost predicate Roles(s: State, but: Option<Task>)
    requires Sizes(s)
  {
    && (forall t :: 0 <= t < |s.prio| && s.status[t].Running? && Some(t) != but ==> t == s.current)
    && (forall t :: 0 <= t < |s.prio| && s.status[t].Terminated? ==> !s.waits[t])
    && !s.status[s.current].Freed? && !s.status[s.idle].Freed?
  }

  ghost predicate LawBut(s: State, but: Option<Task>) { Sizes(s) && Placed(s, but) && Roles(s, but) }

  ghost predicate Law(s: State) { LawBut(s, None) }

  // --- Off a list and onto another ----------------------------------------------------------------------

  /** remove_task, rl_remove: off the list it is on. */
  ghost function Off(l: seq<Task>, t: Task): seq<Task> { WithoutFirst(l, Is(t)) }

  ghost function Remove(s: State, t: Task): State
    requires Sizes(s) && t < |s.prio|
  {
    match HomeOf(s.prio, s.status, t)
    case OnReady(p) => s.(ready := s.ready[p := Off(s.ready[p], t)])
    case OnBlocked => s.(blocked := Off(s.blocked, t))
    case OnDelayed => s.(delayed := Off(s.delayed, t))
    case Nowhere => s
  }

  /** rl_append, enqueue_task on the blocked list, add_to_delayed_list: a new status, and the end of the
      list it names, or the place on the delayed list behind everybody due no later. */
  ghost function Place(s: State, t: Task, st: Status): State
    requires Sizes(s) && t < |s.prio|
  {
    var s1 := s.(status := s.status[t := st]);
    match HomeOf(s1.prio, s1.status, t)
    case OnReady(p) => s1.(ready := s.ready[p := s.ready[p] + [t]])
    case OnBlocked => s1.(blocked := s.blocked + [t])
    case OnDelayed => s1.(delayed := Insert(s.delayed, ByDue(s.due), t))
    case Nowhere => s1
  }

  ghost function Move(s: State, t: Task, st: Status): State
    requires Sizes(s) && t < |s.prio|
  {
    Place(Remove(s, t), t, st)
  }

  // --- The switch ---------------------------------------------------------------------------------------

  /** The highest priority below k with a ready task. */
  function Highest(ready: seq<seq<Task>>, k: nat): (r: Option<nat>)
    requires k <= |ready|
    ensures r.Some? ==> r.value < k && ready[r.value] != [] && forall p :: r.value < p < k ==> ready[p] == []
    ensures r.None? ==> forall p :: 0 <= p < k ==> ready[p] == []
  {
    if k == 0 then None else if ready[k - 1] != [] then Some(k - 1) else Highest(ready, k - 1)
  }

  ghost function Requeue(s: State): State
    requires Sizes(s)
  {
    if s.status[s.current].Running? then Place(s, s.current, Ready) else s
  }

  /** rl_pop_head: the first of list p runs. */
  ghost function Pop(s: State, p: nat): State
    requires Sizes(s) && p < |s.ready| && s.ready[p] != [] && s.ready[p][0] < |s.status|
  {
    var t := s.ready[p][0];
    s.(ready := s.ready[p := s.ready[p][1..]], current := t, status := s.status[t := Running])
  }

  /** get_next_task. */
  ghost function Switch(s: State): State
    requires Sizes(s)
  {
    var s1 := Requeue(s);
    match Highest(s1.ready, |s1.ready|)
    case Some(p) => if s1.ready[p][0] < |s1.status| then Pop(s1, p) else s1
    case None =>
      var c := if s1.status[s1.current].Running? then s1.current else s1.idle;
      s1.(current := c, status := s1.status[c := Running])
  }

  // --- Waiting and waking -------------------------------------------------------------------------------

  /** task_block, by the current task. */
  ghost function Block(s: State): State
    requires Sizes(s)
  {
    var t := s.current;
    if t == s.idle || s.status[t].Blocked? || s.status[t].Terminated? || s.status[t].Freed? then s else Move(s, t, Blocked)
  }

  /** task_delay, and task_delay_until with that many ticks to go. */
  ghost function Delay(s: State, ticks: nat): State
    requires Sizes(s)
  {
    var t := s.current;
    if t == s.idle || ticks == 0 || !s.status[t].Running? then s
    else Place(s.(due := s.due[t := s.now + ticks]), t, Delayed)
  }

  /** The blocking part of semaphore_take_common; no deadline is a wait for ever. */
  ghost function Park(s: State, ticks: Option<nat>): State
    requires Sizes(s)
  {
    var t := s.current;
    if !s.status[t].Running? || ticks == Some(0) then s
    else
      var d := if ticks.None? then 0 else s.now + ticks.value;
      Place(s.(due := s.due[t := d], waits := s.waits[t := true]), t, Blocked)
  }

  /** The rest of it, once the task runs again: wait_sem is cleared. */
  function Resume(s: State): State {
    if s.current < |s.status| && s.current < |s.waits| && s.status[s.current].Running?
    then s.(waits := s.waits[s.current := false]) else s
  }

  /** A give or a hand-off wakes a waiter. */
  ghost function Grant(s: State, t: Task): State
    requires Sizes(s)
  {
    if t < |s.prio| && s.status[t].Blocked? && s.waits[t] then Move(s.(waits := s.waits[t := false]), t, Ready) else s
  }

  /** task_unblock. It does not look at wait_sem (see SchedSema). */
  ghost function Unblock(s: State, t: Task): State
    requires Sizes(s)
  {
    if t < |s.prio| && s.status[t].Blocked? then Move(s, t, Ready) else s
  }

  ghost function Woken(s: State, t: Task): State
    requires Sizes(s) && t < |s.prio|
  {
    var s1 := Remove(s, t);
    Place(s1.(due := s1.due[t := 0]), t, Ready)
  }

  /** First half of wake_up_delayed_tasks_isr: the head of the delayed list, while its tick has come. */
  ghost function WakeDue(s: State): State
    requires Sizes(s)
    decreases |s.delayed|
  {
    if s.delayed == [] || s.delayed[0] >= |s.prio| || !s.status[s.delayed[0]].Delayed? || s.due[s.delayed[0]] > s.now then s
    else
      WokenSizes(s, s.delayed[0]);
      WakeDue(Woken(s, s.delayed[0]))
  }

  /** A semaphore waiter whose deadline has passed. */
  ghost predicate Expired(s: State, t: Task)
    requires Sizes(s)
  {
    t < |s.prio| && t in s.blocked && s.waits[t] && s.due[t] != 0 && s.due[t] < s.now
  }

  /** Second half: a walk over the blocked list as it was. wait_sem stays set for the take to see. */
  ghost function Eject(s: State, walk: seq<Task>): State
    requires Sizes(s)
    decreases |walk|
  {
    if walk == [] then s
    else if Expired(s, walk[0]) then
      WokenSizes(s, walk[0]);
      Eject(Woken(s, walk[0]), walk[1..])
    else Eject(s, walk[1..])
  }

  /** The tick interrupt, n ticks after the last one. */
  ghost function Tick(s: State, n: nat): State
    requires Sizes(s)
  {
    var s1 := s.(now := s.now + n);
    WakeDueSizes(s1);
    Eject(WakeDue(s1), WakeDue(s1).blocked)
  }

  // --- Birth and death ----------------------------------------------------------------------------------

  /** get_task_by_id: the current task, and all lists but the topmost ready list. */
  ghost predicate Visible(s: State, t: Task)
    requires Sizes(s)
  {
    t < |s.prio| && !s.status[t].Freed? && (t == s.current || (s.status[t].Ready? ==> s.prio[t] + 1 < |s.ready|))
  }

  /** task_exit_request; v_task_exit_impl for the running task. What the task held is handed on by steps
      of its own (Grant). */
  ghost function Exit(s: State, t: Task): State
    requires Sizes(s)
  {
    if Visible(s, t) && !s.status[t].Terminated? then Move(s.(waits := s.waits[t := false]), t, Terminated) else s
  }

  /** The first ended task on the blocked list. */
  ghost function FirstEnded(l: seq<Task>, status: seq<Status>): (r: Option<Task>)
    ensures r.Some? ==> r.value in l && r.value < |status| && status[r.value].Terminated?
    ensures r.None? ==> forall t :: t in l && t < |status| ==> !status[t].Terminated?
  {
    if l == [] then None
    else if l[0] < |status| && status[l[0]].Terminated? then Some(l[0])
    else FirstEnded(l[1..], status)
  }

  /** One pass of the idle task over the ended ones. */
  ghost function Collect(s: State): State
    requires Sizes(s)
  {
    var e := FirstEnded(s.blocked, s.status);
    if s.current == s.idle && s.status[s.idle].Running? && e.Some? then Move(s, e.value, Freed) else s
  }

  /** task_create: a new task at the end of its ready list. */
  function Create(s: State, p: nat): State {
    if p < |s.ready| then
      s.(prio := s.prio + [p], status := s.status + [Ready], due := s.due + [0], waits := s.waits + [false],
         ready := s.ready[p := s.ready[p] + [|s.prio|]])
    else s
  }

  /** task_change_priority. */
  ghost function ChangePrio(s: State, t: Task, p: nat): State
    requires Sizes(s) && t < |s.prio| && p < |s.ready|
  {
    if s.status[t].Ready? then
      var s1 := Remove(s, t);
      Place(s1.(prio := s1.prio[t := p]), t, Ready)
    else s.(prio := s.prio[t := p])
  }

  // --- Runs -----------------------------------------------------------------------------------------------

  datatype Op =
    | SwitchOp | BlockOp | DelayOp(ticks: nat) | ParkOp(timeout: Option<nat>) | ResumeOp
    | GrantOp(t: Task) | UnblockOp(t: Task) | TickOp(n: nat)
    | ExitOp(t: Task) | CollectOp | CreateOp(p: nat) | PrioOp(t: Task, p: nat)

  ghost function Apply(s: State, op: Op): State
    requires Sizes(s)
  {
    match op
    case SwitchOp => Switch(s)
    case BlockOp => Block(s)
    case DelayOp(ticks) => Delay(s, ticks)
    case ParkOp(timeout) => Park(s, timeout)
    case ResumeOp => Resume(s)
    case GrantOp(t) => Grant(s, t)
    case UnblockOp(t) => Unblock(s, t)
    case TickOp(n) => Tick(s, n)
    case ExitOp(t) => Exit(s, t)
    case CollectOp => Collect(s)
    case CreateOp(p) => Create(s, p)
    case PrioOp(t, p) => if t < |s.prio| && p < |s.ready| then ChangePrio(s, t, p) else s
  }

  /** scheduler_init: the idle task is current, and on the lowest ready list. */
  ghost function Init(levels: nat): State
    requires levels > 0
  {
    State([0], [Ready], seq(levels, i => if i == 0 then [0] else []), [], [], [0], [false], 0, 0, 0)
  }

  ghost function Run(levels: nat, ops: seq<Op>): (s: State)
    requires levels > 0
    ensures Sizes(s) && s.idle == 0
  {
    if ops == [] then Init(levels)
    else
      StepSizes(Run(levels, ops[..|ops| - 1]), ops[|ops| - 1]);
      Apply(Run(levels, ops[..|ops| - 1]), ops[|ops| - 1])
  }

  // --- Sizes ------------------------------------------------------------------------------------------------

  /** What moving tasks about leaves alone. */
  ghost predicate SameTasks(s: State, r: State) {
    && |r.prio| == |s.prio| && |r.status| == |s.status| && |r.due| == |s.due| && |r.waits| == |s.waits|
    && |r.ready| == |s.ready| && r.idle == s.idle
  }

  lemma MoveSizes(s: State, t: Task, st: Status)
    requires Sizes(s) && t < |s.prio|
    ensures Sizes(Remove(s, t)) && SameTasks(s, Remove(s, t)) && Remove(s, t).prio == s.prio && Remove(s, t).current == s.current
    ensures Sizes(Place(s, t, st)) && SameTasks(s, Place(s, t, st)) && Place(s, t, st).prio == s.prio && Place(s, t, st).current == s.current
  {
  }

  lemma WokenSizes(s: State, t: Task)
    requires Sizes(s) && t < |s.prio|
    ensures Sizes(Woken(s, t)) && SameTasks(s, Woken(s, t)) && Woken(s, t).prio == s.prio && Woken(s, t).current == s.current
    ensures s.status[t].Delayed? && t in s.delayed ==> |Woken(s, t).delayed| < |s.delayed|
  {
    MoveSizes(s, t, Ready);
  }

  lemma {:induction false} WakeDueSizes(s: State)
    requires Sizes(s)
    ensures Sizes(WakeDue(s)) && SameTasks(s, WakeDue(s)) && WakeDue(s).prio == s.prio && WakeDue(s).current == s.current
    decreases |s.delayed|
  {
    if WakeDue(s) != s {
      WokenSizes(s, s.delayed[0]);
      WakeDueSizes(Woken(s, s.delayed[0]));
    }
  }

  lemma {:induction false} EjectSizes(s: State, walk: seq<Task>)
    requires Sizes(s)
    ensures Sizes(Eject(s, walk)) && SameTasks(s, Eject(s, walk)) && Eject(s, walk).prio == s.prio && Eject(s, walk).current == s.current
    decreases |walk|
  {
    if walk != [] {
      if Expired(s, walk[0]) {
        WokenSizes(s, walk[0]);
        EjectSizes(Woken(s, walk[0]), walk[1..]);
      } else {
        EjectSizes(s, walk[1..]);
      }
    }
  }

  lemma SwitchSizes(s: State)
    requires Sizes(s)
    ensures Sizes(Switch(s)) && SameTasks(s, Switch(s)) && Switch(s).prio == s.prio
  {
    MoveSizes(s, s.current, Ready);
  }

  lemma StepSizes(s: State, op: Op)
    requires Sizes(s)
    ensures Sizes(Apply(s, op)) && Apply(s, op).idle == s.idle
  {
    hide Remove, Place, WakeDue, Eject;
    match op
    case SwitchOp => SwitchSizes(s);
    case BlockOp => MovedSizes(s, s.current, Blocked);
    case DelayOp(ticks) => MoveSizes(s.(due := s.due[s.current := s.now + ticks]), s.current, Delayed);
    case ParkOp(k) =>
      var d := if k.None? then 0 else s.now + k.value;
      MoveSizes(s.(due := s.due[s.current := d], waits := s.waits[s.current := true]), s.current, Blocked);
    case ResumeOp =>
    case GrantOp(t) => if t < |s.prio| { MovedSizes(s.(waits := s.waits[t := false]), t, Ready); }
    case UnblockOp(t) => if t < |s.prio| { MovedSizes(s, t, Ready); }
    case TickOp(n) =>
      var s1 := s.(now := s.now + n);
      WakeDueSizes(s1);
      EjectSizes(WakeDue(s1), WakeDue(s1).blocked);
    case ExitOp(t) => if t < |s.prio| { MovedSizes(s.(waits := s.waits[t := false]), t, Terminated); }
    case CollectOp => if FirstEnded(s.blocked, s.status).Some? { MovedSizes(s, FirstEnded(s.blocked, s.status).value, Freed); }
    case CreateOp(p) =>
    case PrioOp(t, p) =>
      if t < |s.prio| && p < |s.ready| {
        MoveSizes(s, t, Ready);
        var s1 := Remove(s, t);
        MoveSizes(s1.(prio := s1.prio[t := p]), t, Ready);
      }
  }

  lemma MovedSizes(s: State, t: Task, st: Status)
    requires Sizes(s) && t < |s.prio|
    ensures Sizes(Move(s, t, st)) && SameTasks(s, Move(s, t, st)) && Move(s, t, st).prio == s.prio && Move(s, t, st).current == s.current
  {
    MoveSizes(s, t, st);
    MoveSizes(Remove(s, t), t, st);
  }
}
