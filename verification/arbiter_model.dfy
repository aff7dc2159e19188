/** The peripheral-bus arbiter (kernel/periph_bus.c): any number of buses, each shared by async jobs
    and by tasks that lock it, with a common pool of lock slots. One step is one critical section. */
module ArbiterModel {
  import opened Lists

  type Task = nat

  datatype JobState = Idle | Queued | Active

  /** A queue node: an async job, or the slot of a task that wants the lock. */
  datatype Node = Async(j: nat) | Lock(i: nat)

  /** A queued node, with its priority and the moment it was queued. */
  datatype Entry = Entry(node: Node, prio: nat, stamp: nat)

  /** `holder` is the slot behind `locked`; `pending` counts dispatch calls that have yet to look at
      the queue; `submits` and `dones` count accepted async jobs and completed ones. */
  datatype Bus = Bus(queue: seq<Entry>, active: Option<nat>, locked: bool, holder: Option<nat>, pending: nat, submits: nat, dones: nat)

  datatype Job = Job(state: JobState, bus: nat)

  /** A lock slot is free when it has no bus. */
  datatype Slot = Slot(bus: Option<nat>, owner: Task, state: JobState)

  datatype State = State(buses: seq<Bus>, jobs: seq<Job>, slots: seq<Slot>, clock: nat)

  // --- The queue ------------------------------------------------------------------------------------

  ghost function ByUrgency(): Entry -> int { (e: Entry) => e.prio }

  /** Behind everybody at least as urgent. */
  ghost function Enqueued(q: seq<Entry>, e: Entry): seq<Entry> { Insert(q, ByUrgency(), e) }

  function Of(n: Node): Entry -> bool { (e: Entry) => e.node == n }

  function Without(q: seq<Entry>, n: Node): seq<Entry> { WithoutFirst(q, Of(n)) }

  ghost predicate Has(q: seq<Entry>, n: Node) { exists i :: 0 <= i < |q| && q[i].node == n }

  ghost predicate NodesDistinct(q: seq<Entry>) { forall i, j :: 0 <= i < j < |q| ==> q[i].node != q[j].node }

  /** More urgent, or as urgent and queued earlier. */
  predicate Before(a: Entry, b: Entry) { a.prio > b.prio || (a.prio == b.prio && a.stamp < b.stamp) }

  ghost predicate Sorted(q: seq<Entry>) { forall i, j :: 0 <= i < j < |q| ==> Before(q[i], q[j]) }

  // --- Steps ----------------------------------------------------------------------------------------

  function SetBus(s: State, b: nat, x: Bus): State
    requires b < |s.buses|
  {
    s.(buses := s.buses[b := x])
  }

  /** Put a node on the queue, and remember to dispatch. */
  ghost function Queue(s: State, b: nat, n: Node, prio: nat): State
    requires b < |s.buses|
  {
    var x := s.buses[b];
    SetBus(s, b, x.(queue := Enqueued(x.queue, Entry(n, prio, s.clock)), pending := x.pending + 1)).(clock := s.clock + 1)
  }

  /** v_pbus_submit up to its dispatch. */
  ghost function Submit(s: State, b: nat, j: nat, prio: nat): State {
    if b < |s.buses| && j < |s.jobs| && s.jobs[j].state.Idle? then
      var s1 := Queue(s, b, Async(j), prio);
      SetBus(s1, b, s1.buses[b].(submits := s1.buses[b].submits + 1)).(jobs := s.jobs[j := Job(Queued, b)])
    else s
  }

  /** One round of dispatch: an idle bus goes to the head of the queue. */
  function Dispatch(s: State, b: nat): State {
    if b < |s.buses| && s.buses[b].pending > 0 then
      var x := s.buses[b].(pending := s.buses[b].pending - 1);
      if x.active.Some? || x.locked || x.queue == [] then SetBus(s, b, x)
      else
        match x.queue[0].node
        case Async(j) =>
          if j < |s.jobs| then
            SetBus(s, b, x.(queue := x.queue[1..], active := Some(j))).(jobs := s.jobs[j := s.jobs[j].(state := Active)])
          else s
        case Lock(i) =>
          if i < |s.slots| then
            SetBus(s, b, x.(queue := x.queue[1..], locked := true, holder := Some(i))).(slots := s.slots[i := s.slots[i].(state := Active)])
          else s
    else s
  }

  /** release, with its done(): completion, abort, or a start that failed. Then dispatch. */
  function Release(s: State, b: nat): State {
    if b < |s.buses| && s.buses[b].active.Some? && s.buses[b].active.value < |s.jobs| then
      var x, j := s.buses[b], s.buses[b].active.value;
      SetBus(s, b, x.(active := None, pending := x.pending + 1, dones := x.dones + 1)).(jobs := s.jobs[j := s.jobs[j].(state := Idle)])
    else s
  }

  /** A completion interrupt with nothing on the bus: nothing to release, but it dispatches. */
  function Stray(s: State, b: nat): State {
    if b < |s.buses| && s.buses[b].active.None? then SetBus(s, b, s.buses[b].(pending := s.buses[b].pending + 1)) else s
  }

  /** v_pbus_lock, first section: claim a free slot. */
  function Claim(s: State, b: nat, i: nat, t: Task): State {
    if b < |s.buses| && i < |s.slots| && s.slots[i].bus.None? then s.(slots := s.slots[i := Slot(Some(b), t, Idle)]) else s
  }

  /** ... second section: queue it. */
  ghost function Request(s: State, i: nat, prio: nat): State {
    if i < |s.slots| && s.slots[i].bus.Some? && s.slots[i].bus.value < |s.buses| && s.slots[i].state.Idle? then
      Queue(s, s.slots[i].bus.value, Lock(i), prio).(slots := s.slots[i := s.slots[i].(state := Queued)])
    else s
  }

  /** ... last section, after the wait timed out: give up unless the grant came in after all. */
  function Timeout(s: State, i: nat): State {
    if i < |s.slots| && s.slots[i].state.Queued? && s.slots[i].bus.Some? && s.slots[i].bus.value < |s.buses| then
      var b := s.slots[i].bus.value;
      SetBus(s, b, s.buses[b].(queue := Without(s.buses[b].queue, Lock(i)))).(slots := s.slots[i := s.slots[i].(bus := None, state := Idle)])
    else s
  }

  /** drop_slot: off the queue or off the bus; a bus it held is dispatched next. */
  function Drop(s: State, i: nat): State {
    if i < |s.slots| && s.slots[i].bus.Some? && s.slots[i].bus.value < |s.buses| then
      var b := s.slots[i].bus.value;
      var x := s.buses[b];
      var y := match s.slots[i].state
        case Idle => x
        case Queued => x.(queue := Without(x.queue, Lock(i)))
        case Active => x.(locked := false, holder := None, pending := x.pending + 1);
      SetBus(s, b, y).(slots := s.slots[i := s.slots[i].(bus := None, state := Idle)])
    else s
  }

  datatype Op =
    | SubmitOp(b: nat, j: nat, prio: nat) | DispatchOp(b: nat) | ReleaseOp(b: nat) | StrayOp(b: nat)
    | ClaimOp(b: nat, i: nat, t: Task) | RequestOp(i: nat, prio: nat) | TimeoutOp(i: nat)
    | UnlockOp(i: nat, t: Task) | TeardownOp(i: nat, t: Task)

  ghost function Apply(s: State, op: Op): State {
    match op
    case SubmitOp(b, j, prio) => Submit(s, b, j, prio)
    case DispatchOp(b) => Dispatch(s, b)
    case ReleaseOp(b) => Release(s, b)
    case StrayOp(b) => Stray(s, b)
    case ClaimOp(b, i, t) => Claim(s, b, i, t)
    case RequestOp(i, prio) => Request(s, i, prio)
    case TimeoutOp(i) => Timeout(s, i)
    case UnlockOp(i, t) => if i < |s.slots| && s.slots[i].owner == t && s.slots[i].state.Active? then Drop(s, i) else s
    case TeardownOp(i, t) => if i < |s.slots| && s.slots[i].owner == t then Drop(s, i) else s
  }

  function Init(n: nat, jobs: nat, slots: nat): State {
    State(seq(n, i => Bus([], None, false, None, 0, 0, 0)), seq(jobs, i => Job(Idle, 0)), seq(slots, i => Slot(None, 0, Idle)), 0)
  }

  ghost function Run(n: nat, jobs: nat, slots: nat, ops: seq<Op>): State {
    if ops == [] then Init(n, jobs, slots) else Apply(Run(n, jobs, slots, ops[..|ops| - 1]), ops[|ops| - 1])
  }
}
