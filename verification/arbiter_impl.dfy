/** The arbiter in place: its queue walks, its searches over the lock slots, and the dispatch loop. */
module ArbiterImpl {
  import opened Lists
  import opened ArbiterModel
  import opened ArbiterProof
  import Steps

  class Arbiter {
    var buses: seq<Bus>
    var jobs: seq<Job>
    var slots: seq<Slot>
    var clock: nat // when the next entry is queued

    ghost function Now(): State
      reads this
    {
      State(buses, jobs, slots, clock)
    }

    ghost predicate Valid()
      reads this
    {
      Inv(Now())
    }

    constructor (n: nat, jobCount: nat, slotCount: nat)
      ensures Valid() && Now() == Init(n, jobCount, slotCount)
    {
      buses := seq(n, i => Bus([], None, false, None, 0, 0, 0));
      jobs := seq(jobCount, i => Job(Idle, 0));
      slots := seq(slotCount, i => Slot(None, 0, Idle));
      clock := 0;
      new;
      RunsKeepInv(n, jobCount, slotCount, []);
    }

    /** dispatch: hand an idle bus to the head of the queue; go on past async jobs whose start fails. */
    method DispatchAll(b: nat) returns (ghost steps: seq<Op>)
      requires Valid() && b < |buses| && buses[b].pending > 0
      modifies this
      ensures Valid() && |buses| == |old(buses)| && buses[b].pending == old(buses)[b].pending - 1
      ensures Busy(buses[b]) && forall c :: 0 <= c < |buses| && c != b ==> buses[c] == old(buses)[c]
      ensures SameOwners(old(slots), slots)
      ensures Serving(b, steps) && |steps| % 2 == 1 && Now() == On(old(Now()), steps)
    {
      hide Inv, On;
      var more := true;
      steps := [];
      NoSteps(Now());
      while more
        invariant Valid() && b < |buses| == |old(buses)|
        invariant more ==> buses[b].pending == old(buses)[b].pending > 0
        invariant !more ==> buses[b].pending == old(buses)[b].pending - 1
        invariant !more ==> Busy(buses[b])
        invariant forall c :: 0 <= c < |buses| && c != b ==> buses[c] == old(buses)[c]
        invariant SameOwners(old(slots), slots)
        invariant Serving(b, steps) && (more <==> |steps| % 2 == 0) && Now() == On(old(Now()), steps)
        decreases more, |buses[b].queue|
      {
        ghost var s := Now();
        OneStep(old(Now()), steps, DispatchOp(b));
        steps := steps + [DispatchOp(b)];
        if buses[b].queue != [] { HeadKnown(s, b); }
        DispatchInv(s, b);
        var x := buses[b].(pending := buses[b].pending - 1);
        more := false;
        if x.active.Some? || x.locked || x.queue == [] {
          buses := buses[b := x];
        } else if x.queue[0].node.Lock? {
          var i := x.queue[0].node.i;
          slots := slots[i := slots[i].(state := Active)];
          buses := buses[b := x.(queue := x.queue[1..], locked := true, holder := Some(i))];
        } else {
          var j := x.queue[0].node.j;
          jobs := jobs[j := jobs[j].(state := Active)];
          buses := buses[b := x.(queue := x.queue[1..], active := Some(j))];
          var started: bool := *;
          if !started {
            ReleaseInv(Now(), b);
            OneStep(old(Now()), steps, ReleaseOp(b));
            steps := steps + [ReleaseOp(b)];
            jobs := jobs[j := jobs[j].(state := Idle)];
            buses := buses[b := buses[b].(active := None, pending := buses[b].pending + 1, dones := buses[b].dones + 1)];
            more := true;
          }
        }
      }
    }

    /** enqueue: behind everybody at least as urgent. */
    method Enqueue(b: nat, n: Node, prio: nat)
      requires b < |buses|
      modifies this`buses, this`clock
      ensures Now() == Queue(old(Now()), b, n, prio)
      ensures |buses| == |old(buses)| && buses == old(buses)[b := buses[b]] && clock == old(clock) + 1
      ensures buses[b] == old(buses)[b].(queue := buses[b].queue, pending := old(buses)[b].pending + 1)
      ensures Sorted(old(buses)[b].queue) ==> Lined(old(buses)[b].queue, buses[b].queue, Entry(n, prio, old(clock)))
    {
      hide Lined, Sorted, Enqueued;
      var q, e, k := buses[b].queue, Entry(n, prio, clock), 0;
      while k < |q| && q[k].prio >= prio
        invariant k <= |q| && forall i :: 0 <= i < k ==> q[i].prio >= prio
      {
        k := k + 1;
      }
      PlacedAt(q, e, k);
      buses := buses[b := buses[b].(queue := q[..k] + [e] + q[k..], pending := buses[b].pending + 1)];
      clock := clock + 1;
    }

    /** unqueue. */
    method Unqueue(b: nat, n: Node)
      requires b < |buses|
      modifies this`buses
      ensures Now() == SetBus(old(Now()), b, old(buses)[b].(queue := Without(old(buses)[b].queue, n)))
    {
      var q := Unlink(buses[b].queue, Of(n));
      buses := buses[b := buses[b].(queue := q)];
    }

    /** v_pbus_submit. */
    method Submit(b: nat, j: nat, prio: nat) returns (ok: bool)
      requires Valid() && b < |buses| && j < |jobs|
      modifies this
      ensures Valid() && ok == old(jobs)[j].state.Idle? && Now() == Apply(old(Now()), SubmitOp(b, j, prio))
      ensures !ok ==> Now() == old(Now())
      ensures ok ==> |buses| == |old(buses)| && jobs == old(jobs)[j := Job(Queued, b)] && slots == old(slots)
      ensures ok ==> Lined(old(buses)[b].queue, buses[b].queue, Entry(Async(j), prio, old(clock)))
      ensures ok ==> var x := old(buses)[b];
        buses == old(buses)[b := x.(queue := buses[b].queue, pending := x.pending + 1, submits := x.submits + 1)]
    {
      hide Inv, Lined, Sorted;
      QueueSorted(Now(), b);
      SubmitInv(Now(), b, j, prio);
      if !jobs[j].state.Idle? { return false; }
      Enqueue(b, Async(j), prio);
      buses := buses[b := buses[b].(submits := buses[b].submits + 1)];
      jobs := jobs[j := Job(Queued, b)];
      return true;
    }

    /** v_pbus_lock, first section: one more than the number of the slot claimed, or 0 if all are taken. */
    method ClaimSlot(b: nat, t: Task) returns (k: nat)
      requires Valid() && b < |buses|
      modifies this`slots
      ensures Valid() && k <= |slots| == |old(slots)|
      ensures k == 0 ==> Now() == old(Now()) && forall i :: 0 <= i < |slots| ==> slots[i].bus.Some?
      ensures k > 0 ==> old(slots)[k - 1].bus.None? && Now() == Apply(old(Now()), ClaimOp(b, k - 1, t))
      ensures k > 0 ==> slots == old(slots)[k - 1 := Slot(Some(b), t, Idle)]
    {
      hide Inv;
      k := 0;
      while k < |slots| && slots[k].bus.Some?
        invariant k <= |slots| && slots == old(slots) && forall i :: 0 <= i < k ==> slots[i].bus.Some?
      {
        k := k + 1;
      }
      if k == |slots| { return 0; }
      ClaimInv(Now(), b, k, t);
      slots := slots[k := Slot(Some(b), t, Idle)];
      k := k + 1;
    }

    /** ... second section. */
    method Request(i: nat, prio: nat)
      requires Valid() && i < |slots| && slots[i].bus.Some? && slots[i].state.Idle?
      modifies this
      ensures Valid() && Now() == Apply(old(Now()), RequestOp(i, prio))
      ensures old(slots)[i].bus.value < |old(buses)| == |buses| && jobs == old(jobs) && slots == old(slots)[i := old(slots)[i].(state := Queued)]
      ensures var b := old(slots)[i].bus.value; var x := old(buses)[b];
        && Lined(x.queue, buses[b].queue, Entry(Lock(i), prio, old(clock)))
        && buses == old(buses)[b := x.(queue := buses[b].queue, pending := x.pending + 1)]
    {
      hide Inv, Lined, Sorted;
      RequestInv(Now(), i, prio);
      SlotKnown(Now(), i);
      QueueSorted(Now(), slots[i].bus.value);
      Enqueue(slots[i].bus.value, Lock(i), prio);
      slots := slots[i := slots[i].(state := Queued)];
    }

    /** ... last section, when the wait timed out. True if the grant came in after all. */
    method GiveUp(i: nat) returns (granted: bool)
      requires Valid() && i < |slots| && slots[i].bus.Some? && !slots[i].state.Idle?
      modifies this
      ensures Valid() && granted == old(slots)[i].state.Active? && Now() == Apply(old(Now()), TimeoutOp(i))
      ensures granted ==> Now() == old(Now())
      ensures !granted ==> GoneFrom(old(Now()), Now(), i)
    {
      hide Inv, Without, GoneFrom;
      TimeoutInv(Now(), i);
      SlotKnown(Now(), i);
      TimeoutGone(Now(), i);
      granted := slots[i].state.Active?;
      if !granted {
        Unqueue(slots[i].bus.value, Lock(i));
        slots := slots[i := slots[i].(bus := None, state := Idle)];
      }
    }

    /** drop_slot. */
    method DropSlot(i: nat) returns (held: bool)
      requires Valid() && i < |slots| && slots[i].bus.Some?
      modifies this
      ensures Valid() && held == old(slots)[i].state.Active? && Now() == Drop(old(Now()), i)
      ensures GoneFrom(old(Now()), Now(), i)
    {
      hide Inv, Without, GoneFrom;
      DropGone(Now(), i);
      DropInv(Now(), i);
      SlotKnown(Now(), i);
      var b := slots[i].bus.value;
      assert buses[b := buses[b]] == buses;
      held := slots[i].state.Active?;
      if slots[i].state.Queued? { Unqueue(b, Lock(i)); }
      if held { buses := buses[b := buses[b].(locked := false, holder := None, pending := buses[b].pending + 1)]; }
      slots := slots[i := slots[i].(bus := None, state := Idle)];
    }

    /** v_pbus_unlock: only the task that holds the bus can release it. */
    method Unlock(b: nat, t: Task) returns (held: bool)
      requires Valid() && b < |buses|
      modifies this
      ensures Valid()
      ensures held <==> exists i :: 0 <= i < |old(slots)| && Mine(old(slots)[i], b, t)
      ensures !held ==> Now() == old(Now())
      ensures held ==> exists i :: 0 <= i < |old(slots)| && Mine(old(slots)[i], b, t) && Now() == Apply(old(Now()), UnlockOp(i, t)) && GoneFrom(old(Now()), Now(), i)
    {
      hide Inv, Drop, GoneFrom;
      var i := 0;
      while i < |slots| && !(slots[i].bus == Some(b) && slots[i].owner == t && slots[i].state.Active?)
        invariant i <= |slots| && Now() == old(Now()) && forall k :: 0 <= k < i ==> !Mine(slots[k], b, t)
      {
        i := i + 1;
      }
      if i == |slots| { return false; }
      assert Mine(slots[i], b, t);
      held := DropSlot(i);
    }

    /** v_pbus_task_teardown: afterwards no slot is the dead task's, nobody else has lost one, every bus it
        held is passed on, and no bus is left idle that was not before. */
    method Teardown(t: Task) returns (ghost steps: seq<Op>)
      requires Valid()
      modifies this
      ensures Valid() && |slots| == |old(slots)| && |buses| == |old(buses)|
      ensures forall i :: 0 <= i < |slots| && slots[i].owner == t ==> slots[i].bus.None?
      ensures forall i :: 0 <= i < |slots| ==> slots[i].owner == old(slots)[i].owner
      ensures forall i :: 0 <= i < |slots| && slots[i].owner != t ==> slots[i].bus == old(slots)[i].bus
      ensures forall b :: 0 <= b < |buses| ==> buses[b].pending == old(buses)[b].pending
      ensures forall b, i :: 0 <= b < |buses| && 0 <= i < |slots| && Mine(old(slots)[i], b, t) ==> Busy(buses[b])
      ensures forall b :: 0 <= b < |buses| && Busy(old(buses)[b]) ==> Busy(buses[b])
      ensures Passing(t, steps) && Now() == On(old(Now()), steps)
    {
      hide Inv, Drop, On;
      var i := 0;
      steps := [];
      NoSteps(Now());
      while i < |slots|
        invariant Valid() && i <= |slots| == |old(slots)| && |buses| == |old(buses)|
        invariant forall k :: 0 <= k < i && slots[k].owner == t ==> slots[k].bus.None?
        invariant SameOwners(old(slots)[i..], slots[i..])
        invariant forall k :: 0 <= k < |slots| ==> slots[k].owner == old(slots)[k].owner
        invariant forall k :: 0 <= k < |slots| && slots[k].owner != t ==> slots[k].bus == old(slots)[k].bus
        invariant forall b :: 0 <= b < |buses| ==> buses[b].pending == old(buses)[b].pending
        invariant forall b, k :: 0 <= b < |buses| && 0 <= k < i && Mine(old(slots)[k], b, t) ==> Busy(buses[b])
        invariant forall b :: 0 <= b < |buses| && Busy(old(buses)[b]) ==> Busy(buses[b])
        invariant Passing(t, steps) && Now() == On(old(Now()), steps)
      {
        assert slots[i] == slots[i..][0] && old(slots)[i] == old(slots)[i..][0];
        ghost var more := DropOwn(t, i);
        MoreSteps(old(Now()), steps, more);
        steps := steps + more;
        i := i + 1;
      }
    }

    /** One round of the teardown. */
    method DropOwn(t: Task, i: nat) returns (ghost steps: seq<Op>)
      requires Valid() && i < |slots|
      modifies this
      ensures Valid() && |slots| == |old(slots)| && |buses| == |old(buses)|
      ensures slots[i].owner == t ==> slots[i].bus.None?
      ensures forall k :: 0 <= k < |slots| ==> slots[k].owner == old(slots)[k].owner
      ensures forall k :: 0 <= k < |slots| && (k != i || slots[k].owner != t) ==>
        slots[k].bus == old(slots)[k].bus && (old(slots)[k].state.Active? ==> slots[k].state.Active?)
      ensures forall b :: 0 <= b < |buses| ==> buses[b].pending == old(buses)[b].pending
      ensures forall b :: 0 <= b < |buses| && (Busy(old(buses)[b]) || Mine(old(slots)[i], b, t)) ==> Busy(buses[b])
      ensures Passing(t, steps) && Now() == On(old(Now()), steps)
    {
      hide Inv, Drop, On, GoneFrom;
      steps := [];
      NoSteps(Now());
      if slots[i].owner == t && slots[i].bus.Some? {
        SlotKnown(Now(), i);
        DropShape(Now(), i);
        var b := slots[i].bus.value;
        OneStep(Now(), [], TeardownOp(i, t));
        var held := DropSlot(i);
        steps := [] + [TeardownOp(i, t)];
        if held {
          ghost var more := DispatchAll(b);
          MoreSteps(old(Now()), steps, more);
          steps := steps + more;
        }
      }
    }
  }

  /** The state after these steps of the model. */
  ghost function On(s: State, ops: seq<Op>): State { Steps.On(Apply, s, ops) }

  lemma NoSteps(s: State)
    ensures On(s, []) == s
  {
  }

  lemma MoreSteps(s: State, ops: seq<Op>, more: seq<Op>)
    ensures On(s, ops + more) == On(On(s, ops), more)
  {
    Steps.OnAppend(Apply, s, ops, more);
  }

  lemma OneStep(s: State, ops: seq<Op>, op: Op)
    ensures On(s, ops + [op]) == Apply(On(s, ops), op) && On(s, []) == s
  {
    Steps.OnAppend(Apply, s, ops, [op]);
    Steps.OneByOne(Apply, On(s, ops), [op], op, []);
  }

  /** Dispatches of bus b, with a release after each but the last: that job's start had failed. */
  ghost predicate Serving(b: nat, ops: seq<Op>) {
    forall i :: 0 <= i < |ops| ==> ops[i] == if i % 2 == 0 then DispatchOp(b) else ReleaseOp(b)
  }

  /** Slots of task t are dropped, and buses dispatched. */
  ghost predicate Passing(t: Task, ops: seq<Op>) {
    forall i :: 0 <= i < |ops| ==> ops[i].DispatchOp? || ops[i].ReleaseOp? || (ops[i].TeardownOp? && ops[i].t == t)
  }

  /** Where the walk stops is where the entry belongs. */
  lemma PlacedAt(q: seq<Entry>, e: Entry, k: nat)
    requires k <= |q| && (forall i :: 0 <= i < k ==> q[i].prio >= e.prio) && (k < |q| ==> q[k].prio < e.prio)
    ensures Enqueued(q, e) == q[..k] + [e] + q[k..]
    ensures Sorted(q) ==> Lined(q, Enqueued(q, e), e)
  {
    AheadIs(q, ByUrgency(), e.prio, k);
    hide Lined;
    if Sorted(q) { EnqueuedLines(q, e); }
  }

  lemma QueueSorted(s: State, b: nat)
    requires Inv(s) && b < |s.buses|
    ensures Sorted(s.buses[b].queue)
  {
    assert BusOk(s.buses[b], b, s.jobs, s.slots, s.clock);
  }

  /** Slot i is free, its task is off the queue, and if it held the bus that is unlocked and to be
      dispatched; everything else is as it was. */
  ghost predicate GoneFrom(s: State, r: State, i: nat) {
    && i < |s.slots| && s.slots[i].bus.Some? && s.slots[i].bus.value < |s.buses| == |r.buses|
    && r.jobs == s.jobs && r.slots == s.slots[i := s.slots[i].(bus := None, state := Idle)]
    && var b := s.slots[i].bus.value; var x, y := s.buses[b], r.buses[b];
    && r.buses == s.buses[b := y]
    && (forall n :: Has(y.queue, n) <==> Has(x.queue, n) && n != Lock(i))
    && (forall e :: e in y.queue ==> e in x.queue)
    && if s.slots[i].state.Active? then y == x.(locked := false, holder := None, pending := x.pending + 1) else y == x.(queue := y.queue)
  }

  lemma DropGone(s: State, i: nat)
    requires Inv(s) && i < |s.slots| && s.slots[i].bus.Some?
    ensures GoneFrom(s, Drop(s, i), i)
  {
    SlotKnown(s, i);
    var b := s.slots[i].bus.value;
    QueueSorted(s, b);
    assert SlotOk(s.slots[i], i, s.buses) && BusOk(s.buses[b], b, s.jobs, s.slots, s.clock);
    if s.slots[i].state.Queued? {
      WithoutOk(s.buses[b].queue, Lock(i));
    } else {
      NotOn(s, i);
      assert s.buses[b := s.buses[b]] == s.buses;
    }
  }

  lemma NotOn(s: State, i: nat)
    requires Inv(s) && i < |s.slots| && s.slots[i].bus.Some? && s.slots[i].bus.value < |s.buses| && !s.slots[i].state.Queued?
    ensures !Has(s.buses[s.slots[i].bus.value].queue, Lock(i))
  {
    var b := s.slots[i].bus.value;
    assert BusOk(s.buses[b], b, s.jobs, s.slots, s.clock);
    assert Has(s.buses[b].queue, Lock(i)) ==> NodeOk(Lock(i), b, s.jobs, s.slots);
  }

  lemma TimeoutGone(s: State, i: nat)
    requires Inv(s) && i < |s.slots| && s.slots[i].bus.Some?
    ensures s.slots[i].state.Queued? ==> GoneFrom(s, Timeout(s, i), i)
  {
    DropGone(s, i);
  }

  /** Not idle with something queued. */
  ghost predicate Busy(x: Bus) { x.queue == [] || x.active.Some? || x.locked }

  /** What drop_slot does to the slots and to the buses. */
  lemma DropShape(s: State, i: nat)
    requires Inv(s) && i < |s.slots| && s.slots[i].bus.Some? && s.slots[i].bus.value < |s.buses|
    ensures var r := Drop(s, i); var b := s.slots[i].bus.value;
      && |r.slots| == |s.slots| && |r.buses| == |s.buses| && r.slots == s.slots[i := s.slots[i].(bus := None, state := Idle)]
      && (forall c :: 0 <= c < |s.buses| && c != b ==> r.buses[c] == s.buses[c])
      && r.buses[b].pending == s.buses[b].pending + (if s.slots[i].state.Active? then 1 else 0)
      && (!s.slots[i].state.Active? && Busy(s.buses[b]) ==> Busy(r.buses[b]))
  {
  }

  ghost predicate Mine(x: Slot, b: nat, t: Task) { x.bus == Some(b) && x.owner == t && x.state.Active? }

  /** Slots may be granted their bus; they keep bus and owner. */
  ghost predicate SameOwners(a: seq<Slot>, b: seq<Slot>) {
    |a| == |b| && forall i :: 0 <= i < |a| ==> b[i].bus == a[i].bus && b[i].owner == a[i].owner && (a[i].state.Active? ==> b[i].state.Active?)
  }

  lemma SlotKnown(s: State, i: nat)
    requires Inv(s) && i < |s.slots| && s.slots[i].bus.Some?
    ensures s.slots[i].bus.value < |s.buses|
  {
    assert SlotOk(s.slots[i], i, s.buses);
  }

  lemma HeadKnown(s: State, b: nat)
    requires Inv(s) && b < |s.buses| && s.buses[b].queue != []
    ensures match s.buses[b].queue[0].node
            case Async(j) => j < |s.jobs|
            case Lock(i) => i < |s.slots|
  {
    var q := s.buses[b].queue;
    assert BusOk(s.buses[b], b, s.jobs, s.slots, s.clock);
    assert Has(q, q[0].node);
    assert NodeOk(q[0].node, b, s.jobs, s.slots);
  }
}
