/** What the arbiter promises its users, after any run. */
module ArbiterPromises {
  import opened Lists
  import opened ArbiterModel
  import opened ArbiterProof

  ghost predicate Holds(x: Slot, b: nat) { x.bus == Some(b) && x.state.Active? }

  /** An async job and a lock holder are never on the bus together, two lock holders never are, and
      `locked` says whether there is one. */
  lemma {:induction false} MutualExclusion(n: nat, jobs: nat, slots: nat, ops: seq<Op>, b: nat)
    requires b < |Run(n, jobs, slots, ops).buses|
    ensures var s := Run(n, jobs, slots, ops); var x := s.buses[b];
      && !(x.active.Some? && x.locked)
      && (x.locked <==> exists i :: 0 <= i < |s.slots| && Holds(s.slots[i], b))
      && (forall i, k :: 0 <= i < |s.slots| && 0 <= k < |s.slots| && Holds(s.slots[i], b) && Holds(s.slots[k], b) ==> i == k)
      && (forall j :: 0 <= j < |s.jobs| && s.jobs[j] == Job(Active, b) ==> x.active == Some(j))
  {
    RunsKeepInv(n, jobs, slots, ops);
    var s := Run(n, jobs, slots, ops);
    var x := s.buses[b];
    hide QueueOk, Has;
    assert BusOk(x, b, s.jobs, s.slots, s.clock);
    if x.locked { assert Holds(s.slots[x.holder.value], b); }
    forall i | 0 <= i < |s.slots| && Holds(s.slots[i], b) ensures x.holder == Some(i) { assert SlotOk(s.slots[i], i, s.buses); }
    forall j | 0 <= j < |s.jobs| && s.jobs[j] == Job(Active, b) ensures x.active == Some(j) { assert JobOk(s.jobs[j], j, s.buses); }
  }

  /** Whenever no dispatch is under way, a bus with something queued is in use. */
  lemma {:induction false} WorkConserving(n: nat, jobs: nat, slots: nat, ops: seq<Op>, b: nat)
    requires b < |Run(n, jobs, slots, ops).buses|
    ensures var x := Run(n, jobs, slots, ops).buses[b]; x.pending == 0 && x.queue != [] ==> x.active.Some? || x.locked
  {
    RunsKeepInv(n, jobs, slots, ops);
    var s := Run(n, jobs, slots, ops);
    hide QueueOk, Has;
    assert BusOk(s.buses[b], b, s.jobs, s.slots, s.clock);
  }

  /** A dispatch gives an idle bus to the most urgent entry, of equals to the one queued first, and
      leaves a bus that is in use alone. */
  lemma {:induction false} GrantsInOrder(s: State, b: nat)
    requires Inv(s) && b < |s.buses| && s.buses[b].pending > 0
    ensures var x, y := s.buses[b], Dispatch(s, b).buses[b];
      if x.queue == [] || x.active.Some? || x.locked then y == x.(pending := x.pending - 1)
      else
        && y.queue == x.queue[1..] && (forall i :: 1 <= i < |x.queue| ==> Before(x.queue[0], x.queue[i]))
        && match x.queue[0].node
           case Async(j) => y.active == Some(j) && !y.locked
           case Lock(i) => y.locked && y.holder == Some(i) && y.active.None?
  {
    var x := s.buses[b];
    assert BusOk(x, b, s.jobs, s.slots, s.clock);
    if x.queue != [] {
      Popped(x.queue, s.clock);
      assert NodeOk(x.queue[0].node, b, s.jobs, s.slots);
    }
  }

  // --- No job is lost ---------------------------------------------------------------------------------

  /** Async jobs queued or active on bus b. */
  ghost function InFlight(jobs: seq<Job>, b: nat): nat {
    if jobs == [] then 0 else (if !jobs[0].state.Idle? && jobs[0].bus == b then 1 else 0) + InFlight(jobs[1..], b)
  }

  lemma {:induction false} ChangeJob(jobs: seq<Job>, j: nat, x: Job, b: nat)
    requires j < |jobs|
    ensures InFlight(jobs[j := x], b) + (if !jobs[j].state.Idle? && jobs[j].bus == b then 1 else 0)
         == InFlight(jobs, b) + if !x.state.Idle? && x.bus == b then 1 else 0
  {
    if j == 0 {
      assert jobs[j := x][1..] == jobs[1..];
    } else {
      ChangeJob(jobs[1..], j - 1, x, b);
      assert jobs[j := x][1..] == jobs[1..][j - 1 := x];
    }
  }

  ghost predicate Counted(s: State) {
    forall b :: 0 <= b < |s.buses| ==> s.buses[b].submits == s.buses[b].dones + InFlight(s.jobs, b)
  }

  lemma SameJobs(s: State, r: State)
    requires Counted(s) && r.jobs == s.jobs && |r.buses| == |s.buses|
    requires forall b :: 0 <= b < |s.buses| ==> r.buses[b].submits == s.buses[b].submits && r.buses[b].dones == s.buses[b].dones
    ensures Counted(r)
  {
  }

  lemma SubmitCounts(s: State, b: nat, j: nat, prio: nat)
    requires Counted(s)
    ensures Counted(Submit(s, b, j, prio))
  {
    hide Enqueued;
    var r := Submit(s, b, j, prio);
    if b < |s.buses| && j < |s.jobs| && s.jobs[j].state.Idle? {
      forall c | 0 <= c < |r.buses| ensures r.buses[c].submits == r.buses[c].dones + InFlight(r.jobs, c) {
        ChangeJob(s.jobs, j, Job(Queued, b), c);
      }
    }
  }

  lemma ReleaseCounts(s: State, b: nat)
    requires Counted(s) && Inv(s)
    ensures Counted(Release(s, b))
  {
    var r := Release(s, b);
    if b < |s.buses| && s.buses[b].active.Some? && s.buses[b].active.value < |s.jobs| {
      var j := s.buses[b].active.value;
      assert BusOk(s.buses[b], b, s.jobs, s.slots, s.clock);
      forall c | 0 <= c < |r.buses| ensures r.buses[c].submits == r.buses[c].dones + InFlight(r.jobs, c) {
        ChangeJob(s.jobs, j, r.jobs[j], c);
      }
    }
  }

  lemma DispatchCounts(s: State, b: nat)
    requires Counted(s) && Inv(s)
    ensures Counted(Dispatch(s, b))
  {
    var r := Dispatch(s, b);
    if b < |s.buses| && s.buses[b].pending > 0 {
      var x := s.buses[b];
      assert BusOk(x, b, s.jobs, s.slots, s.clock);
      if x.active.None? && !x.locked && x.queue != [] && x.queue[0].node.Async? {
        Popped(x.queue, s.clock);
        var j := x.queue[0].node.j;
        assert NodeOk(Async(j), b, s.jobs, s.slots);
        forall c | 0 <= c < |r.buses| ensures r.buses[c].submits == r.buses[c].dones + InFlight(r.jobs, c) {
          ChangeJob(s.jobs, j, r.jobs[j], c);
        }
      } else {
        SameJobs(s, r);
      }
    }
  }

  lemma StepCounts(s: State, op: Op)
    requires Counted(s) && Inv(s)
    ensures Counted(Apply(s, op))
  {
    hide Enqueued, Without, Inv, Counted;
    match op
    case SubmitOp(b, j, prio) => SubmitCounts(s, b, j, prio);
    case DispatchOp(b) => DispatchCounts(s, b);
    case ReleaseOp(b) => ReleaseCounts(s, b);
    case _ => SameJobs(s, Apply(s, op));
  }

  /** Every accepted async job is queued, on the bus, or done: exactly one done() per submit. */
  lemma {:induction false} NoJobLost(n: nat, jobs: nat, slots: nat, ops: seq<Op>)
    ensures Counted(Run(n, jobs, slots, ops))
  {
    if ops == [] {
      var s := Init(n, jobs, slots);
      forall b | 0 <= b < |s.buses| ensures InFlight(s.jobs, b) == 0 { NoneInFlight(s.jobs, b); }
    } else {
      NoJobLost(n, jobs, slots, ops[..|ops| - 1]);
      RunsKeepInv(n, jobs, slots, ops[..|ops| - 1]);
      StepCounts(Run(n, jobs, slots, ops[..|ops| - 1]), ops[|ops| - 1]);
    }
  }

  lemma {:induction false} NoneInFlight(jobs: seq<Job>, b: nat)
    requires forall j :: 0 <= j < |jobs| ==> jobs[j].state.Idle?
    ensures InFlight(jobs, b) == 0
  {
    if jobs != [] { NoneInFlight(jobs[1..], b); }
  }
}
