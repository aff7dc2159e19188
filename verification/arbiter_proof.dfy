/** The arbiter's guarantees: one user of the bus at a time, no idle bus with work queued, service in
    order of priority and arrival, and no job lost. */
module ArbiterProof {
  import opened Lists
  import opened ArbiterModel

  // --- The queue ------------------------------------------------------------------------------------

  lemma EnqueuedHas(q: seq<Entry>, e: Entry, n: Node)
    ensures Has(Enqueued(q, e), n) <==> Has(q, n) || e.node == n
  {
    var r := Enqueued(q, e);
    assert forall y :: y in r <==> y in q || y == e by { InsertMembers(q, ByUrgency(), e); }
    hide Enqueued;
    if Has(q, n) {
      var i :| 0 <= i < |q| && q[i].node == n;
      assert q[i] in r;
      var k :| 0 <= k < |r| && r[k] == q[i];
    }
    if e.node == n {
      assert e in r;
      var k :| 0 <= k < |r| && r[k] == e;
    }
    if Has(r, n) && e.node != n {
      var k :| 0 <= k < |r| && r[k].node == n;
      assert r[k] in q;
      var i :| 0 <= i < |q| && q[i] == r[k];
    }
  }

  lemma EnqueuedDistinct(q: seq<Entry>, e: Entry)
    requires NodesDistinct(q) && !Has(q, e.node)
    ensures NodesDistinct(Enqueued(q, e))
  {
    var k := Ahead(q, ByUrgency(), e.prio);
    var r := Enqueued(q, e);
    hide Ahead;
    forall i, j | 0 <= i < j < |r| ensures r[i].node != r[j].node {
      assert r[i] == if i < k then q[i] else if i == k then e else q[i - 1];
      assert r[j] == if j < k then q[j] else if j == k then e else q[j - 1];
    }
  }

  /** The newcomer goes behind everybody of its own priority. */
  lemma EnqueuedSorted(q: seq<Entry>, e: Entry)
    requires Sorted(q) && forall i :: 0 <= i < |q| ==> q[i].stamp < e.stamp
    ensures Sorted(Enqueued(q, e))
  {
    var k := Ahead(q, ByUrgency(), e.prio);
    var r := Enqueued(q, e);
    hide Ahead;
    forall i, j | 0 <= i < j < |r| ensures Before(r[i], r[j]) {
      assert r[i] == if i < k then q[i] else if i == k then e else q[i - 1];
      assert r[j] == if j < k then q[j] else if j == k then e else q[j - 1];
      if k < |q| && i == k && j > k { assert j - 1 == k || Before(q[k], q[j - 1]); }
    }
  }

  lemma EnqueuedStamps(q: seq<Entry>, e: Entry)
    requires forall i :: 0 <= i < |q| ==> q[i].stamp < e.stamp
    ensures forall i :: 0 <= i < |Enqueued(q, e)| ==> Enqueued(q, e)[i].stamp <= e.stamp
    ensures Enqueued(q, e) != []
  {
    hide Ahead;
  }

  /** r is q with e put in behind everybody at least as urgent and in front of everybody less urgent. */
  ghost predicate Lined(q: seq<Entry>, r: seq<Entry>, e: Entry) {
    exists k: nat :: k <= |q| && r == q[..k] + [e] + q[k..]
      && (forall i :: 0 <= i < k ==> q[i].prio >= e.prio) && (forall i :: k <= i < |q| ==> q[i].prio < e.prio)
  }

  lemma EnqueuedLines(q: seq<Entry>, e: Entry)
    requires Sorted(q)
    ensures Lined(q, Enqueued(q, e), e)
  {
    var k := Ahead(q, ByUrgency(), e.prio);
    forall i | 0 <= i < k ensures q[i].prio >= e.prio { assert ByUrgency()(q[i]) >= e.prio; }
    forall i | k <= i < |q| ensures q[i].prio < e.prio { assert ByUrgency()(q[k]) < e.prio; }
  }

  lemma {:induction false} WithoutOk(q: seq<Entry>, n: Node)
    requires NodesDistinct(q) && Sorted(q)
    ensures NodesDistinct(Without(q, n)) && Sorted(Without(q, n)) && !Has(Without(q, n), n)
    ensures forall m :: Has(Without(q, n), m) <==> Has(q, m) && m != n
    ensures forall e :: e in Without(q, n) ==> e in q
  {
    var i := Find(q, Of(n));
    if i < |q| { CutOk(q, i); } else { NotThere(q, n); }
  }

  lemma NotThere(q: seq<Entry>, n: Node)
    requires Find(q, Of(n)) == |q|
    ensures !Has(q, n) && Without(q, n) == q
  {
    forall k | 0 <= k < |q| ensures q[k].node != n { assert !Of(n)(q[k]); }
  }

  lemma CutOk(q: seq<Entry>, i: nat)
    requires NodesDistinct(q) && Sorted(q) && i < |q|
    ensures var r := Cut(q, i);
      && NodesDistinct(r) && Sorted(r) && (forall e :: e in r ==> e in q)
      && forall m :: Has(r, m) <==> Has(q, m) && m != q[i].node
  {
    var r := Cut(q, i);
    hide Sorted;
    assert Sorted(r) by { CutSorted(q, i); }
    forall m | Has(q, m) && m != q[i].node ensures Has(r, m) {
      var k :| 0 <= k < |q| && q[k].node == m;
      assert r[if k < i then k else k - 1].node == m;
    }
    forall k | 0 <= k < |r| ensures r[k] in q && r[k].node != q[i].node { assert r[k] == q[if k < i then k else k + 1]; }
  }

  lemma CutSorted(q: seq<Entry>, i: nat)
    requires Sorted(q) && i < |q|
    ensures Sorted(Cut(q, i))
  {
  }

  lemma ConsHas(e: Entry, q: seq<Entry>, m: Node)
    ensures Has([e] + q, m) <==> Has(q, m) || e.node == m
  {
    var r := [e] + q;
    if e.node == m { assert r[0].node == m; }
    if Has(q, m) {
      var i :| 0 <= i < |q| && q[i].node == m;
      assert r[i + 1].node == m;
    }
    if Has(r, m) && e.node != m {
      var i :| 0 <= i < |r| && r[i].node == m;
      assert q[i - 1].node == m;
    }
  }

  // --- The invariant --------------------------------------------------------------------------------

  ghost predicate QueueOk(q: seq<Entry>, clock: nat) {
    NodesDistinct(q) && Sorted(q) && forall i :: 0 <= i < |q| ==> q[i].stamp < clock
  }

  /** A node of bus b's queue, and what it stands for. */
  ghost predicate NodeOk(n: Node, b: nat, jobs: seq<Job>, slots: seq<Slot>) {
    match n
    case Async(j) => j < |jobs| && jobs[j] == Job(Queued, b)
    case Lock(i) => i < |slots| && slots[i].bus == Some(b) && slots[i].state.Queued?
  }

  /** One bus: an async job and a lock holder are never on it together; without a dispatch to come,
      it is idle only if nothing is queued. */
  ghost predicate BusOk(x: Bus, b: nat, jobs: seq<Job>, slots: seq<Slot>, clock: nat) {
    && QueueOk(x.queue, clock)
    && !(x.active.Some? && x.locked) && (x.locked <==> x.holder.Some?)
    && (x.pending == 0 ==> x.queue == [] || x.active.Some? || x.locked)
    && (x.active.Some? ==> x.active.value < |jobs| && jobs[x.active.value] == Job(Active, b))
    && (x.holder.Some? ==> x.holder.value < |slots| && slots[x.holder.value].bus == Some(b) && slots[x.holder.value].state.Active?)
    && (forall n :: Has(x.queue, n) ==> NodeOk(n, b, jobs, slots))
  }

  ghost predicate JobOk(x: Job, j: nat, buses: seq<Bus>) {
    && (x.state.Queued? ==> x.bus < |buses| && Has(buses[x.bus].queue, Async(j)))
    && (x.state.Active? ==> x.bus < |buses| && buses[x.bus].active == Some(j))
  }

  ghost predicate SlotOk(x: Slot, i: nat, buses: seq<Bus>) {
    && (x.bus.None? ==> x.state.Idle?)
    && (x.bus.Some? ==> x.bus.value < |buses|)
    && (x.state.Queued? ==> Has(buses[x.bus.value].queue, Lock(i)))
    && (x.state.Active? ==> buses[x.bus.value].holder == Some(i))
  }

  ghost predicate Inv(s: State) {
    && (forall b :: 0 <= b < |s.buses| ==> BusOk(s.buses[b], b, s.jobs, s.slots, s.clock))
    && (forall j :: 0 <= j < |s.jobs| ==> JobOk(s.jobs[j], j, s.buses))
    && (forall i :: 0 <= i < |s.slots| ==> SlotOk(s.slots[i], i, s.buses))
  }

  // --- Steps keep it --------------------------------------------------------------------------------

  /** Bus b changes along with some jobs and slots; what other buses rely on is left alone. */
  lemma OneBus(s: State, r: State, b: nat)
    requires Inv(s) && b < |s.buses| && |r.buses| == |s.buses| && |r.jobs| == |s.jobs| && |r.slots| == |s.slots| && r.clock >= s.clock
    requires forall c :: 0 <= c < |s.buses| && c != b ==> r.buses[c] == s.buses[c]
    requires BusOk(r.buses[b], b, r.jobs, r.slots, r.clock)
    requires forall j :: 0 <= j < |s.jobs| ==> JobOk(r.jobs[j], j, r.buses) && (r.jobs[j] == s.jobs[j] || s.jobs[j].state.Idle? || s.jobs[j].bus == b)
    requires forall i :: 0 <= i < |s.slots| ==> SlotOk(r.slots[i], i, r.buses) && (r.slots[i] == s.slots[i] || s.slots[i].state.Idle? || s.slots[i].bus == Some(b))
    ensures Inv(r)
  {
    forall c | 0 <= c < |r.buses| ensures BusOk(r.buses[c], c, r.jobs, r.slots, r.clock) {
      if c != b {
        assert BusOk(s.buses[c], c, s.jobs, s.slots, s.clock);
        forall n | Has(r.buses[c].queue, n) ensures NodeOk(n, c, r.jobs, r.slots) {
          assert NodeOk(n, c, s.jobs, s.slots);
        }
      }
    }
  }

  /** A queue that grew by e. */
  lemma QueuedMore(q: seq<Entry>, e: Entry)
    requires QueueOk(q, e.stamp) && !Has(q, e.node)
    ensures QueueOk(Enqueued(q, e), e.stamp + 1) && Enqueued(q, e) != []
    ensures forall n :: Has(Enqueued(q, e), n) <==> Has(q, n) || e.node == n
  {
    EnqueuedDistinct(q, e);
    EnqueuedSorted(q, e);
    EnqueuedStamps(q, e);
    forall n ensures Has(Enqueued(q, e), n) <==> Has(q, n) || e.node == n { EnqueuedHas(q, e, n); }
  }

  lemma SubmitInv(s: State, b: nat, j: nat, prio: nat)
    requires Inv(s)
    ensures Inv(Submit(s, b, j, prio))
  {
    var r := Submit(s, b, j, prio);
    if b < |s.buses| && j < |s.jobs| && s.jobs[j].state.Idle? {
      var x := s.buses[b];
      assert BusOk(x, b, s.jobs, s.slots, s.clock);
      assert !Has(x.queue, Async(j)) by { assert Has(x.queue, Async(j)) ==> NodeOk(Async(j), b, s.jobs, s.slots); }
      QueuedMore(x.queue, Entry(Async(j), prio, s.clock));
      hide Enqueued, QueueOk, Has;
      forall n | Has(r.buses[b].queue, n) ensures NodeOk(n, b, r.jobs, r.slots) { assert n != Async(j) ==> NodeOk(n, b, s.jobs, s.slots); }
      forall k | 0 <= k < |s.jobs| ensures JobOk(r.jobs[k], k, r.buses) { assert JobOk(s.jobs[k], k, s.buses); }
      forall i | 0 <= i < |s.slots| ensures SlotOk(r.slots[i], i, r.buses) { assert SlotOk(s.slots[i], i, s.buses); }
      OneBus(s, r, b);
    }
  }

  lemma RequestInv(s: State, i: nat, prio: nat)
    requires Inv(s)
    ensures Inv(Request(s, i, prio))
  {
    var r := Request(s, i, prio);
    if i < |s.slots| && s.slots[i].bus.Some? && s.slots[i].bus.value < |s.buses| && s.slots[i].state.Idle? {
      var b := s.slots[i].bus.value;
      var x := s.buses[b];
      assert BusOk(x, b, s.jobs, s.slots, s.clock);
      assert !Has(x.queue, Lock(i)) by { assert Has(x.queue, Lock(i)) ==> NodeOk(Lock(i), b, s.jobs, s.slots); }
      QueuedMore(x.queue, Entry(Lock(i), prio, s.clock));
      hide Enqueued, QueueOk, Has;
      forall n | Has(r.buses[b].queue, n) ensures NodeOk(n, b, r.jobs, r.slots) { assert n != Lock(i) ==> NodeOk(n, b, s.jobs, s.slots); }
      forall k | 0 <= k < |s.jobs| ensures JobOk(r.jobs[k], k, r.buses) { assert JobOk(s.jobs[k], k, s.buses); }
      forall k | 0 <= k < |s.slots| ensures SlotOk(r.slots[k], k, r.buses) { assert SlotOk(s.slots[k], k, s.buses); }
      OneBus(s, r, b);
    }
  }

  /** Taking the head off a queue. */
  lemma Popped(q: seq<Entry>, clock: nat)
    requires QueueOk(q, clock) && q != []
    ensures QueueOk(q[1..], clock) && Has(q, q[0].node) && !Has(q[1..], q[0].node)
    ensures forall n :: Has(q, n) <==> Has(q[1..], n) || n == q[0].node
    ensures forall i :: 1 <= i < |q| ==> Before(q[0], q[i])
  {
    assert q == [q[0]] + q[1..];
    forall n ensures Has(q, n) <==> Has(q[1..], n) || n == q[0].node { ConsHas(q[0], q[1..], n); }
  }

  lemma DispatchInv(s: State, b: nat)
    requires Inv(s)
    ensures Inv(Dispatch(s, b))
  {
    var r := Dispatch(s, b);
    if b < |s.buses| && s.buses[b].pending > 0 {
      var x := s.buses[b];
      assert BusOk(x, b, s.jobs, s.slots, s.clock);
      if !(x.active.Some? || x.locked || x.queue == []) {
        Popped(x.queue, s.clock);
        assert NodeOk(x.queue[0].node, b, s.jobs, s.slots);
      }
      hide QueueOk, Has;
      forall n | Has(r.buses[b].queue, n) ensures NodeOk(n, b, r.jobs, r.slots) { assert NodeOk(n, b, s.jobs, s.slots); }
      forall k | 0 <= k < |s.jobs| ensures JobOk(r.jobs[k], k, r.buses) { assert JobOk(s.jobs[k], k, s.buses); }
      forall k | 0 <= k < |s.slots| ensures SlotOk(r.slots[k], k, r.buses) { assert SlotOk(s.slots[k], k, s.buses); }
      OneBus(s, r, b);
    }
  }

  lemma ReleaseInv(s: State, b: nat)
    requires Inv(s)
    ensures Inv(Release(s, b)) && Inv(Stray(s, b))
  {
    if b < |s.buses| {
      var x := s.buses[b];
      assert BusOk(x, b, s.jobs, s.slots, s.clock);
      hide QueueOk, Has;
      forall r | (r == Release(s, b) && x.active.Some?) || (r == Stray(s, b) && x.active.None?) ensures Inv(r) {
        forall n | Has(r.buses[b].queue, n) ensures NodeOk(n, b, r.jobs, r.slots) { assert NodeOk(n, b, s.jobs, s.slots); }
        forall k | 0 <= k < |s.jobs| ensures JobOk(r.jobs[k], k, r.buses) { assert JobOk(s.jobs[k], k, s.buses); }
        forall k | 0 <= k < |s.slots| ensures SlotOk(r.slots[k], k, r.buses) { assert SlotOk(s.slots[k], k, s.buses); }
        OneBus(s, r, b);
      }
    }
  }

  lemma ClaimInv(s: State, b: nat, i: nat, t: Task)
    requires Inv(s)
    ensures Inv(Claim(s, b, i, t))
  {
    var r := Claim(s, b, i, t);
    if b < |s.buses| && i < |s.slots| && s.slots[i].bus.None? {
      assert SlotOk(s.slots[i], i, s.buses);
      hide QueueOk, Has;
      assert BusOk(s.buses[b], b, s.jobs, s.slots, s.clock);
      forall n | Has(r.buses[b].queue, n) ensures NodeOk(n, b, r.jobs, r.slots) { assert NodeOk(n, b, s.jobs, s.slots); }
      forall k | 0 <= k < |s.jobs| ensures JobOk(r.jobs[k], k, r.buses) { assert JobOk(s.jobs[k], k, s.buses); }
      forall k | 0 <= k < |s.slots| ensures SlotOk(r.slots[k], k, r.buses) { assert SlotOk(s.slots[k], k, s.buses); }
      OneBus(s, r, b);
    }
  }

  /** A slot that gives up its place on the queue or its bus. */
  lemma DropInv(s: State, i: nat)
    requires Inv(s)
    ensures Inv(Drop(s, i))
  {
    var r := Drop(s, i);
    if i < |s.slots| && s.slots[i].bus.Some? && s.slots[i].bus.value < |s.buses| {
      var b := s.slots[i].bus.value;
      var x := s.buses[b];
      assert BusOk(x, b, s.jobs, s.slots, s.clock) && SlotOk(s.slots[i], i, s.buses);
      Unqueued(x.queue, s.clock, Lock(i));
      assert !s.slots[i].state.Queued? ==> !Has(x.queue, Lock(i)) by { assert Has(x.queue, Lock(i)) ==> NodeOk(Lock(i), b, s.jobs, s.slots); }
      hide QueueOk, Has, Without;
      forall n | Has(r.buses[b].queue, n) ensures NodeOk(n, b, r.jobs, r.slots) { assert NodeOk(n, b, s.jobs, s.slots); }
      forall k | 0 <= k < |s.jobs| ensures JobOk(r.jobs[k], k, r.buses) { assert JobOk(s.jobs[k], k, s.buses); }
      forall k | 0 <= k < |s.slots| ensures SlotOk(r.slots[k], k, r.buses) { assert SlotOk(s.slots[k], k, s.buses); }
      OneBus(s, r, b);
    }
  }

  lemma Unqueued(q: seq<Entry>, clock: nat, n: Node)
    requires QueueOk(q, clock)
    ensures QueueOk(Without(q, n), clock) && (q == [] ==> Without(q, n) == [])
    ensures forall m :: Has(Without(q, n), m) <==> Has(q, m) && m != n
  {
    WithoutOk(q, n);
    forall i | 0 <= i < |Without(q, n)| ensures Without(q, n)[i].stamp < clock { assert Without(q, n)[i] in q; }
  }

  lemma TimeoutInv(s: State, i: nat)
    requires Inv(s)
    ensures Inv(Timeout(s, i))
  {
    if i < |s.slots| && s.slots[i].state.Queued? && s.slots[i].bus.Some? && s.slots[i].bus.value < |s.buses| {
      DropInv(s, i);
      assert Timeout(s, i) == Drop(s, i);
    }
  }

  lemma StepInv(s: State, op: Op)
    requires Inv(s)
    ensures Inv(Apply(s, op))
  {
    match op
    case SubmitOp(b, j, prio) => SubmitInv(s, b, j, prio);
    case DispatchOp(b) => DispatchInv(s, b);
    case ReleaseOp(b) => ReleaseInv(s, b);
    case StrayOp(b) => ReleaseInv(s, b);
    case ClaimOp(b, i, t) => ClaimInv(s, b, i, t);
    case RequestOp(i, prio) => RequestInv(s, i, prio);
    case TimeoutOp(i) => TimeoutInv(s, i);
    case UnlockOp(i, t) => DropInv(s, i);
    case TeardownOp(i, t) => DropInv(s, i);
  }

  /** What is on the bus is done and its job can be submitted again; the bus is to be dispatched. */
  lemma ReleaseFrees(s: State, b: nat)
    requires Inv(s) && b < |s.buses| && s.buses[b].active.Some?
    ensures var r := Release(s, b); var x, y, j := s.buses[b], r.buses[b], s.buses[b].active.value;
      && |r.buses| == |s.buses| && y.active.None? && y.pending == x.pending + 1 && y.dones == x.dones + 1
      && y.queue == x.queue && y.locked == x.locked && y.submits == x.submits
      && j < |s.jobs| && |r.jobs| == |s.jobs| && r.jobs[j].state.Idle? && r.slots == s.slots
  {
    assert BusOk(s.buses[b], b, s.jobs, s.slots, s.clock);
  }

  /** An interrupt with nothing on the bus only has it dispatched. */
  lemma StrayDispatches(s: State, b: nat)
    requires b < |s.buses| && s.buses[b].active.None?
    ensures |Stray(s, b).buses| == |s.buses| && Stray(s, b).buses[b].pending == s.buses[b].pending + 1 && Stray(s, b).buses[b].queue == s.buses[b].queue
  {
  }

  lemma {:induction false} RunsKeepInv(n: nat, jobs: nat, slots: nat, ops: seq<Op>)
    ensures Inv(Run(n, jobs, slots, ops))
  {
    if ops != [] {
      RunsKeepInv(n, jobs, slots, ops[..|ops| - 1]);
      StepInv(Run(n, jobs, slots, ops[..|ops| - 1]), ops[|ops| - 1]);
    }
  }
}
