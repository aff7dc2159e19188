/** Counting semaphores (kernel/ipc.c, kernel/task.c): takes that block, gives that hand over, waits
    that time out, and tasks that die waiting. */
module SemaphoreModel {
  import opened Lists
  import opened WaitQueue

  /** What became of one blocking take. */
  datatype Fate = Waiting | Granted | TimedOut | TornDown

  /** A task: running, parked in take number `id`, woken from it but not running again yet, or gone. */
  datatype Phase = Running | Parked(id: nat) | Woken(id: nat) | Dead

  /** What a blocking take returned when its task ran again. */
  datatype Result = Result(id: nat, pass: bool)

  /** `waitSem` is the wait_sem field of each task (set or not). History: `init` tokens to start with,
      gives accepted and takes granted so far, and for every blocking take whose it was and what came
      of it. */
  datatype State = State(
    prio: Prios, count: nat, limit: nat, queue: seq<Task>, phase: seq<Phase>, waitSem: seq<bool>,
    init: nat, gives: nat, grants: nat, who: seq<Task>, fate: seq<Fate>, results: seq<Result>)

  datatype Op = Take(t: Task, wait: bool) | Give | Timeout(t: Task) | Resume(t: Task) | Kill(t: Task)

  // --- The invariant --------------------------------------------------------------------------------

  ghost predicate TaskOk(s: State, t: Task)
    requires |s.phase| == |s.waitSem| && t < |s.phase|
  {
    match s.phase[t]
    case Running => !s.waitSem[t] && t !in s.queue
    case Dead => t !in s.queue
    case Parked(id) => s.waitSem[t] && t in s.queue && id < |s.fate| == |s.who| && s.fate[id].Waiting? && s.who[id] == t
    case Woken(id) =>
      && t !in s.queue && id < |s.fate| == |s.who| && s.who[id] == t && (s.fate[id].Granted? || s.fate[id].TimedOut?)
      && (s.waitSem[t] <==> s.fate[id].TimedOut?)
  }

  ghost predicate Inv(s: State) {
    && |s.phase| == |s.waitSem| == |s.prio| && |s.who| == |s.fate|
    && s.count <= s.limit && (s.queue != [] ==> s.count == 0)
    && s.init + s.gives == s.count + s.grants
    && Distinct(s.queue) && Known(s.queue, s.prio)
    && (forall t :: 0 <= t < |s.phase| ==> TaskOk(s, t))
    && (forall i :: 0 <= i < |s.queue| ==> s.queue[i] < |s.phase| && s.phase[s.queue[i]].Parked?)
    && (forall id :: 0 <= id < |s.fate| && s.fate[id].Waiting? ==> s.who[id] < |s.phase| && s.phase[s.who[id]] == Parked(id))
    && (forall k :: 0 <= k < |s.results| ==> ResultOk(s, s.results[k]))
  }

  /** A take that returned: it passed exactly when it was granted. */
  ghost predicate ResultOk(s: State, r: Result) {
    r.id < |s.fate| && !s.fate[r.id].Waiting? && (r.pass <==> s.fate[r.id].Granted?)
  }

  // --- Operations -----------------------------------------------------------------------------------

  /** semaphore_take_common up to the point where the task runs or sleeps. */
  ghost function TakeStep(s: State, t: Task, wait: bool): State
    requires Inv(s)
  {
    if t >= |s.phase| || !s.phase[t].Running? then s
    else if s.count > 0 then s.(count := s.count - 1, grants := s.grants + 1)
    else if !wait then s
    else s.(queue := Enqueued(s.queue, s.prio, t), waitSem := s.waitSem[t := true],
            phase := s.phase[t := Parked(|s.fate|)], fate := s.fate + [Waiting], who := s.who + [t])
  }

  /** semaphore_give_common: the first waiter gets the token, or it is banked, or there are too many. */
  ghost function GiveStep(s: State): State
    requires Inv(s)
  {
    if s.queue != [] then
      var w := s.queue[0];
      var id := s.phase[w].id;
      s.(queue := s.queue[1..], waitSem := s.waitSem[w := false], phase := s.phase[w := Woken(id)],
         fate := if id < |s.fate| then s.fate[id := Granted] else s.fate, gives := s.gives + 1, grants := s.grants + 1)
    else if s.count >= s.limit then s
    else s.(count := s.count + 1, gives := s.gives + 1)
  }

  /** The tick interrupt ejects a waiter; wait_sem stays set for the take to see. */
  ghost function TimeoutStep(s: State, t: Task): State
    requires Inv(s)
  {
    if t < |s.phase| && s.phase[t].Parked? && s.phase[t].id < |s.fate| then
      s.(queue := Without(s.queue, t), phase := s.phase[t := Woken(s.phase[t].id)], fate := s.fate[s.phase[t].id := TimedOut])
    else s
  }

  /** The rest of semaphore_take_common: a wait_sem still set means the wait timed out. */
  ghost function ResumeStep(s: State, t: Task): State
    requires Inv(s)
  {
    if t < |s.phase| && s.phase[t].Woken? then
      s.(phase := s.phase[t := Running], waitSem := s.waitSem[t := false],
         results := s.results + [Result(s.phase[t].id, !s.waitSem[t])])
    else s
  }

  /** v_ipc_task_teardown, the semaphore part. */
  ghost function KillStep(s: State, t: Task): State
    requires Inv(s)
  {
    if t >= |s.phase| then s
    else if s.phase[t].Parked? && s.phase[t].id < |s.fate| then
      s.(queue := Without(s.queue, t), waitSem := s.waitSem[t := false], phase := s.phase[t := Dead],
         fate := s.fate[s.phase[t].id := TornDown])
    else s.(waitSem := s.waitSem[t := false], phase := s.phase[t := Dead])
  }

  ghost function Apply(s: State, op: Op): State
    requires Inv(s)
  {
    match op
    case Take(t, wait) => TakeStep(s, t, wait)
    case Give => GiveStep(s)
    case Timeout(t) => TimeoutStep(s, t)
    case Resume(t) => ResumeStep(s, t)
    case Kill(t) => KillStep(s, t)
  }

  // --- Every step keeps it --------------------------------------------------------------------------

  lemma TakeInv(s: State, t: Task, wait: bool)
    requires Inv(s)
    ensures Inv(TakeStep(s, t, wait))
  {
    var r := TakeStep(s, t, wait);
    if t < |s.phase| && s.phase[t].Running? && s.count == 0 && wait {
      EnqueuedMembers(s.queue, s.prio, t);
      ParkInv(s, t, Enqueued(s.queue, s.prio, t));
    } else {
      forall u | 0 <= u < |r.phase| ensures TaskOk(r, u) { assert TaskOk(s, u); }
      forall k | 0 <= k < |r.results| ensures ResultOk(r, r.results[k]) { assert ResultOk(s, s.results[k]); }
    }
  }

  lemma ParkInv(s: State, t: Task, q: seq<Task>)
    requires Inv(s) && t < |s.phase| && s.phase[t].Running? && s.count == 0
    requires (forall x :: x in q <==> x in s.queue || x == t) && Known(q, s.prio) && (t !in s.queue ==> Distinct(q))
    ensures Inv(s.(queue := q, waitSem := s.waitSem[t := true], phase := s.phase[t := Parked(|s.fate|)],
                   fate := s.fate + [Waiting], who := s.who + [t]))
  {
    var r := s.(queue := q, waitSem := s.waitSem[t := true], phase := s.phase[t := Parked(|s.fate|)],
                fate := s.fate + [Waiting], who := s.who + [t]);
    assert TaskOk(s, t);
    forall u | 0 <= u < |r.phase| ensures TaskOk(r, u) { assert TaskOk(s, u); }
    forall i | 0 <= i < |q| ensures q[i] < |r.phase| && r.phase[q[i]].Parked? { assert q[i] in q; }
    forall k | 0 <= k < |r.results| ensures ResultOk(r, r.results[k]) { assert ResultOk(s, s.results[k]); }
  }

  lemma GiveInv(s: State)
    requires Inv(s)
    ensures Inv(GiveStep(s))
  {
    var r := GiveStep(s);
    if s.queue != [] {
      var q, w := s.queue, s.queue[0];
      assert TaskOk(s, w) && s.phase[w].Parked?;
      assert q == [w] + q[1..] && w !in q[1..];
      forall u | 0 <= u < |r.phase| ensures TaskOk(r, u) { assert TaskOk(s, u); }
      forall i | 0 <= i < |r.queue| ensures r.queue[i] < |r.phase| && r.phase[r.queue[i]].Parked? { assert r.queue[i] == q[i + 1] != w; }
    } else {
      forall u | 0 <= u < |r.phase| ensures TaskOk(r, u) { assert TaskOk(s, u); }
    }
    forall k | 0 <= k < |r.results| ensures ResultOk(r, r.results[k]) { assert ResultOk(s, s.results[k]); }
  }

  /** A parked task leaves the queue, with this fate. */
  lemma LeaveInv(s: State, t: Task, r: State)
    requires Inv(s) && t < |s.phase| && s.phase[t].Parked? && s.phase[t].id < |s.fate|
    requires r == TimeoutStep(s, t) || r == KillStep(s, t)
    ensures Inv(r)
  {
    assert TaskOk(s, t);
    forall x ensures x in r.queue <==> x in s.queue && x != t { WithoutMembers(s.queue, t, x); }
    WithoutMembers(s.queue, t, t);
    forall i | 0 <= i < |r.queue| ensures r.queue[i] < |r.phase| && r.phase[r.queue[i]].Parked? {
      assert r.queue[i] in r.queue;
      var j :| 0 <= j < |s.queue| && s.queue[j] == r.queue[i];
    }
    forall u | 0 <= u < |r.phase| ensures TaskOk(r, u) { assert TaskOk(s, u); }
    forall k | 0 <= k < |r.results| ensures ResultOk(r, r.results[k]) { assert ResultOk(s, s.results[k]); }
  }

  lemma StepInv(s: State, op: Op)
    requires Inv(s)
    ensures Inv(Apply(s, op))
  {
    match op
    case Take(t, wait) => TakeInv(s, t, wait);
    case Give => GiveInv(s);
    case Timeout(t) => if t < |s.phase| && s.phase[t].Parked? && s.phase[t].id < |s.fate| { LeaveInv(s, t, TimeoutStep(s, t)); }
    case Resume(t) => ResumeInv(s, t);
    case Kill(t) => KillInv(s, t);
  }

  lemma ResumeInv(s: State, t: Task)
    requires Inv(s)
    ensures Inv(ResumeStep(s, t))
  {
    var r := ResumeStep(s, t);
    if t < |s.phase| && s.phase[t].Woken? {
      assert TaskOk(s, t);
      forall u | 0 <= u < |r.phase| ensures TaskOk(r, u) { assert TaskOk(s, u); }
      forall k | 0 <= k < |r.results| ensures ResultOk(r, r.results[k]) { if k < |s.results| { assert ResultOk(s, s.results[k]); } }
    }
  }

  lemma KillInv(s: State, t: Task)
    requires Inv(s)
    ensures Inv(KillStep(s, t))
  {
    if t < |s.phase| {
      assert TaskOk(s, t);
      if s.phase[t].Parked? {
        LeaveInv(s, t, KillStep(s, t));
      } else {
        var r := KillStep(s, t);
        forall u | 0 <= u < |r.phase| ensures TaskOk(r, u) { assert TaskOk(s, u); }
        forall k | 0 <= k < |r.results| ensures ResultOk(r, r.results[k]) { assert ResultOk(s, s.results[k]); }
        forall i | 0 <= i < |r.queue| ensures r.phase[r.queue[i]].Parked? { assert r.queue[i] in s.queue; }
      }
    }
  }

  // --- Every run --------------------------------------------------------------------------------------

  ghost function Init(prio: Prios, limit: nat, initial: nat): State {
    State(prio, initial, limit, [], seq(|prio|, i => Running), seq(|prio|, i => false), initial, 0, 0, [], [], [])
  }

  ghost function Run(prio: Prios, limit: nat, initial: nat, ops: seq<Op>): (s: State)
    requires initial <= limit
    ensures Inv(s)
    decreases |ops|
  {
    if ops == [] then Init(prio, limit, initial)
    else
      var r := Run(prio, limit, initial, ops[..|ops| - 1]);
      StepInv(r, ops[|ops| - 1]);
      Apply(r, ops[|ops| - 1])
  }

  /** Once decided, the fate of a blocking take never changes, so each gets exactly one of a grant, a
      timeout or a teardown. */
  lemma {:induction false} FateOnce(s: State, op: Op, id: nat)
    requires Inv(s) && id < |s.fate|
    ensures id < |Apply(s, op).fate| && Apply(s, op).who[id] == s.who[id]
    ensures !s.fate[id].Waiting? ==> Apply(s, op).fate[id] == s.fate[id]
    ensures s.fate[id].Waiting? && !Apply(s, op).fate[id].Waiting? ==>
      if op.Give? then Apply(s, op).fate[id].Granted?
      else if op.Timeout? then Apply(s, op).fate[id].TimedOut? && op.t == s.who[id]
      else op.Kill? && Apply(s, op).fate[id].TornDown? && op.t == s.who[id]
  {
    StepInv(s, op);
    match op
    case Give => if s.queue != [] { assert TaskOk(s, s.queue[0]); }
    case Timeout(t) => if t < |s.phase| { assert TaskOk(s, t); }
    case Kill(t) => if t < |s.phase| { assert TaskOk(s, t); }
    case _ =>
  }

  /** A task that dies leaves the line, has no wait_sem set, and a take it was waiting in is torn down;
      tokens and everybody else are as they were. */
  lemma {:induction false} DeathLeaves(s: State, t: Task)
    requires Inv(s) && t < |s.phase|
    ensures var r := Apply(s, Kill(t));
      && |r.phase| == |s.phase| && |r.waitSem| == |s.waitSem| && r.phase[t].Dead? && !r.waitSem[t] && r.count == s.count
      && (forall u :: u in r.queue <==> u in s.queue && u != t)
      && (forall u :: 0 <= u < |s.phase| && u != t ==> r.phase[u] == s.phase[u] && r.waitSem[u] == s.waitSem[u])
      && (s.phase[t].Parked? ==> s.phase[t].id < |r.fate| && r.fate[s.phase[t].id].TornDown?)
  {
    assert TaskOk(s, t);
    RemovedMembers(s.queue, t);
  }

  /** Tokens are conserved, the count stays within its limit, nobody waits while there is one, and a
      blocking take returned success exactly when it was granted. */
  lemma {:induction false} SemaphoreSafety(prio: Prios, limit: nat, initial: nat, ops: seq<Op>)
    requires initial <= limit
    ensures var s := Run(prio, limit, initial, ops);
      && s.count <= s.limit && initial + s.gives == s.count + s.grants && (s.queue != [] ==> s.count == 0)
      && (forall k :: 0 <= k < |s.results| ==> ResultOk(s, s.results[k]))
      && (forall id :: 0 <= id < |s.fate| && s.fate[id].Waiting? ==> s.who[id] in s.queue)
  {
    InitialCount(prio, limit, initial, ops);
    var s := Run(prio, limit, initial, ops);
    forall id | 0 <= id < |s.fate| && s.fate[id].Waiting? ensures s.who[id] in s.queue { assert TaskOk(s, s.who[id]); }
  }

  lemma {:induction false} InitialCount(prio: Prios, limit: nat, initial: nat, ops: seq<Op>)
    requires initial <= limit
    ensures Run(prio, limit, initial, ops).init == initial && Run(prio, limit, initial, ops).limit == limit
    decreases |ops|
  {
    hide Inv, Apply;
    if ops != [] {
      InitialCount(prio, limit, initial, ops[..|ops| - 1]);
      SameLimit(Run(prio, limit, initial, ops[..|ops| - 1]), ops[|ops| - 1]);
    }
  }

  lemma SameLimit(s: State, op: Op)
    requires Inv(s)
    ensures Apply(s, op).init == s.init && Apply(s, op).limit == s.limit
  {
    hide Inv, Enqueued, Without;
  }

  /** With priorities fixed the queue is always in order, so a give goes to the most urgent waiter. */
  lemma {:induction false} StepSorted(s: State, op: Op)
    requires Inv(s) && Sorted(s.queue, s.prio)
    ensures Inv(Apply(s, op)) && Apply(s, op).prio == s.prio && Sorted(Apply(s, op).queue, s.prio)
  {
    hide Place, Inv, Sorted, Enqueued, WaitQueue.Without;
    StepInv(s, op);
    InvKnown(s);
    match op
    case Take(t, wait) => if t < |s.prio| { EnqueuedSorted(s.queue, s.prio, t); }
    case Give => TailSorted(s.queue, s.prio);
    case Timeout(t) => WithoutSorted(s.queue, s.prio, t);
    case Resume(t) =>
    case Kill(t) => WithoutSorted(s.queue, s.prio, t);
  }

  lemma InvKnown(s: State)
    requires Inv(s)
    ensures Known(s.queue, s.prio) && |s.phase| == |s.prio|
  {
  }

  lemma TailSorted(q: seq<Task>, prio: Prios)
    requires Known(q, prio) && Sorted(q, prio)
    ensures q != [] ==> Known(q[1..], prio) && Sorted(q[1..], prio)
  {
  }

  // --- In place ---------------------------------------------------------------------------------------

  /** sema_t, with the tasks that use it. */
  class Semaphore {
    var count: nat
    const limit: nat
    var queue: seq<Task>
    var waitSem: seq<bool>
    const prio: Prios
    ghost var s: State

    ghost predicate Valid()
      reads this
    {
      && Inv(s) && count == s.count && limit == s.limit && queue == s.queue && waitSem == s.waitSem && prio == s.prio
      && Known(queue, prio) && |waitSem| == |prio|
    }

    constructor (initial: nat, max: nat, prios: Prios)
      requires initial <= max
      ensures Valid() && s == Init(prios, max, initial)
    {
      count, limit, queue, waitSem, prio := initial, max, [], seq(|prios|, i => false), prios;
      s := Init(prios, max, initial);
    }

    /** Take a token, or fail, or get in line: `blocked` says the task must sleep. */
    method Take(t: Task, wait: bool) returns (ok: bool, blocked: bool)
      requires Valid() && t < |prio| && t < |s.phase| && s.phase[t].Running?
      modifies this
      ensures Valid() && s == Apply(old(s), Op.Take(t, wait))
      ensures ok <==> old(count) > 0
      ensures blocked <==> old(count) == 0 && wait
      ensures ok ==> count == old(count) - 1 && queue == old(queue) && waitSem == old(waitSem) && s.grants == old(s.grants) + 1 && s.fate == old(s.fate)
      ensures blocked ==> count == old(count) && Known(old(queue), prio) && Lined(old(queue), queue, prio, t) && waitSem == old(waitSem)[t := true]
      ensures blocked ==> s.fate == old(s.fate) + [Waiting] && s.who == old(s.who) + [t] && s.phase == old(s.phase)[t := Parked(|old(s.fate)|)]
      ensures !ok && !blocked ==> s == old(s) && count == old(count) && queue == old(queue) && waitSem == old(waitSem)
    {
      hide Inv, Lined;
      EnqueuedLines(queue, prio, t);
      TakeInv(s, t, wait);
      InvKnown(TakeStep(s, t, wait));
      s := TakeStep(s, t, wait);
      if count > 0 {
        count := count - 1;
        return true, false;
      }
      if !wait { return false, false; }
      waitSem := waitSem[t := true];
      queue := Enqueue(queue, prio, t);
      return false, true;
    }

    /** Hand the token to the first in line, or bank it. */
    method Give() returns (ok: bool)
      requires Valid()
      modifies this
      ensures Valid() && s == Apply(old(s), Op.Give)
      ensures ok <==> old(queue) != [] || old(count) < limit
      ensures ok && old(queue) == [] ==> count == old(count) + 1 && queue == [] && waitSem == old(waitSem) && s.fate == old(s.fate)
      ensures ok && old(queue) != [] ==> var w := old(queue)[0];
        && count == old(count) && queue == old(queue)[1..] && w < |prio| && waitSem == old(waitSem)[w := false]
        && exists id: nat :: id < |old(s.fate)| && w < |old(s.phase)| && old(s.phase)[w] == Parked(id) && s.phase == old(s.phase)[w := Woken(id)]
             && s.fate == old(s.fate)[id := Granted]
      ensures ok ==> s.gives == old(s.gives) + 1
      ensures !ok ==> s == old(s) && count == old(count) && queue == old(queue) && waitSem == old(waitSem)
    {
      if queue != [] { assert TaskOk(s, queue[0]); }
      GiveInv(s);
      s := GiveStep(s);
      if queue != [] {
        var w := queue[0];
        queue := queue[1..];
        waitSem := waitSem[w := false];
        return true;
      }
      if count >= limit { return false; }
      count := count + 1;
      return true;
    }

    /** The tick takes a waiter whose time is up out of the line. */
    method Expire(t: Task)
      requires Valid() && t < |s.phase| && s.phase[t].Parked?
      modifies this
      ensures Valid() && s == Apply(old(s), Op.Timeout(t))
      ensures count == old(count) && waitSem == old(waitSem) && waitSem[t] && t !in queue
      ensures forall u :: u in queue <==> u in old(queue) && u != t
      ensures var id := old(s.phase)[t].id; id < |old(s.fate)| && s.fate == old(s.fate)[id := TimedOut] && s.phase == old(s.phase)[t := Woken(id)]
    {
      RemovedMembers(queue, t);
      StepInv(s, Timeout(t));
      assert TaskOk(s, t);
      s := TimeoutStep(s, t);
      queue := Remove(queue, t);
    }

    /** Back from sleep: a grant cleared wait_sem, a timeout did not. */
    method Resume(t: Task) returns (ok: bool)
      requires Valid() && t < |s.phase| && s.phase[t].Woken?
      modifies this
      ensures Valid() && s == Apply(old(s), Op.Resume(t))
      ensures old(s).phase[t].id < |s.fate| && (ok <==> s.fate[old(s).phase[t].id].Granted?)
      ensures ok == !old(waitSem)[t] && waitSem == old(waitSem)[t := false] && count == old(count) && queue == old(queue)
      ensures s.phase == old(s.phase)[t := Running] && s.results == old(s.results) + [Result(old(s.phase)[t].id, ok)]
    {
      ResumeInv(s, t);
      assert TaskOk(s, t);
      ok := !waitSem[t];
      s := ResumeStep(s, t);
      waitSem := waitSem[t := false];
    }
  }
}
