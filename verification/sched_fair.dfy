/** Round robin: a task of the top priority is never overtaken. */
module SchedFair {
  import opened Lists
  import opened SchedModel
  import opened SchedProof
  import opened SchedRuns

  /** Task t is ready at priority p with j tasks ahead of it. */
  ghost predicate Queued(s: State, t: Task, p: nat, j: nat) {
    p < |s.ready| && j < |s.ready[p]| && s.ready[p][j] == t
  }

  ghost predicate NoneAbove(s: State, p: nat) { forall q :: p < q < |s.ready| ==> s.ready[q] == [] }

  /** The running task, if any, is not above p. */
  ghost predicate Below(s: State, p: nat)
    requires Sizes(s)
  {
    s.status[s.current].Running? ==> s.prio[s.current] <= p
  }

  /** Nothing above priority p is ready or running. */
  ghost predicate Top(s: State, p: nat)
    requires Sizes(s)
  {
    NoneAbove(s, p) && Below(s, p)
  }

  /** A step that makes nothing above p ready, and leaves t alone. */
  ghost predicate Calm(s: State, op: Op, t: Task, p: nat)
    requires Sizes(s)
  {
    match op
    case BlockOp => s.current != t
    case GrantOp(u) => u < |s.prio| ==> s.prio[u] <= p
    case UnblockOp(u) => u < |s.prio| ==> s.prio[u] <= p
    case TickOp(n) => forall u :: 0 <= u < |s.prio| && Overdue(s, u, s.now + n) ==> s.prio[u] <= p
    case ExitOp(u) => u != t
    case CreateOp(q) => q <= p
    case PrioOp(u, q) => u != t && q <= p
    case _ => true
  }

  /** A run of calm steps. */
  ghost predicate CalmRun(s: State, ops: seq<Op>, t: Task, p: nat)
    requires Sizes(s)
    decreases |ops|
  {
    ops == [] || (Calm(s, ops[0], t, p) && (StepSizes(s, ops[0]); CalmRun(Apply(s, ops[0]), ops[1..], t, p)))
  }

  function Switches(ops: seq<Op>): nat {
    if ops == [] then 0 else (if ops[0].SwitchOp? then 1 else 0) + Switches(ops[1..])
  }

  /** At some point of the run task t is running. */
  ghost predicate Served(s: State, ops: seq<Op>, t: Task)
    requires Sizes(s)
    decreases |ops|
  {
    || (s.current == t && s.status[t].Running?)
    || (ops != [] && (StepSizes(s, ops[0]); Served(Apply(s, ops[0]), ops[1..], t)))
  }

  // --- The switch -----------------------------------------------------------------------------------------

  /** A switch takes the head of list p: t itself, or somebody ahead of it. */
  lemma SwitchAdvances(s: State, t: Task, p: nat, j: nat)
    requires Law(s) && Queued(s, t, p, j) && Top(s, p)
    ensures Sizes(Switch(s)) && Top(Switch(s), p)
    ensures if j == 0 then Switch(s).current == t && Switch(s).status[t].Running? else Queued(Switch(s), t, p, j - 1)
  {
    SwitchSizes(s);
    RequeueLaw(s);
    RequeueLists(s, t, p, j);
    var s1 := Requeue(s);
    assert Highest(s1.ready, |s1.ready|) == Some(p);
    PopLaw(s1, p);
  }

  lemma RequeueLists(s: State, t: Task, p: nat, j: nat)
    requires Law(s) && Queued(s, t, p, j) && Top(s, p) && Sizes(Requeue(s))
    ensures Queued(Requeue(s), t, p, j) && NoneAbove(Requeue(s), p)
  {
    if s.status[s.current].Running? { PlaceKeeps(s, s.current, Ready, t, p, j); }
  }

  // --- Everything else --------------------------------------------------------------------------------------

  lemma OffKeeps(l: seq<Task>, u: Task, t: Task, j: nat) returns (i: nat)
    requires j < |l| && l[j] == t && u != t
    ensures i <= j && i < |Off(l, u)| && Off(l, u)[i] == t
  {
    i := j;
    if u in l && Where(l, u) < j { i := j - 1; }
  }

  /** Taking somebody else off a list does not move t back. */
  lemma RemoveKeeps(s: State, u: Task, t: Task, p: nat, j: nat) returns (i: nat)
    requires Sizes(s) && u < |s.prio| && u != t && Queued(s, t, p, j) && NoneAbove(s, p)
    ensures Sizes(Remove(s, u)) && i <= j && Queued(Remove(s, u), t, p, i) && NoneAbove(Remove(s, u), p)
  {
    MoveSizes(s, u, Ready);
    i := OffKeeps(s.ready[p], u, t, j);
    var h := HomeOf(s.prio, s.status, u);
    if h != OnReady(p) { i := j; }
    if h.OnReady? && h.p > p { assert Off(s.ready[h.p], u) == []; }
  }

  /** Nor does putting somebody at the end of a list no higher. */
  lemma PlaceKeeps(s: State, u: Task, st: Status, t: Task, p: nat, j: nat)
    requires Sizes(s) && u < |s.prio| && Queued(s, t, p, j) && NoneAbove(s, p) && (st.Ready? ==> s.prio[u] <= p)
    ensures Sizes(Place(s, u, st)) && Queued(Place(s, u, st), t, p, j) && NoneAbove(Place(s, u, st), p)
  {
    MoveSizes(s, u, st);
  }

  lemma MoveKeeps(s: State, u: Task, st: Status, t: Task, p: nat, j: nat) returns (i: nat)
    requires Sizes(s) && u < |s.prio| && u != t && Queued(s, t, p, j) && Top(s, p) && (st.Ready? ==> s.prio[u] <= p) && !st.Running?
    ensures Sizes(Move(s, u, st)) && i <= j && Queued(Move(s, u, st), t, p, i) && Top(Move(s, u, st), p)
  {
    MovedSizes(s, u, st);
    StatusAfter(s, u, st);
    MoveSizes(s, u, st);
    i := RemoveKeeps(s, u, t, p, j);
    PlaceKeeps(Remove(s, u), u, st, t, p, i);
  }

  lemma {:induction false} OfPrioNone(l: seq<Task>, prio: seq<nat>, p: nat)
    requires forall x :: x in l && x < |prio| ==> prio[x] != p
    ensures OfPrio(l, prio, p) == []
  {
    if l != [] { OfPrioNone(l[1..], prio, p); }
  }

  lemma TickKeeps(s: State, n: nat, t: Task, p: nat, j: nat)
    requires Law(s) && Sizes(s) && Queued(s, t, p, j) && Top(s, p) && Calm(s, TickOp(n), t, p)
    ensures Sizes(Tick(s, n)) && Queued(Tick(s, n), t, p, j) && Top(Tick(s, n), p)
  {
    hide LawBut, Tick, WokenBy, Overdue;
    TickExact(s, n);
    var r := Tick(s, n);
    forall q | p < q < |r.ready| ensures r.ready[q] == [] {
      forall x | x in WokenBy(s, n) && x < |s.prio| ensures s.prio[x] != q { assert Overdue(s, x, s.now + n); }
      OfPrioNone(WokenBy(s, n), s.prio, q);
    }
  }

  lemma PrioKeeps(s: State, u: Task, q: nat, t: Task, p: nat, j: nat) returns (i: nat)
    requires Sizes(s) && Queued(s, t, p, j) && Top(s, p) && u != t && q <= p && u < |s.prio| && q < |s.ready|
    ensures Sizes(ChangePrio(s, u, q)) && Top(ChangePrio(s, u, q), p) && i <= j && Queued(ChangePrio(s, u, q), t, p, i)
  {
    i := j;
    if s.status[u].Ready? {
      i := RemoveKeeps(s, u, t, p, j);
      RemoveWaits(s, u);
      var s1 := Remove(s, u);
      var s2 := s1.(prio := s1.prio[u := q]);
      PlaceKeeps(s2, u, Ready, t, p, i);
      StatusAfter(s2, u, Ready);
    }
  }

  lemma ReadyTask(s: State, t: Task, p: nat, j: nat)
    requires Law(s) && Queued(s, t, p, j)
    ensures t < |s.prio| && s.status[t].Ready? && s.prio[t] == p && !Starved(s)
  {
    assert Holds(s.ready[p], s.prio, s.status, OnReady(p), None);
    assert t in s.ready[p];
  }

  lemma ParkKeeps(s: State, d: nat, w: bool, st: Status, t: Task, p: nat, j: nat)
    requires Sizes(s) && Queued(s, t, p, j) && Top(s, p) && !st.Ready? && !st.Running?
    ensures var r := Place(s.(due := s.due[s.current := d], waits := s.waits[s.current := w]), s.current, st);
      Sizes(r) && Top(r, p) && Queued(r, t, p, j)
  {
    var c := s.current;
    var s1 := s.(due := s.due[c := d], waits := s.waits[c := w]);
    PlaceKeeps(s1, c, st, t, p, j);
    StatusAfter(s1, c, st);
    MoveSizes(s1, c, st);
  }

  /** The current task's own calls. */
  lemma OwnKeeps(s: State, op: Op, t: Task, p: nat, j: nat) returns (i: nat)
    requires Law(s) && Sizes(s) && Queued(s, t, p, j) && Top(s, p) && Calm(s, op, t, p)
    requires op.BlockOp? || op.DelayOp? || op.ParkOp? || op.ResumeOp? || op.CollectOp?
    ensures Sizes(Apply(s, op)) && Top(Apply(s, op), p) && i <= j && Queued(Apply(s, op), t, p, i)
  {
    ReadyTask(s, t, p, j);
    hide LawBut, Move, Place, Queued, Top;
    i := j;
    match op
    case BlockOp =>
      i := MoveKeeps(s, s.current, Blocked, t, p, j);
      if Apply(s, op) == s { i := j; }
    case DelayOp(ticks) =>
      assert s.waits[s.current := s.waits[s.current]] == s.waits;
      ParkKeeps(s, s.now + ticks, s.waits[s.current], Delayed, t, p, j);
    case ParkOp(k) => ParkKeeps(s, if k.None? then 0 else s.now + k.value, true, Blocked, t, p, j);
    case ResumeOp => ResumeKeeps(s, t, p, j);
    case CollectOp =>
      if Apply(s, op) != s { i := MoveKeeps(s, FirstEnded(s.blocked, s.status).value, Freed, t, p, j); }
  }

  lemma ResumeKeeps(s: State, t: Task, p: nat, j: nat)
    requires Sizes(s) && Queued(s, t, p, j) && Top(s, p)
    ensures Sizes(Resume(s)) && Queued(Resume(s), t, p, j) && Top(Resume(s), p)
  {
  }

  /** Calls about other tasks. */
  lemma OthersKeep(s: State, op: Op, t: Task, p: nat, j: nat) returns (i: nat)
    requires Law(s) && Sizes(s) && Queued(s, t, p, j) && Top(s, p) && Calm(s, op, t, p)
    requires op.GrantOp? || op.UnblockOp? || op.ExitOp? || op.TickOp? || op.CreateOp? || op.PrioOp?
    ensures Sizes(Apply(s, op)) && Top(Apply(s, op), p) && i <= j && Queued(Apply(s, op), t, p, i)
  {
    ReadyTask(s, t, p, j);
    hide LawBut, Move, Tick, ChangePrio;
    i := j;
    match op
    case GrantOp(u) =>
      if u < |s.prio| && s.status[u].Blocked? { i := MoveKeeps(s.(waits := s.waits[u := false]), u, Ready, t, p, j); }
      if Apply(s, op) == s { i := j; }
    case UnblockOp(u) =>
      if u < |s.prio| && s.status[u].Blocked? { i := MoveKeeps(s, u, Ready, t, p, j); }
      if Apply(s, op) == s { i := j; }
    case ExitOp(u) =>
      if u < |s.prio| { i := MoveKeeps(s.(waits := s.waits[u := false]), u, Terminated, t, p, j); }
      if Apply(s, op) == s { i := j; }
    case TickOp(n) => TickKeeps(s, n, t, p, j);
    case CreateOp(q) => StepSizes(s, op);
    case PrioOp(u, q) => if u < |s.prio| && q < |s.ready| { i := PrioKeeps(s, u, q, t, p, j); }
  }

  /** A ready task of the top priority with j tasks ahead of it runs within j + 1 switches, whatever
      else happens in between, as long as nothing more urgent becomes ready. */
  lemma {:induction false} RoundRobin(s: State, ops: seq<Op>, t: Task, p: nat, j: nat)
    requires Law(s) && Sizes(s) && Queued(s, t, p, j) && Top(s, p) && CalmRun(s, ops, t, p) && Switches(ops) > j
    ensures Served(s, ops, t)
    decreases |ops|
  {
    hide LawBut, Apply, Queued, Top, Calm;
    var op, rest := ops[0], ops[1..];
    ReadyTask(s, t, p, j);
    StepSizes(s, op);
    StepLaw(s, op);
    var r := Apply(s, op);
    if op.SwitchOp? {
      SwitchStep(s, t, p, j);
      if j > 0 { RoundRobin(r, rest, t, p, j - 1); } else { ServedNow(r, rest, t); }
    } else {
      var i;
      if op.BlockOp? || op.DelayOp? || op.ParkOp? || op.ResumeOp? || op.CollectOp? {
        i := OwnKeeps(s, op, t, p, j);
      } else {
        i := OthersKeep(s, op, t, p, j);
      }
      RoundRobin(r, rest, t, p, i);
    }
  }

  lemma SwitchStep(s: State, t: Task, p: nat, j: nat)
    requires Law(s) && Sizes(s) && Queued(s, t, p, j) && Top(s, p)
    ensures var r := Apply(s, SwitchOp);
      && Sizes(r) && Top(r, p)
      && (j == 0 ==> r.current == t && t < |r.status| && r.status[t].Running?) && (j > 0 ==> Queued(r, t, p, j - 1))
  {
    ReadyTask(s, t, p, j);
    SwitchSizes(s);
    SwitchAdvances(s, t, p, j);
  }

  lemma ServedNow(s: State, ops: seq<Op>, t: Task)
    requires Sizes(s) && s.current == t && t < |s.status| && s.status[t].Running?
    ensures Served(s, ops, t)
  {
  }
}
