/** What moving a task means, read off the lists: it is gone from where it was and is where its new status
    says, everybody else stays in place. And how long a task that sleeps or waits is gone. */
module SchedMoves {
  import opened Lists
  import opened SchedModel
  import opened SchedProof
  import opened SchedRuns

  /** l with t put in behind everybody due no later and in front of everybody due later. */
  ghost predicate PutByDue(l: seq<Task>, r: seq<Task>, due: seq<nat>, t: Task) {
    exists k: nat :: k <= |l| && r == l[..k] + [t] + l[k..]
      && (forall i :: 0 <= i < k && l[i] < |due| && t < |due| ==> due[l[i]] <= due[t])
      && (forall i :: k <= i < |l| && l[i] < |due| && t < |due| ==> due[l[i]] > due[t])
  }

  /** Task t got status st and is on the list that goes with it, at the end, or among the sleepers by its
      tick; it is on no other list, and nobody else moved. */
  ghost predicate Moved(s: State, r: State, t: Task, st: Status) {
    && t < |s.status| && r.status == s.status[t := st] && t < |r.prio| && |r.ready| == |s.ready|
    && (forall p :: 0 <= p < |s.ready| ==> r.ready[p] == Off(s.ready[p], t) + (if st.Ready? && p == r.prio[t] then [t] else []))
    && r.blocked == Off(s.blocked, t) + (if st.Blocked? || st.Terminated? then [t] else [])
    && (if st.Delayed? then PutByDue(Off(s.delayed, t), r.delayed, r.due, t) else r.delayed == Off(s.delayed, t))
    && r.now == s.now && r.current == s.current && r.idle == s.idle
  }

  lemma NotOnIt(l: seq<Task>, t: Task)
    requires t !in l
    ensures Off(l, t) == l
  {
  }

  /** Taken off its list, a task is on none. */
  lemma RemoveOff(s: State, t: Task)
    requires Law(s) && t < |s.prio|
    ensures Sizes(s) && |Remove(s, t).ready| == |s.ready| && forall p :: 0 <= p < |s.ready| ==> Remove(s, t).ready[p] == Off(s.ready[p], t)
    ensures Remove(s, t).blocked == Off(s.blocked, t) && Remove(s, t).delayed == Off(s.delayed, t)
  {
    hide Off;
    var h := HomeOf(s.prio, s.status, t);
    forall p | 0 <= p < |s.ready| ensures Remove(s, t).ready[p] == Off(s.ready[p], t) {
      assert Holds(s.ready[p], s.prio, s.status, OnReady(p), None);
      if h != OnReady(p) { NotOnIt(s.ready[p], t); }
    }
    if h != OnBlocked { NotOnIt(s.blocked, t); }
    if h != OnDelayed { NotOnIt(s.delayed, t); }
  }

  /** A running task is on no list as it is. */
  lemma OffNothing(s: State, t: Task)
    requires Law(s) && t < |s.prio| && t < |s.status| && s.status[t].Running?
    ensures Sizes(s) && Remove(s, t) == s
  {
  }

  /** Where a task is does not depend on whether it waits for a semaphore. */
  lemma SameRemove(s: State, r: State, t: Task)
    requires Law(s) && t < |s.prio| && |s.waits| == |r.waits| && r == s.(waits := r.waits)
    ensures Sizes(s) && Sizes(r) && Remove(r, t) == Remove(s, t).(waits := r.waits)
  {
  }

  lemma InsertByDue(l: seq<Task>, due: seq<nat>, t: Task)
    requires Ranked(l, ByDue(due))
    ensures PutByDue(l, Insert(l, ByDue(due), t), due, t)
  {
    hide Ahead;
    InsertRanked(l, ByDue(due), t);
    var k := Ahead(l, ByDue(due), ByDue(due)(t));
    forall i | 0 <= i < k && l[i] < |due| && t < |due| ensures due[l[i]] <= due[t] { assert ByDue(due)(l[i]) >= ByDue(due)(t); }
    forall i | k <= i < |l| && l[i] < |due| && t < |due| ensures due[l[i]] > due[t] { assert ByDue(due)(l[i]) < ByDue(due)(t); }
  }

  /** A task taken off its list, with whatever else was set meanwhile, and put where it belongs. */
  lemma PlaceMoves(s: State, m: State, t: Task, st: Status)
    requires Law(s) && t < |s.prio| && LawBut(m, Some(t)) && m.status == s.status
    requires Sizes(s) && m.ready == Remove(s, t).ready && m.blocked == Remove(s, t).blocked && m.delayed == Remove(s, t).delayed
    requires m.now == s.now && m.current == s.current && m.idle == s.idle
    ensures t < |m.prio| && Sizes(m) && Moved(s, Place(m, t, st), t, st)
    ensures Place(m, t, st).prio == m.prio && Place(m, t, st).due == m.due && Place(m, t, st).waits == m.waits
  {
    RemoveOff(s, t);
    if st.Delayed? { InsertByDue(m.delayed, m.due, t); }
    assert Sizes(m);
    hide LawBut, Off, Remove, PutByDue, Insert, ByDue;
  }

  // --- The switch ---------------------------------------------------------------------------------------

  /** List p with the running task back at its end. */
  ghost function InLine(s: State, p: nat): seq<Task>
    requires Sizes(s) && p < |s.ready|
  {
    s.ready[p] + if s.status[s.current].Running? && s.prio[s.current] == p then [s.current] else []
  }

  /** The running task went back to the end of its list; the first of the most urgent list runs, and it
      alone left a list. */
  ghost predicate Switched(s: State, r: State)
    requires Sizes(s)
  {
    exists p :: 0 <= p < |s.ready| && InLine(s, p) != [] && (forall q :: p < q < |s.ready| ==> InLine(s, q) == []) && Runs(s, r, p)
  }

  /** ... of list p. */
  ghost predicate Runs(s: State, r: State, p: nat)
    requires Sizes(s) && p < |s.ready| && InLine(s, p) != []
  {
    && r.current == InLine(s, p)[0] < |s.status| && |r.ready| == |s.ready|
    && (forall q :: 0 <= q < |s.ready| ==> r.ready[q] == if q == p then InLine(s, p)[1..] else InLine(s, q))
    && r == s.(current := r.current, ready := r.ready, status := GaveWay(s)[r.current := Running])
  }

  /** The running task is ready again. */
  ghost function GaveWay(s: State): seq<Status>
    requires Sizes(s)
  {
    if s.status[s.current].Running? then s.status[s.current := Ready] else s.status
  }

  lemma RequeueInLine(s: State)
    requires Law(s)
    ensures var s1 := Requeue(s);
      && |s1.ready| == |s.ready| && (forall q :: 0 <= q < |s.ready| ==> s1.ready[q] == InLine(s, q))
      && s1 == s.(ready := s1.ready, status := GaveWay(s))
  {
  }

  lemma PopRuns(s: State, s1: State, p: nat)
    requires Sizes(s) && Sizes(s1) && |s1.ready| == |s.ready| && s1 == s.(ready := s1.ready, status := GaveWay(s))
    requires forall q :: 0 <= q < |s.ready| ==> s1.ready[q] == InLine(s, q)
    requires p < |s.ready| && s1.ready[p] != [] && s1.ready[p][0] < |s1.status|
    ensures Runs(s, Pop(s1, p), p)
  {
    hide InLine, GaveWay;
  }

  lemma SwitchTakes(s: State)
    requires Law(s)
    ensures Sizes(s) && (if Starved(s) then Switch(s) == s.(current := s.idle, status := s.status[s.idle := Running]) else Switched(s, Switch(s)))
  {
    RequeueLaw(s);
    hide LawBut, Requeue, InLine, Starved, Switched, Switch;
    if Highest(Requeue(s).ready, |Requeue(s).ready|).Some? { SwitchRuns(s); } else { SwitchIdles(s); }
  }

  lemma SwitchIdles(s: State)
    requires Law(s) && Sizes(Requeue(s)) && Highest(Requeue(s).ready, |Requeue(s).ready|).None?
    ensures Sizes(s) && Starved(s) && Switch(s) == s.(current := s.idle, status := s.status[s.idle := Running])
  {
    RequeueLaw(s);
    StarvedSwitch(s);
    hide LawBut;
    assert Requeue(s) == s;
  }

  lemma SwitchRuns(s: State)
    requires Law(s) && Sizes(Requeue(s)) && Highest(Requeue(s).ready, |Requeue(s).ready|).Some?
    ensures Sizes(s) && !Starved(s) && Switched(s, Switch(s))
  {
    RequeueLaw(s);
    RequeueInLine(s);
    var s1 := Requeue(s);
    var h := Highest(s1.ready, |s1.ready|);
    PopLaw(s1, h.value);
    RunnableNotStarved(s, h.value);
    PopRuns(s, s1, h.value);
    hide LawBut, Requeue, InLine, Starved, Runs, Pop;
    assert Switch(s) == Pop(s1, h.value);
    hide Switch;
    assert InLine(s, h.value) != [] && Runs(s, Switch(s), h.value);
  }

  // --- The ended ----------------------------------------------------------------------------------------

  ghost predicate FirstToFree(l: seq<Task>, status: seq<Status>, i: int) {
    0 <= i < |l| && l[i] < |status| && status[l[i]].Terminated? && forall j :: 0 <= j < i && l[j] < |status| ==> !status[l[j]].Terminated?
  }

  lemma {:induction false} FirstAt(l: seq<Task>, status: seq<Status>)
    ensures forall i :: FirstToFree(l, status, i) ==> FirstEnded(l, status) == Some(l[i])
  {
    if l != [] {
      FirstAt(l[1..], status);
      forall i | FirstToFree(l, status, i) ensures FirstEnded(l, status) == Some(l[i]) {
        if i > 0 {
          assert !(l[0] < |status| && status[l[0]].Terminated?);
          assert FirstToFree(l[1..], status, i - 1);
        }
      }
    }
  }

  // --- How long -----------------------------------------------------------------------------------------

  /** A task that delays itself is made ready by a tick exactly when as many ticks have passed; a later
      tick finds it where it was. */
  lemma {:induction false} SleepsExactly(s: State, ticks: nat, n: nat)
    requires Law(s) && s.status[s.current].Running? && s.current != s.idle && ticks > 0
    ensures var t := s.current; var d := Delay(s, ticks); Sizes(d) && var r := Tick(d, n);
      && |r.status| == |r.due| == |s.status| && (r.status[t].Ready? <==> n >= ticks)
      && (n < ticks ==> r.status[t].Delayed? && r.due[t] == s.now + ticks && r.now == s.now + n)
  {
    DelayLaw(s, ticks);
    var t, d := s.current, Delay(s, ticks);
    assert d.status == s.status[t := Delayed] && d.due[t] == s.now + ticks && d.now == s.now && d.current == t;
    hide Delay;
    Ticked(d, t, n);
  }

  /** What a tick does to one task. */
  lemma Ticked(s: State, t: Task, n: nat)
    requires Law(s) && t < |s.prio|
    ensures Sizes(s) && var r := Tick(s, n);
      && |r.status| == |r.due| == |s.status| == |r.waits| == |s.prio| && r.waits == s.waits && r.now == s.now + n
      && if Overdue(s, t, s.now + n) then r.status[t].Ready? else r.status[t] == s.status[t] && r.due[t] == s.due[t]
  {
    TickExact(s, n);
    hide LawBut, Tick, WokenBy, Overdue;
  }

  /** A task that waits for a semaphore with a timeout is given up on by a tick exactly when more ticks
      than that have passed, with its wait_sem still set; without a timeout, never. */
  lemma {:induction false} WaitsExactly(s: State, timeout: Option<nat>, n: nat)
    requires Law(s) && s.status[s.current].Running? && timeout != Some(0)
    ensures var t := s.current; var d := Park(s, timeout); Sizes(d) && var r := Tick(d, n);
      && |r.status| == |r.waits| == |s.status| && r.waits[t]
      && (r.status[t].Ready? <==> timeout.Some? && n > timeout.value)
      && (!(timeout.Some? && n > timeout.value) ==> r.status[t].Blocked?)
  {
    WaitLaw(s, timeout);
    var t, d := s.current, Park(s, timeout);
    assert d.status[t].Blocked? && d.now == s.now && d.waits[t];
    assert d.due[t] == if timeout.None? then 0 else s.now + timeout.value;
    hide Park;
    Ticked(d, t, n);
  }
}
