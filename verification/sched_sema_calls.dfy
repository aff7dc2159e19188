/** What a take and a give do to the scheduler and the semaphore at once, read off the lists. */
module SchedSemaCalls {
  import opened Lists
  import WaitQueue
  import opened SchedModel
  import opened SchedProof
  import opened SchedMoves
  import opened SchedSema

  /** Of the semaphores only number k changed. */
  ghost predicate OnlySem(x: Joint, y: Joint, k: nat) {
    k < |x.sems| == |y.sems| && forall j :: 0 <= j < |x.sems| && j != k ==> y.sems[j] == x.sems[j]
  }

  /** The current task waits for semaphore k: off the processor, on the blocked list and in line, behind
      those at least as urgent, with its deadline. */
  ghost predicate InLineFor(x: Joint, y: Joint, k: nat, timeout: Option<nat>) {
    var t := x.s.current;
    && OnlySem(x, y, k) && Moved(x.s, y.s, t, Blocked) && Waits(y, t, k)
    && t < |x.s.prio| && WaitQueue.Known(x.sems[k].queue, x.s.prio)
    && WaitQueue.Lined(x.sems[k].queue, y.sems[k].queue, x.s.prio, t) && y.sems[k].count == 0
    && t < |y.s.due| && y.s.due[t] == if timeout.None? then 0 else x.s.now + timeout.value
  }

  lemma QueueKnown(x: Joint, k: nat)
    requires JointLaw(x) && k < |x.sems|
    ensures Sizes(x.s) && WaitQueue.Known(x.sems[k].queue, x.s.prio) && (x.sems[k].queue != [] ==> x.sems[k].count == 0)
  {
    assert QueueLaw(x, k);
    forall i | 0 <= i < |x.sems[k].queue| ensures x.sems[k].queue[i] < |x.s.prio| { assert Waits(x, x.sems[k].queue[i], k); }
  }

  lemma Parks(s: State, timeout: Option<nat>)
    requires Law(s) && s.status[s.current].Running? && timeout != Some(0)
    ensures Sizes(s) && Sizes(Park(s, timeout)) && Moved(s, Park(s, timeout), s.current, Blocked)
    ensures Park(s, timeout).waits == s.waits[s.current := true]
    ensures Park(s, timeout).due == s.due[s.current := if timeout.None? then 0 else s.now + timeout.value]
  {
    var t := s.current;
    var m := s.(due := s.due[t := if timeout.None? then 0 else s.now + timeout.value], waits := s.waits[t := true]);
    WaitLaw(s, timeout);
    OffNothing(s, t);
    NowhereLaw(s, t);
    TransitLaw(s, m, t);
    PlaceMoves(s, m, t, Blocked);
  }

  /** The three ways a take goes. */
  lemma TakeIs(x: Joint, k: nat, timeout: Option<nat>)
    requires JointLaw(x) && k < |x.sems| && x.s.status[x.s.current].Running? && !x.s.waits[x.s.current]
    ensures Sizes(x.s) && WaitQueue.Known(x.sems[k].queue, x.s.prio) && |x.on| == |x.s.prio|
    ensures var t, m := x.s.current, x.sems[k];
      Take(x, k, timeout) ==
        if m.count > 0 then x.(sems := x.sems[k := m.(count := m.count - 1)])
        else if timeout == Some(0) then x
        else x.(s := Park(x.s, timeout), on := x.on[t := k], sems := x.sems[k := m.(queue := WaitQueue.Enqueued(m.queue, x.s.prio, t))])
  {
    QueueKnown(x, k);
    hide Park, WaitQueue.Enqueued, QueueLaw, Waits, LawBut;
  }

  /** A take by the running task gets a token exactly when there is one; else it fails at once if it may
      not wait, and gets in line if it may. */
  lemma {:induction false} TakesOrWaits(x: Joint, k: nat, timeout: Option<nat>)
    requires JointLaw(x) && k < |x.sems| && x.s.status[x.s.current].Running? && !x.s.waits[x.s.current]
    ensures Sizes(x.s) && var y := Take(x, k, timeout);
      if x.sems[k].count > 0 then
        OnlySem(x, y, k) && y.s == x.s && y.on == x.on && y.sems[k].count == x.sems[k].count - 1 && y.sems[k].queue == x.sems[k].queue
      else if timeout == Some(0) then y == x
      else InLineFor(x, y, k, timeout)
  {
    TakeIs(x, k, timeout);
    var t := x.s.current;
    if x.sems[k].count == 0 && timeout != Some(0) {
      assert Law(x.s) && Sizes(x.s) && t < |x.s.prio| == |x.s.waits| == |x.s.due|;
      hide JointLaw, LawBut, Take;
      Parks(x.s, timeout);
      WaitQueue.EnqueuedLines(x.sems[k].queue, x.s.prio, t);
      hide Park, WaitQueue.Lined, WaitQueue.Enqueued, WaitQueue.Known;
    }
  }

  /** A give with nobody in line adds a token unless that would be more than the limit. */
  lemma {:induction false} GiveBanks(x: Joint, k: nat)
    requires JointLaw(x) && k < |x.sems| && x.sems[k].queue == []
    ensures Sizes(x.s) && var y := Give(x, k);
      && OnlySem(x, y, k) && y.s == x.s && y.on == x.on && y.sems[k].queue == [] && y.sems[k].limit == x.sems[k].limit
      && y.sems[k].count == if x.sems[k].count < x.sems[k].limit then x.sems[k].count + 1 else x.sems[k].count
  {
    assert QueueLaw(x, k);
  }
}
