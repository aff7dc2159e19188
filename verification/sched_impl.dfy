/** The scheduler of kernel/task.c in place: doubly linked lists threaded through the tasks, head and tail
    pointers, and a bitmap that says which ready lists are not empty. */
module SchedImpl {
  import opened Lists
  import opened SchedModel
  import opened SchedProof
  import opened SchedRuns
  import opened SchedRep
  import opened SchedMoves

  /** _terminated_count. */
  ghost function Ended(status: seq<Status>): nat { multiset(status)[Terminated] }

  /** Some task that `was` not ready now is, and outranks the current one. */
  ghost predicate Outranked(was: State, s: State)
    requires Sizes(s) && |was.status| == |s.status|
  {
    exists t :: 0 <= t < |s.status| && !was.status[t].Ready? && s.status[t].Ready? && s.prio[t] > s.prio[s.current]
  }

  lemma EndedSame(status: seq<Status>, t: Task, st: Status)
    requires t < |status|
    ensures Ended(status[t := st]) + (if status[t].Terminated? then 1 else 0) == Ended(status) + (if st.Terminated? then 1 else 0)
  {
  }

  class Scheduler {
    var prio: seq<nat>
    var status: seq<Status>
    var due: seq<nat>
    var waits: seq<bool>
    var next: seq<Link>
    var prev: seq<Link>
    var heads: seq<Link>
    var tails: seq<Link>
    var bitmap: seq<bool>
    var blocked: Link
    var delayed: Link
    var ended: nat
    var now: nat
    var current: Task
    const idle: Task
    ghost var onReady: seq<seq<Task>>
    ghost var onBlocked: seq<Task>
    ghost var onDelayed: seq<Task>

    ghost function M(): Mem
      reads this
    {
      Mem(next, prev, heads, tails, bitmap, blocked, delayed)
    }

    ghost function S(): State
      reads this
    {
      State(prio, status, onReady, onBlocked, onDelayed, due, waits, now, current, idle)
    }

    /** The memory holds the lists, every task but the one in transit is where it belongs, and the ended
        ones are counted. */
    ghost predicate ValidBut(but: Option<Task>)
      reads this
    {
      LawBut(S(), but) && Rep(M(), S()) && ended == Ended(status)
    }

    ghost predicate Valid()
      reads this
    {
      ValidBut(None)
    }

    /** scheduler_init. */
    constructor (levels: nat)
      requires levels > 0
      ensures Valid() && S() == Init(levels)
    {
      prio, status, due, waits, next, prev := [0], [Ready], [0], [false], [None], [None];
      heads := seq(levels, i => if i == 0 then Some(0) else None);
      tails := seq(levels, i => if i == 0 then Some(0) else None);
      bitmap := seq(levels, i => i == 0);
      blocked, delayed, ended, now, current, idle := None, None, 0, 0, 0, 0;
      onReady, onBlocked, onDelayed := Init(levels).ready, [], [];
      InitLaw(levels);
      hide LawBut;
    }

    // --- Links --------------------------------------------------------------------------------------------

    /** The stores of rl_append. */
    method LinkLast(t: Task, p: nat, ghost l: seq<Task>)
      requires Threads(M(), OnReady(p), l) && t < |next| && t !in l
      modifies this`next, this`prev, this`heads, this`tails, this`bitmap
      ensures M() == SpliceMem(old(M()), OnReady(p), l, |l|, t)
    {
      assert l != [] ==> l[|l| - 1] < |next|;
      hide Linked, Distinct;
      next := next[t := None];
      prev := prev[t := tails[p]];
      if heads[p].Some? {
        next := next[tails[p].value := Some(t)];
      } else {
        heads := heads[p := Some(t)];
        bitmap := bitmap[p := true];
      }
      tails := tails[p := Some(t)];
      SpliceEnds(l, |l|, t);
    }

    /** Those of rl_pop_head. */
    method UnlinkFirst(p: nat, ghost l: seq<Task>) returns (t: Task)
      requires Threads(M(), OnReady(p), l) && l != []
      modifies this`next, this`prev, this`heads, this`tails, this`bitmap
      ensures t == l[0] && M() == CutMem(old(M()), OnReady(p), l, 0)
    {
      hide Linked, Distinct, Cut;
      NearKnown(M(), OnReady(p), l, 0);
      CutEnds(l, 0);
      t := heads[p].value;
      heads := heads[p := next[t]];
      if heads[p].Some? {
        prev := prev[heads[p].value := None];
      } else {
        tails := tails[p := None];
        bitmap := bitmap[p := false];
      }
      next := next[t := None];
      prev := prev[t := None];
    }

    /** Those of rl_remove. */
    method UnlinkReady(t: Task, p: nat, ghost l: seq<Task>)
      requires Threads(M(), OnReady(p), l) && t in l
      modifies this`next, this`prev, this`heads, this`tails, this`bitmap
      ensures M() == CutMem(old(M()), OnReady(p), l, Where(l, t))
    {
      hide Linked, Distinct, Cut, Where;
      NearKnown(M(), OnReady(p), l, Where(l, t));
      CutEnds(l, Where(l, t));
      var a, b := next[t], prev[t];
      if b.Some? { next := next[b.value := a]; } else { heads := heads[p := a]; }
      if a.Some? { prev := prev[a.value := b]; } else { tails := tails[p := b]; }
      if heads[p].None? { bitmap := bitmap[p := false]; }
      next := next[t := None];
      prev := prev[t := None];
    }

    /** remove_task, from the blocked or the delayed list. */
    method Unlink(t: Task, asleep: bool, ghost l: seq<Task>)
      requires Threads(M(), if asleep then OnDelayed else OnBlocked, l) && t in l
      modifies this`next, this`prev, this`blocked, this`delayed
      ensures M() == CutMem(old(M()), if asleep then OnDelayed else OnBlocked, l, Where(l, t))
    {
      hide Linked, Distinct, Cut, Where;
      NearKnown(M(), if asleep then OnDelayed else OnBlocked, l, Where(l, t));
      CutEnds(l, Where(l, t));
      var a, b := next[t], prev[t];
      if Some(t) == if asleep then delayed else blocked {
        if asleep { delayed := a; } else { blocked := a; }
        if a.Some? { prev := prev[a.value := None]; }
      } else {
        if b.Some? { next := next[b.value := a]; }
        if a.Some? { prev := prev[a.value := b]; }
      }
      next := next[t := None];
      prev := prev[t := None];
    }

    /** The walk of enqueue_task to the end of the blocked list. */
    method LastBlocked(ghost l: seq<Task>) returns (curr: Task)
      requires Threads(M(), OnBlocked, l) && l != []
      ensures Some(curr) == Last(l)
    {
      curr := blocked.value;
      ghost var i := 0;
      while next[curr].Some?
        invariant i < |l| && curr == l[i] && curr < |next| && next[curr] == After(l, i)
        decreases |l| - i
      {
        i := i + 1;
        curr := next[curr].value;
      }
    }

    /** enqueue_task on the blocked list. */
    method LinkBlocked(t: Task, ghost l: seq<Task>)
      requires Threads(M(), OnBlocked, l) && t < |next| && t !in l
      modifies this`next, this`prev, this`blocked
      ensures M() == SpliceMem(old(M()), OnBlocked, l, |l|, t)
    {
      hide Threads, SpliceMem;
      BlockedLast(M(), l, t);
      if blocked.None? {
        next, prev, blocked := next[t := None], prev[t := None], Some(t);
      } else {
        var curr := LastBlocked(l);
        next := next[t := None][curr := Some(t)];
        prev := prev[t := None][t := Some(curr)];
      }
    }

    /** The walk of add_to_delayed_list to the last task that is due no later. */
    method LastDue(t: Task, ghost l: seq<Task>) returns (cur: Task, ghost k: nat)
      requires Threads(M(), OnDelayed, l) && t < |next| == |due| && l != [] && l[0] < |due| && due[l[0]] <= due[t]
      ensures 0 < k <= |l| && cur == l[k - 1] && k == Ahead(l, ByDue(due), ByDue(due)(t))
    {
      ghost var rank := ByDue(due);
      cur, k := delayed.value, 1;
      while next[cur].Some? && due[next[cur].value] <= due[t]
        invariant 0 < k <= |l| && cur == l[k - 1] && cur < |next| && next[cur] == After(l, k - 1)
        invariant next[cur].Some? ==> next[cur].value < |due|
        invariant forall j :: 0 <= j < k ==> rank(l[j]) >= rank(t)
        decreases |l| - k
      {
        k := k + 1;
        cur := next[cur].value;
        assert k < |l| ==> l[k] < |next|;
      }
      AheadIs(l, rank, rank(t), k);
    }

    /** add_to_delayed_list. */
    method LinkDelayed(t: Task, ghost l: seq<Task>)
      requires Threads(M(), OnDelayed, l) && t < |next| == |due| && t !in l
      modifies this`next, this`prev, this`delayed
      ensures M() == SpliceMem(old(M()), OnDelayed, l, Ahead(l, ByDue(due), ByDue(due)(t)), t)
    {
      hide Threads, SpliceMem, Ahead;
      DelayedFirst(M(), l, t, due);
      if delayed.None? || due[t] < due[delayed.value] {
        next := next[t := None][t := delayed];
        prev := prev[t := None];
        if delayed.Some? { prev := prev[delayed.value := Some(t)]; }
        delayed := Some(t);
      } else {
        ghost var k;
        var cur;
        cur, k := LastDue(t, l);
        DelayedBehind(M(), l, k, t);
        var after := next[cur];
        next := next[t := None][t := after];
        prev := prev[t := None][t := Some(cur)];
        if after.Some? { prev := prev[after.value := Some(t)]; }
        next := next[cur := Some(t)];
      }
    }

    // --- On and off the lists -----------------------------------------------------------------------------

    /** rl_append. */
    method Append(t: Task)
      requires ValidBut(Some(t)) && t < |prio| && !status[t].Terminated?
      modifies this`next, this`prev, this`heads, this`tails, this`bitmap, this`status, this`onReady
      ensures Valid() && S() == Place(old(S()), t, Ready)
    {
      hide LawBut, Sizes, Rep, Threads, SpliceMem, Place, Ended, Ahead, Fits;
      ghost var s := S();
      PlaceFacts(M(), s, t, Ready);
      EndedSame(status, t, Ready);
      LinkLast(t, prio[t], onReady[prio[t]]);
      status := status[t := Ready];
      onReady := Place(s, t, Ready).ready;
    }

    /** add_to_blocked_list, and the parking of a task that has ended. */
    method AddBlocked(t: Task, st: Status)
      requires ValidBut(Some(t)) && t < |prio| && !status[t].Terminated?
      requires st.Blocked? || (st.Terminated? && t < |waits| && !waits[t])
      modifies this`next, this`prev, this`blocked, this`status, this`ended, this`onBlocked
      ensures Valid() && S() == Place(old(S()), t, st)
    {
      hide LawBut, Sizes, Rep, Threads, SpliceMem, Place, Ended, Ahead, Fits;
      ghost var s := S();
      PlaceFacts(M(), s, t, st);
      EndedSame(status, t, st);
      LinkBlocked(t, onBlocked);
      status := status[t := st];
      if st.Terminated? { ended := ended + 1; }
      onBlocked := Place(s, t, st).blocked;
    }

    /** add_to_delayed_list. */
    method AddDelayed(t: Task)
      requires ValidBut(Some(t)) && t < |prio| && !status[t].Terminated?
      modifies this`next, this`prev, this`delayed, this`status, this`onDelayed
      ensures Valid() && S() == Place(old(S()), t, Delayed)
    {
      hide LawBut, Sizes, Rep, Threads, SpliceMem, Place, Ended, ByDue, Ahead, Fits;
      ghost var s := S();
      PlaceFacts(M(), s, t, Delayed);
      EndedSame(status, t, Delayed);
      LinkDelayed(t, onDelayed);
      status := status[t := Delayed];
      onDelayed := Place(s, t, Delayed).delayed;
    }

    /** rl_remove. */
    method OffReady(t: Task)
      requires Valid() && t < |prio| && t < |status| && status[t].Ready?
      modifies this`next, this`prev, this`heads, this`tails, this`bitmap, this`onReady
      ensures ValidBut(Some(t)) && S() == Remove(old(S()), t)
    {
      hide LawBut, Sizes, Rep, Threads, CutMem, Remove, Ended, Where;
      ghost var s := S();
      RemoveFacts(M(), s, t);
      UnlinkReady(t, prio[t], onReady[prio[t]]);
      onReady := Remove(s, t).ready;
    }

    /** remove_from_delayed_list. */
    method OffDelayed(t: Task)
      requires Valid() && t < |prio| && t < |status| && status[t].Delayed?
      modifies this`next, this`prev, this`blocked, this`delayed, this`onDelayed
      ensures ValidBut(Some(t)) && S() == Remove(old(S()), t)
    {
      hide LawBut, Sizes, Rep, Threads, CutMem, Remove, Ended, Where;
      ghost var s := S();
      RemoveFacts(M(), s, t);
      Unlink(t, true, onDelayed);
      onDelayed := Remove(s, t).delayed;
    }

    /** remove_from_blocked_list. */
    method OffBlocked(t: Task)
      requires Valid() && t < |prio| && t < |status| && (status[t].Blocked? || status[t].Terminated?)
      modifies this`next, this`prev, this`blocked, this`delayed, this`onBlocked
      ensures ValidBut(Some(t)) && S() == Remove(old(S()), t)
    {
      hide LawBut, Sizes, Rep, Threads, CutMem, Remove, Ended, Where;
      ghost var s := S();
      RemoveFacts(M(), s, t);
      Unlink(t, false, onBlocked);
      onBlocked := Remove(s, t).blocked;
    }

    /** Off whatever list the task is on, by its status. */
    method TakeOff(t: Task)
      requires Valid() && t < |prio|
      modifies this`next, this`prev, this`heads, this`tails, this`bitmap, this`blocked, this`delayed
      modifies this`onReady, this`onBlocked, this`onDelayed
      ensures ValidBut(Some(t)) && S() == Remove(old(S()), t)
    {
      hide LawBut, Sizes, Rep, Remove, Ended;
      RemoveFacts(M(), S(), t);
      match status[t] {
        case Ready => OffReady(t);
        case Delayed => OffDelayed(t);
        case Blocked => OffBlocked(t);
        case Terminated => OffBlocked(t);
        case Running =>
        case Freed =>
      }
    }

    // --- The switch ---------------------------------------------------------------------------------------

    /** rl_pop_head, and its task runs. */
    method PopHead(p: nat)
      requires Valid() && p < |bitmap| && bitmap[p] && current < |status| && !status[current].Running?
      modifies this`next, this`prev, this`heads, this`tails, this`bitmap, this`status, this`current, this`onReady
      ensures p < |old(onReady)| && old(onReady)[p] != [] && old(onReady)[p][0] < |old(status)|
      ensures Valid() && S() == Pop(old(S()), p)
    {
      hide LawBut, Sizes, Rep, Threads, CutMem, Ended, Where;
      ghost var s := S();
      BitsTell(M(), s);
      PopFacts(M(), s, p);
      var t := UnlinkFirst(p, onReady[p]);
      EndedSame(status, t, Running);
      current := t;
      status := status[t := Running];
      onReady := Pop(s, p).ready;
    }

    /** highest_ready_prio: one more than the highest set bit, or 0. */
    method HighestBit() returns (k: nat)
      requires Valid()
      ensures Highest(onReady, |onReady|) == if k == 0 then None else Some(k - 1)
      ensures k <= |bitmap| == |onReady| && (k > 0 ==> bitmap[k - 1] && onReady[k - 1] != [])
    {
      hide LawBut, Rep, Threads;
      BitsTell(M(), S());
      k := |bitmap|;
      while k > 0 && !bitmap[k - 1]
        invariant k <= |bitmap| && Highest(onReady, |onReady|) == Highest(onReady, k)
      {
        k := k - 1;
      }
    }

    /** get_next_task. With nobody to run the idle task is set running, wherever it is. */
    method GetNext()
      requires Valid()
      modifies this
      ensures S() == Switch(old(S())) && Rep(M(), S()) && (!Starved(old(S())) ==> Valid())
      ensures if Starved(old(S())) then S() == old(S()).(current := idle, status := old(status)[idle := Running])
        else Switched(old(S()), S())
      ensures Sizes(old(S()))
      ensures S() == Apply(old(S()), SwitchOp)
    {
      hide LawBut, Rep, Ended, Requeue, Place, Starved, Highest, Switched;
      ghost var s0 := S();
      SwitchTakes(s0);
      SwitchFacts(M(), s0);
      if status[current].Running? { Append(current); }
      assert S() == Requeue(s0);
      var k := HighestBit();
      if k > 0 {
        PopHead(k - 1);
      } else {
        if !status[current].Running? { current := idle; }
        status := status[current := Running];
      }
    }

    // --- Waiting ------------------------------------------------------------------------------------------

    /** task_block. A task that has ended does not call it. */
    method TaskBlock()
      requires Valid() && current < |status| && !status[current].Terminated?
      modifies this
      ensures Valid() && S() == Block(old(S()))
      ensures if old(current) == idle || old(status)[old(current)].Blocked? then S() == old(S())
        else Moved(old(S()), S(), old(current), Blocked) && prio == old(prio) && due == old(due) && waits == old(waits)
      ensures Sizes(old(S()))
      ensures S() == Apply(old(S()), BlockOp)
    {
      hide LawBut, Rep, Ended, Place, Remove, Moved;
      ghost var s := S();
      RolesKnown(s);
      if current == idle || status[current].Blocked? { return; }
      RemoveSame(s, current);
      TakeOff(current);
      PlaceMoves(s, S(), current, Blocked);
      AddBlocked(current, Blocked);
    }

    /** task_delay. */
    method TaskDelay(ticks: nat)
      requires Valid() && current < |status| && status[current].Running?
      modifies this
      ensures Valid() && S() == Delay(old(S()), ticks)
      ensures old(current) == idle || ticks == 0 ==> S() == old(S())
      ensures old(current) != idle && ticks > 0 ==> (
        && Moved(old(S()), S(), old(current), Delayed) && prio == old(prio) && waits == old(waits)
        && current < |old(due)| && due == old(due)[current := old(now) + ticks])
      ensures Sizes(old(S()))
      ensures S() == Apply(old(S()), DelayOp(ticks))
    {
      hide LawBut, Rep, Ended, Place, Moved;
      ghost var s := S();
      RolesKnown(s);
      if current == idle || ticks == 0 { return; }
      WaitingFacts(M(), s, now + ticks, waits);
      due := due[current := now + ticks];
      OffNothing(s, current);
      PlaceMoves(s, S(), current, Delayed);
      AddDelayed(current);
    }

    /** task_delay_until: a deadline that is not in the future does not make the task wait. */
    method TaskDelayUntil(last: nat, period: nat) returns (wake: nat, slept: bool)
      requires Valid() && current < |status| && status[current].Running?
      modifies this
      ensures slept <==> old(current) != idle && period > 0 && last + period > old(now)
      ensures wake == if old(current) == idle || period == 0 then last else last + period
      ensures Valid() && S() == if slept then Delay(old(S()), wake - old(now)) else old(S())
      ensures !slept ==> S() == old(S())
      ensures slept ==> (
        && Moved(old(S()), S(), old(current), Delayed) && prio == old(prio) && waits == old(waits)
        && current < |old(due)| && due == old(due)[current := wake])
    {
      hide LawBut, Rep, Ended, Place, Moved;
      wake, slept := last, false;
      if current == idle || period == 0 { return; }
      wake := last + period;
      if wake <= now { return; }
      ghost var s := S();
      RolesKnown(s);
      WaitingFacts(M(), s, wake, waits);
      due := due[current := wake];
      OffNothing(s, current);
      PlaceMoves(s, S(), current, Delayed);
      AddDelayed(current);
      slept := true;
    }

    /** The wait of semaphore_take_common. */
    method TakeWait(timeout: Option<nat>)
      requires Valid() && current < |status| && status[current].Running?
      modifies this
      ensures Valid() && S() == Park(old(S()), timeout)
      ensures timeout == Some(0) ==> S() == old(S())
      ensures timeout != Some(0) ==> (
        && Moved(old(S()), S(), old(current), Blocked) && prio == old(prio)
        && current < |old(waits)| == |old(due)| && waits == old(waits)[current := true]
        && due == old(due)[current := if timeout.None? then 0 else old(now) + timeout.value])
      ensures Sizes(old(S()))
      ensures S() == Apply(old(S()), ParkOp(timeout))
    {
      hide LawBut, Rep, Ended, Place, Moved;
      ghost var s := S();
      RolesKnown(s);
      if timeout == Some(0) { return; }
      var d := if timeout.None? then 0 else now + timeout.value;
      WaitingFacts(M(), s, d, waits[current := true]);
      due := due[current := d];
      waits := waits[current := true];
      OffNothing(s, current);
      PlaceMoves(s, S(), current, Blocked);
      AddBlocked(current, Blocked);
    }

    // --- Waking -------------------------------------------------------------------------------------------

    /** A semaphore's give, a mutex's hand-off: the waiter is ready. */
    method Wake(t: Task)
      requires Valid() && t < |status| == |waits| && status[t].Blocked? && waits[t]
      modifies this
      ensures Valid() && S() == Grant(old(S()), t)
      ensures Moved(old(S()), S(), t, Ready) && prio == old(prio) && due == old(due) && waits == old(waits)[t := false]
      ensures Sizes(old(S()))
      ensures S() == Apply(old(S()), GrantOp(t))
    {
      hide LawBut, Rep, Ended, Place, Remove, Moved;
      ghost var s := S();
      RolesKnown(s);
      WaitsFacts(M(), s, t, false);
      waits := waits[t := false];
      RemoveSame(S(), t);
      TakeOff(t);
      SameRemove(s, s.(waits := s.waits[t := false]), t);
      PlaceMoves(s, S(), t, Ready);
      Append(t);
    }

    /** What is left of semaphore_take_common once the task runs again: granted, unless wait_sem is
        still set. */
    method TakeResumed() returns (granted: bool)
      requires Valid() && current < |status| == |waits| && status[current].Running?
      modifies this
      ensures granted == !old(waits)[old(current)]
      ensures Valid() && S() == Resume(old(S())) && S() == old(S()).(waits := old(waits)[current := false])
      ensures Sizes(old(S()))
      ensures S() == Apply(old(S()), ResumeOp)
    {
      hide LawBut, Rep, Ended;
      RolesKnown(S());
      WaitsFacts(M(), S(), current, false);
      granted := !waits[current];
      waits := waits[current := false];
    }

    /** The walk of get_task_by_id along one list. */
    method Seek(t: Task, start: Link, ghost h: Home, ghost l: seq<Task>) returns (found: bool)
      requires Threads(M(), h, l) && start == First(l)
      ensures found <==> t in l
    {
      var curr := start;
      ghost var i := 0;
      found := false;
      while curr.Some?
        invariant i <= |l| && curr == At(l, i) && t !in l[..i]
        decreases |l| - i
      {
        if curr == Some(t) { return true; }
        assert l[..i + 1] == l[..i] + [l[i]];
        curr := next[curr.value];
        i := i + 1;
      }
      assert l[..i] == l;
    }

    /** get_task_by_id, which does not look at the topmost ready list. */
    method Find(t: Task) returns (found: bool)
      requires Valid()
      ensures Sizes(S()) && (found <==> Visible(S(), t))
    {
      hide LawBut, Rep, Threads, Visible;
      RolesKnown(S());
      SeenSomewhere(S(), t);
      BitsTell(M(), S());
      if current == t { return true; }
      found := false;
      for p := 0 to |heads| - 1
        invariant forall q :: 0 <= q < p && q < |onReady| ==> t !in onReady[q]
      {
        Headed(M(), S(), OnReady(p));
        found := Seek(t, heads[p], OnReady(p), onReady[p]);
        if found { return; }
      }
      Headed(M(), S(), OnBlocked);
      found := Seek(t, blocked, OnBlocked, onBlocked);
      if found { return; }
      Headed(M(), S(), OnDelayed);
      found := Seek(t, delayed, OnDelayed, onDelayed);
    }

    /** task_unblock. */
    method TaskUnblock(t: Task)
      requires Valid()
      modifies this
      ensures Valid() && S() == Unblock(old(S()), t)
      ensures if t < |old(status)| && old(status)[t].Blocked?
        then Moved(old(S()), S(), t, Ready) && prio == old(prio) && due == old(due) && waits == old(waits)
        else S() == old(S())
      ensures Sizes(old(S()))
      ensures S() == Apply(old(S()), UnblockOp(t))
    {
      hide LawBut, Rep, Ended, Place, Remove, Moved;
      ghost var s := S();
      RolesKnown(s);
      var found := Find(t);
      if !found || !status[t].Blocked? { return; }
      RemoveSame(s, t);
      TakeOff(t);
      PlaceMoves(s, S(), t, Ready);
      Append(t);
    }

    // --- The tick -----------------------------------------------------------------------------------------

    /** Off its list, the deadline gone, and ready: the body of both loops of the tick. */
    method MakeReady(t: Task)
      requires Valid() && t < |prio| == |status| == |due| && (status[t].Delayed? || status[t].Blocked?)
      modifies this`next, this`prev, this`heads, this`tails, this`bitmap, this`blocked, this`delayed
      modifies this`due, this`status, this`onReady, this`onBlocked, this`onDelayed
      ensures Sizes(old(S())) && Valid() && S() == Woken(old(S()), t)
    {
      hide LawBut, Rep, Ended, Place, Remove, HomeOf;
      RolesKnown(S());
      RemoveSame(S(), t);
      TakeOff(t);
      DueFacts(M(), S(), t);
      due := due[t := 0];
      Append(t);
    }

    /** First loop of wake_up_delayed_tasks_isr. */
    method WakeSleepers() returns (higher: bool)
      requires Valid()
      modifies this`next, this`prev, this`heads, this`tails, this`bitmap, this`blocked, this`delayed
      modifies this`due, this`status, this`onReady, this`onBlocked, this`onDelayed
      ensures Sizes(old(S())) && Valid() && S() == WakeDue(old(S()))
      ensures Sizes(S()) && |old(status)| == |status| && (higher <==> Outranked(old(S()), S())) && OnlyReady(old(S()), S())
    {
      hide LawBut, Rep, Woken, WakeDue, Outranked, Sizes;
      ghost var s0 := S();
      RolesKnown(s0);
      NotYet(s0);
      higher := false;
      Sleeper(M(), S());
      while delayed.Some? && due[delayed.value] <= now
        invariant Valid() && Sizes(S()) && Sizes(s0) && WakeDue(S()) == WakeDue(s0)
        invariant |status| == |s0.status| && OnlyReady(s0, S()) && (higher <==> Outranked(s0, S()))
        invariant |due| == |status| == |prio| && current < |prio| && delayed == First(onDelayed)
        invariant delayed.Some? ==> delayed.value < |status| && status[delayed.value].Delayed?
        decreases |onDelayed|
      {
        ghost var s := S();
        var t := delayed.value;
        WakeHead(s);
        MakeReady(t);
        RolesKnown(S());
        OneReady(s0, s, S(), t);
        if prio[t] > prio[current] { higher := true; }
        Sleeper(M(), S());
      }
      Awake(S());
    }

    /** Second loop: a walk along the blocked list that takes tasks off it. */
    method EjectWaiters() returns (higher: bool)
      requires Valid()
      modifies this`next, this`prev, this`heads, this`tails, this`bitmap, this`blocked, this`delayed
      modifies this`due, this`status, this`onReady, this`onBlocked, this`onDelayed
      ensures Sizes(old(S())) && Valid() && S() == Eject(old(S()), old(onBlocked))
      ensures Sizes(S()) && |old(status)| == |status| && (higher <==> Outranked(old(S()), S())) && OnlyReady(old(S()), S())
    {
      hide LawBut, Rep, Woken, Eject, Outranked, Sizes, OnlyReady, Threads, Linked, Distinct;
      ghost var s0 := S();
      RolesKnown(s0);
      NotYet(s0);
      Headed(M(), s0, OnBlocked);
      higher := false;
      var task := blocked;
      ghost var kept, walk := [], onBlocked;
      while task.Some?
        invariant Valid() && Sizes(S()) && Sizes(s0) && Eject(S(), walk) == Eject(s0, s0.blocked)
        invariant |status| == |s0.status| && OnlyReady(s0, S()) && (higher <==> Outranked(s0, S()))
        invariant |due| == |status| == |prio| == |waits| && current < |prio|
        invariant onBlocked == kept + walk && task == First(walk)
        decreases |walk|
      {
        ghost var s := S();
        var t := task.value;
        Waiter(M(), s, kept, walk);
        Waits(s, kept, walk);
        var after := next[t];
        if waits[t] && due[t] != 0 && due[t] < now {
          MakeReady(t);
          RolesKnown(S());
          OneReady(s0, s, S(), t);
          if prio[t] > prio[current] { higher := true; }
        } else {
          kept := kept + [t];
        }
        walk := walk[1..];
        task := after;
      }
      NoneLeft(S(), walk);
    }

    /** wake_up_delayed_tasks_isr, n ticks after the last one: whether the running task is outranked by
        one that was woken. */
    method TickInterrupt(n: nat) returns (higher: bool)
      requires Valid()
      modifies this
      ensures Sizes(old(S())) && Valid() && S() == Tick(old(S()), n)
      ensures Sizes(S()) && |old(status)| == |status| && (higher <==> Outranked(old(S()), S()))
      ensures S() == Apply(old(S()), TickOp(n))
    {
      hide LawBut, Rep, WakeDue, Eject, Outranked, Sizes, OnlyReady;
      ghost var s0 := S();
      ClockFacts(M(), s0, n);
      now := now + n;
      ghost var s1 := S();
      var first := WakeSleepers();
      ghost var s2 := S();
      var second := EjectWaiters();
      BothHalves(s0, s1, s2, S());
      higher := first || second;
    }

    // --- Birth, death, priority ---------------------------------------------------------------------------

    /** task_exit_request, or v_task_exit_impl for the running task: what it held has been handed on. */
    method ExitRequest(t: Task)
      requires Valid()
      modifies this
      ensures Valid() && S() == Exit(old(S()), t)
      ensures Sizes(old(S()))
      ensures if Visible(old(S()), t) && t < |old(status)| && !old(status)[t].Terminated?
        then Moved(old(S()), S(), t, Terminated) && prio == old(prio) && due == old(due)
          && t < |old(waits)| && waits == old(waits)[t := false]
        else S() == old(S())
      ensures S() == Apply(old(S()), ExitOp(t))
    {
      hide LawBut, Rep, Ended, Place, Remove, Visible, Sizes, Moved;
      ghost var s := S();
      RolesKnown(s);
      SeenSomewhere(s, t);
      var found := Find(t);
      if !found || status[t].Terminated? { return; }
      WaitsFacts(M(), s, t, false);
      waits := waits[t := false];
      RemoveSame(S(), t);
      TakeOff(t);
      SameRemove(s, s.(waits := s.waits[t := false]), t);
      PlaceMoves(s, S(), t, Terminated);
      AddBlocked(t, Terminated);
    }

    /** The walk of the idle task to the first ended one. */
    method SeekEnded() returns (e: Link)
      requires Valid()
      ensures e == FirstEnded(onBlocked, status)
    {
      hide LawBut, Rep, Threads, Linked, Distinct;
      ghost var l := onBlocked;
      e := blocked;
      Headed(M(), S(), OnBlocked);
      while e.Some?
        invariant |l| <= |onBlocked| && FirstEnded(onBlocked, status) == FirstEnded(l, status) && e == First(l)
        invariant l == onBlocked[|onBlocked| - |l|..]
        decreases |l|
      {
        Waiter(M(), S(), onBlocked[..|onBlocked| - |l|], l);
        if status[e.value].Terminated? { return; }
        e := next[e.value];
        l := l[1..];
      }
    }

    /** One pass of the idle task over the ended ones. It looks only when the count says there are any. */
    method CollectOne()
      requires Valid()
      requires current == idle && current < |status| && status[current].Running?
      modifies this
      ensures Valid() && S() == Collect(old(S()))
      ensures (forall t :: t in old(onBlocked) && t < |old(status)| ==> !old(status)[t].Terminated?) ==> S() == old(S())
      ensures forall i :: FirstToFree(old(onBlocked), old(status), i) ==>
        Moved(old(S()), S(), old(onBlocked)[i], Freed) && prio == old(prio) && due == old(due) && waits == old(waits)
      ensures Sizes(old(S()))
      ensures S() == Apply(old(S()), CollectOp)
    {
      hide LawBut, Rep, Place, Remove, Sizes, Ended, FirstEnded, Moved;
      ghost var s := S();
      RolesKnown(s);
      FirstAt(onBlocked, status);
      if ended == 0 {
        EndedCounted(onBlocked, status);
        return;
      }
      var e := SeekEnded();
      if e.Some? {
        EndedSame(status, e.value, Freed);
        EndedHere(S(), e.value);
        RemoveSame(S(), e.value);
        TakeOff(e.value);
        PlaceMoves(s, S(), e.value, Freed);
        FreedFacts(M(), S(), e.value);
        ended := ended - 1;
        status := status[e.value := Freed];
      }
    }

    /** task_create: the new task's number. */
    method TaskCreate(p: nat) returns (t: Task)
      requires Valid() && p < |heads|
      modifies this
      ensures Valid() && t == |old(status)| && S() == Create(old(S()), p)
      ensures prio == old(prio) + [p] && status == old(status) + [Ready] && due == old(due) + [0] && waits == old(waits) + [false]
      ensures p < |old(onReady)| && onReady == old(onReady)[p := old(onReady)[p] + [t]] && onBlocked == old(onBlocked) && onDelayed == old(onDelayed)
      ensures Sizes(old(S()))
      ensures S() == Apply(old(S()), CreateOp(p))
    {
      hide LawBut, Rep, Place, Sizes, Ended;
      GrowFacts(M(), S(), p);
      t := |prio|;
      prio, status, due, waits := prio + [p], status + [Ready], due + [0], waits + [false];
      next, prev := next + [None], prev + [None];
      Append(t);
    }

    /** task_change_priority. */
    method ChangePriority(t: Task, p: nat)
      requires Valid() && t < |prio|
      modifies this
      ensures Sizes(old(S())) && Valid() && S() == if p < |old(onReady)| then ChangePrio(old(S()), t, p) else old(S())
      ensures p >= |old(onReady)| ==> S() == old(S())
      ensures p < |old(onReady)| ==> t < |old(status)| && prio == old(prio)[t := p] && due == old(due) && waits == old(waits)
      ensures p < |old(onReady)| ==> if old(status)[t].Ready? then Moved(old(S()), S(), t, Ready) else S() == old(S()).(prio := prio)
      ensures S() == Apply(old(S()), PrioOp(t, p))
    {
      hide LawBut, Rep, Place, Remove, Sizes, Ended, Threads, Moved;
      ghost var s := S();
      RolesKnown(s);
      BitsTell(M(), s);
      if p >= |heads| { return; }
      if status[t].Ready? {
        RemoveSame(s, t);
        TakeOff(t);
        PrioFacts(M(), S(), t, p);
        prio := prio[t := p];
        PlaceMoves(s, S(), t, Ready);
        Append(t);
      } else {
        SetPrioFacts(M(), S(), t, p);
        prio := prio[t := p];
      }
    }
  }

  /** Clearing a link and then storing it, and a neighbour's, in the code's order. */
  lemma Stores(link: seq<Link>, from: Link, to: Link, t: Task, own: Link)
    requires t < |link| && (from.Some? ==> from.value < |link| && from.value != t)
    ensures var own' := link[t := None][t := own]; Rewired(link, from, to, t, own) == if from.Some? then own'[from.value := to] else own'
    ensures own == None ==> Rewired(link, from, to, t, own) == if from.Some? then link[t := None][from.value := to] else link[t := None]
  {
  }

  /** What the stores of enqueue_task amount to. */
  lemma BlockedLast(m: Mem, l: seq<Task>, t: Task)
    requires Threads(m, OnBlocked, l) && t < |m.next| && t !in l
    ensures |m.next| == |m.prev| && m.blocked == First(l)
    ensures l == [] ==> SpliceMem(m, OnBlocked, l, |l|, t) == m.(next := m.next[t := None], prev := m.prev[t := None], blocked := Some(t))
    ensures l != [] ==> var curr := l[|l| - 1];
      curr < |m.next| && SpliceMem(m, OnBlocked, l, |l|, t) == m.(next := m.next[t := None][curr := Some(t)], prev := m.prev[t := None][t := Some(curr)])
  {
    SpliceEnds(l, |l|, t);
    NearKnown(m, OnBlocked, l, |l|);
    if l != [] { assert l[|l| - 1] in l; }
    hide Linked, Distinct, Splice, Rewired;
    Stores(m.next, Last(l), Some(t), t, None);
    Stores(m.prev, None, Some(t), t, Last(l));
  }

  /** Of add_to_delayed_list at the head. */
  lemma DelayedFirst(m: Mem, l: seq<Task>, t: Task, due: seq<nat>)
    requires Threads(m, OnDelayed, l) && t < |m.next| == |due| && t !in l
    ensures |m.next| == |m.prev| && m.delayed == First(l) && (l != [] ==> l[0] < |m.next|)
    ensures l == [] || due[t] < due[l[0]] ==>
      var n, p := m.next[t := None][t := m.delayed], m.prev[t := None];
      && Ahead(l, ByDue(due), ByDue(due)(t)) == 0
      && SpliceMem(m, OnDelayed, l, 0, t) == m.(next := n, prev := if l != [] then p[l[0] := Some(t)] else p, delayed := Some(t))
  {
    NearKnown(m, OnDelayed, l, 0);
    SpliceEnds(l, 0, t);
    if l != [] { assert l[0] in l; }
    hide Linked, Distinct, Splice, Rewired;
    Stores(m.next, None, Some(t), t, First(l));
    Stores(m.prev, First(l), Some(t), t, None);
    if l == [] || due[t] < due[l[0]] { AheadIs(l, ByDue(due), ByDue(due)(t), 0); }
  }

  /** And further down. */
  lemma DelayedBehind(m: Mem, l: seq<Task>, k: nat, t: Task)
    requires Threads(m, OnDelayed, l) && t < |m.next| && t !in l && 0 < k <= |l|
    ensures var cur := l[k - 1];
      && |m.next| == |m.prev| && cur < |m.next| && cur != t
      && var after := m.next[cur];
      && (after.Some? ==> after.value < |m.next|)
      && var n, p := m.next[t := None][t := after], m.prev[t := None][t := Some(cur)];
      SpliceMem(m, OnDelayed, l, k, t) == m.(next := n[cur := Some(t)], prev := if after.Some? then p[after.value := Some(t)] else p)
  {
    NearKnown(m, OnDelayed, l, k - 1);
    SpliceEnds(l, k, t);
    assert l[k - 1] in l && (k < |l| ==> l[k] in l);
    hide Linked, Distinct, Splice, Rewired;
    Stores(m.next, Some(l[k - 1]), Some(t), t, At(l, k));
    Stores(m.prev, At(l, k), Some(t), t, Some(l[k - 1]));
  }

  /** What placing a task comes to, in memory and in the state. */
  lemma PlaceFacts(m: Mem, s: State, t: Task, st: Status)
    requires LawBut(s, Some(t)) && Rep(m, s) && t < |s.prio| && Fits(s, t, st) && (st.Ready? || st.Blocked? || st.Terminated? || st.Delayed?)
    ensures Sizes(s) && |m.next| == |m.prev| == |s.prio| == |s.status| == |s.due| && Law(Place(s, t, st))
    ensures var h := HomeOf(s.prio, s.status[t := st], t); var r := Place(s, t, st);
      && Known(s, h) && Threads(m, h, ListAt(s, h)) && t !in ListAt(s, h)
      && Rep(SpliceMem(m, h, ListAt(s, h), PlaceAt(s, t, st), t), r)
      && r == match h
         case OnReady(p) => s.(status := s.status[t := st], ready := r.ready)
         case OnBlocked => s.(status := s.status[t := st], blocked := r.blocked)
         case OnDelayed => s.(status := s.status[t := st], delayed := r.delayed)
         case Nowhere => s
  {
    RepSizes(m, s);
    PlaceRep(m, s, t, st);
    PlaceLaw(s, t, st);
  }

  /** What taking one off its list comes to. */
  lemma RemoveFacts(m: Mem, s: State, t: Task)
    requires Law(s) && Rep(m, s) && t < |s.prio|
    ensures Sizes(s) && |m.next| == |m.prev| == |s.prio| == |s.status| && LawBut(Remove(s, t), Some(t))
    ensures var h := HomeOf(s.prio, s.status, t); var r := Remove(s, t);
      && (h != Nowhere ==> (
            && Known(s, h) && Threads(m, h, ListAt(s, h)) && t in ListAt(s, h)
            && Rep(CutMem(m, h, ListAt(s, h), Where(ListAt(s, h), t)), r)))
      && r == match h
         case OnReady(p) => s.(ready := r.ready)
         case OnBlocked => s.(blocked := r.blocked)
         case OnDelayed => s.(delayed := r.delayed)
         case Nowhere => s
  {
    RepSizes(m, s);
    RemoveLaw(s, t);
    if HomeOf(s.prio, s.status, t) != Nowhere { RemoveRep(m, s, t); }
  }

  /** What popping the head of a ready list comes to. */
  lemma PopFacts(m: Mem, s: State, p: nat)
    requires Law(s) && Rep(m, s) && p < |s.ready| && s.ready[p] != [] && !s.status[s.current].Running?
    ensures Sizes(s) && |m.next| == |m.prev| == |s.prio| == |s.status| && |m.heads| == |m.tails| == |m.bitmap| == |s.ready|
    ensures var l := s.ready[p];
      && Threads(m, OnReady(p), l) && l[0] < |s.status| && s.status[l[0]].Ready?
      && Law(Pop(s, p)) && Rep(CutMem(m, OnReady(p), l, 0), Pop(s, p))
      && Pop(s, p) == s.(status := s.status[l[0] := Running], ready := Pop(s, p).ready, current := l[0])
  {
    RepSizes(m, s);
    PopLaw(s, p);
    var t := s.ready[p][0];
    RemoveRep(m, s, t);
    OffHead(s.ready[p]);
    SameRep(CutMem(m, OnReady(p), s.ready[p], 0), Remove(s, t), Pop(s, p));
  }

  /** A bit is set exactly when its list has a task. */
  lemma BitsTell(m: Mem, s: State)
    requires Law(s) && Rep(m, s)
    ensures |m.heads| == |m.bitmap| == |s.ready| && forall p :: 0 <= p < |s.ready| ==> m.bitmap[p] == (s.ready[p] != [])
  {
    RepSizes(m, s);
    forall p | 0 <= p < |s.ready| ensures m.bitmap[p] == (s.ready[p] != []) { assert HomeRep(m, s, OnReady(p)); }
  }

  /** The halves of a switch. */
  lemma SwitchFacts(m: Mem, s: State)
    requires Law(s) && Rep(m, s)
    ensures Sizes(s) && |s.status| == |s.prio| && (s.status[s.current].Running? ==> LawBut(s, Some(s.current)))
    ensures Law(Requeue(s)) && s.current < |Requeue(s).status| && !Requeue(s).status[s.current].Running? && Requeue(s).current == s.current
    ensures s.status[s.current].Running? ==> Requeue(s) == Place(s, s.current, Ready)
    ensures !s.status[s.current].Running? ==> Requeue(s) == s
    ensures var s1 := Requeue(s); Highest(s1.ready, |s1.ready|).None? ==> Starved(s) && s1 == s && Rep(m, Switch(s))
  {
    RequeueLaw(s);
    var s1 := Requeue(s);
    if Highest(s1.ready, |s1.ready|).None? {
      StarvedSwitch(s);
      assert s1 == s by { ReadyListed(s1, s.current); }
      SameRep(m, s, Switch(s));
    }
  }

  lemma RolesKnown(s: State)
    requires Law(s)
    ensures Sizes(s) && |s.status| == |s.prio| == |s.waits| && !s.status[s.current].Freed?
    ensures forall t :: 0 <= t < |s.status| && s.status[t].Terminated? ==> !s.waits[t]
  {
  }

  lemma RemoveSame(s: State, t: Task)
    requires Sizes(s) && t < |s.prio|
    ensures var r := Remove(s, t);
      r.waits == s.waits && r.due == s.due && r.status == s.status && r.prio == s.prio && r.current == s.current && Sizes(r) && |r.ready| == |s.ready|
  {
    RemoveWaits(s, t);
    MoveSizes(s, t, Ready);
  }

  /** The running task sets its deadline, and whether it waits. */
  lemma WaitingFacts(m: Mem, s: State, d: nat, w: seq<bool>)
    requires Law(s) && Rep(m, s) && s.current < |s.status| && s.status[s.current].Running?
    requires s.current < |s.waits| == |w| && w == s.waits[s.current := w[s.current]]
    ensures Sizes(s)
    ensures var r := s.(due := s.due[s.current := d], waits := w); LawBut(r, Some(s.current)) && Rep(m, r)
  {
    NowhereLaw(s, s.current);
    var r := s.(due := s.due[s.current := d], waits := w);
    TransitLaw(s, r, s.current);
    SameRep(m, s, r);
  }

  lemma WaitsFacts(m: Mem, s: State, t: Task, w: bool)
    requires Law(s) && Rep(m, s) && t < |s.prio| && (t < |s.status| && s.status[t].Terminated? ==> !w)
    ensures Sizes(s) && Law(s.(waits := s.waits[t := w])) && Rep(m, s.(waits := s.waits[t := w]))
  {
    WaitsLaw(s, t, w);
    SameRep(m, s, s.(waits := s.waits[t := w]));
  }

  lemma Headed(m: Mem, s: State, h: Home)
    requires Law(s) && Rep(m, s) && Known(s, h) && h != Nowhere
    ensures |m.heads| == |s.ready| && Threads(m, h, ListAt(s, h))
    ensures First(ListAt(s, h)) == match h case OnReady(p) => m.heads[p] case OnBlocked => m.blocked case OnDelayed => m.delayed case Nowhere => None
  {
    RepSizes(m, s);
    Threaded(m, s, None, h);
  }

  /** A task that can be seen is current or on a list that is looked at. */
  lemma SeenSomewhere(s: State, t: Task)
    requires Law(s)
    ensures Sizes(s) && (Visible(s, t) <==> t == s.current || t in s.blocked || t in s.delayed || exists p :: 0 <= p < |s.ready| - 1 && t in s.ready[p])
    ensures |s.ready| > 0 && (Visible(s, t) ==> t < |s.status|)
  {
    if t < |s.prio| && s.status[t].Ready? { assert t in s.ready[s.prio[t]]; }
    assert s.prio[s.current] < |s.ready|;
    if p :| 0 <= p < |s.ready| - 1 && t in s.ready[p] { assert HomeOf(s.prio, s.status, t) == OnReady(p); }
  }

  // --- The tick -------------------------------------------------------------------------------------------

  lemma DueFacts(m: Mem, s: State, t: Task)
    requires LawBut(s, Some(t)) && Rep(m, s) && t < |s.prio|
    ensures Sizes(s) && LawBut(s.(due := s.due[t := 0]), Some(t)) && Rep(m, s.(due := s.due[t := 0]))
  {
    var r := s.(due := s.due[t := 0]);
    TransitLaw(s, r, t);
    SameRep(m, s, r);
  }

  /** Nothing has happened to a status but becoming ready. */
  ghost predicate OnlyReady(was: State, s: State) {
    |was.status| == |s.status| && forall t :: 0 <= t < |s.status| ==> s.status[t].Ready? || s.status[t] == was.status[t]
  }

  lemma NotYet(s: State)
    requires Sizes(s)
    ensures OnlyReady(s, s) && !Outranked(s, s)
  {
  }

  lemma OneReady(s0: State, s: State, r: State, t: Task)
    requires OnlyReady(s0, s) && Sizes(s) && Sizes(r) && t < |s.status| && !s.status[t].Ready? && r == Woken(s, t)
    ensures |r.status| == |s.status| == |r.prio| == |r.due| && r.prio == s.prio && r.current == s.current && r.now == s.now
    ensures OnlyReady(s0, r) && (Outranked(s0, r) <==> Outranked(s0, s) || s.prio[t] > s.prio[s.current])
  {
    WokenStatus(s, t);
    WokenSizes(s, t);
    RemoveWaits(s, t);
    hide Woken;
    assert r.status == s.status[t := Ready] && !s0.status[t].Ready?;
    if s.prio[t] > s.prio[s.current] { assert r.status[t].Ready?; }
    if Outranked(s0, s) {
      var u :| 0 <= u < |s.status| && !s0.status[u].Ready? && s.status[u].Ready? && s.prio[u] > s.prio[s.current];
      assert r.status[u].Ready?;
    }
  }

  /** The head of the delayed list, as the loop sees it. */
  lemma Sleeper(m: Mem, s: State)
    requires Law(s) && Rep(m, s)
    ensures Sizes(s) && |s.status| == |s.prio| == |s.due| && m.delayed == First(s.delayed)
    ensures s.delayed != [] ==> s.delayed[0] < |s.status| && s.status[s.delayed[0]].Delayed?
  {
    HeadSleeps(s);
    Threaded(m, s, None, OnDelayed);
  }

  lemma WakeHead(s: State)
    requires Law(s) && Sizes(s) && s.delayed != [] && s.delayed[0] < |s.due| && s.due[s.delayed[0]] <= s.now
    ensures s.delayed[0] < |s.prio| && Sizes(Woken(s, s.delayed[0])) && WakeDue(s) == WakeDue(Woken(s, s.delayed[0]))
    ensures |Woken(s, s.delayed[0]).delayed| < |s.delayed|
  {
    HeadSleeps(s);
    WokenSizes(s, s.delayed[0]);
  }

  lemma Awake(s: State)
    requires Sizes(s) && (s.delayed != [] ==> s.delayed[0] < |s.due| && s.due[s.delayed[0]] > s.now)
    ensures WakeDue(s) == s
  {
  }

  lemma NoneLeft(s: State, walk: seq<Task>)
    requires Sizes(s) && walk == []
    ensures Eject(s, walk) == s
  {
  }

  /** The walk along the blocked list at its next task. */
  lemma Waiter(m: Mem, s: State, kept: seq<Task>, walk: seq<Task>)
    requires Law(s) && Rep(m, s) && s.blocked == kept + walk && walk != []
    ensures Sizes(s) && walk[0] < |s.status| == |m.next| == |s.waits| == |s.due| == |s.prio|
    ensures m.next[walk[0]] == First(walk[1..])
    ensures (s.status[walk[0]].Blocked? || s.status[walk[0]].Terminated?) && (s.waits[walk[0]] ==> s.status[walk[0]].Blocked?)
    ensures Expired(s, walk[0]) <==> s.waits[walk[0]] && s.due[walk[0]] != 0 && s.due[walk[0]] < s.now
  {
    RepSizes(m, s);
    assert Linked(m.next, m.prev, s.blocked) by {
      hide LawBut, Linked;
      assert HomeRep(m, s, OnBlocked);
    }
    assert s.blocked[|kept|] == walk[0] && walk[0] in s.blocked;
    hide Rep;
    assert m.next[walk[0]] == After(s.blocked, |kept|);
  }

  /** What becomes of it. */
  lemma Waits(s: State, kept: seq<Task>, walk: seq<Task>)
    requires Law(s) && Sizes(s) && s.blocked == kept + walk && walk != []
    ensures Expired(s, walk[0]) ==> Sizes(Woken(s, walk[0])) && Woken(s, walk[0]).blocked == kept + walk[1..]
    ensures Expired(s, walk[0]) ==> Eject(s, walk) == Eject(Woken(s, walk[0]), walk[1..])
    ensures !Expired(s, walk[0]) ==> Eject(s, walk) == Eject(s, walk[1..]) && s.blocked == kept + [walk[0]] + walk[1..]
  {
    var t := walk[0];
    assert walk == [t] + walk[1..];
    if Expired(s, t) {
      WokenSizes(s, t);
      ExpiredBlocked(s, t);
      WokenShape(s, t);
      HoldsDistinct(s.blocked, s.prio, s.status, OnBlocked, None);
      hide Woken, LawBut, BecameReady;
      OffMiddle(kept, walk);
    }
  }

  lemma OffMiddle(kept: seq<Task>, walk: seq<Task>)
    requires walk != [] && Distinct(kept + walk)
    ensures Off(kept + walk, walk[0]) == kept + walk[1..]
  {
    var l := kept + walk;
    assert l[|kept|] == walk[0];
    assert Where(l, walk[0]) == |kept|;
    hide Where;
    assert Cut(l, |kept|) == kept + walk[1..];
  }

  lemma ClockFacts(m: Mem, s: State, n: nat)
    requires Law(s) && Rep(m, s)
    ensures Sizes(s) && Law(s.(now := s.now + n)) && Rep(m, s.(now := s.now + n))
  {
    ClockLaw(s, n);
    SameRep(m, s, s.(now := s.now + n));
  }

  lemma BothHalves(s0: State, s1: State, s2: State, s3: State)
    requires s1 == s0.(now := s1.now) && Sizes(s0) && Sizes(s1) && s2 == WakeDue(s1) && Sizes(s2) && Sizes(s3) && s3 == Eject(s2, s2.blocked)
    requires |s1.status| == |s2.status| == |s3.status| && OnlyReady(s1, s2) && OnlyReady(s2, s3)
    ensures Outranked(s0, s3) <==> Outranked(s1, s2) || Outranked(s2, s3)
  {
    WakeDueSizes(s1);
    EjectSizes(s2, s2.blocked);
    hide Eject, WakeDue;
    if Outranked(s1, s2) {
      var u :| 0 <= u < |s2.status| && !s1.status[u].Ready? && s2.status[u].Ready? && s2.prio[u] > s2.prio[s2.current];
      assert s3.status[u].Ready?;
    }
  }

  // --- Birth, death, priority -----------------------------------------------------------------------------

  /** There is something to find only when the count says so. */
  lemma EndedCounted(l: seq<Task>, status: seq<Status>)
    ensures FirstEnded(l, status).Some? ==> Ended(status) > 0
  {
    var e := FirstEnded(l, status);
    if e.Some? { assert status[e.value] in multiset(status); }
  }

  lemma EndedHere(s: State, t: Task)
    requires Law(s) && t < |s.status| && s.status[t].Terminated? && s.current == s.idle && s.status[s.idle].Running?
    ensures t < |s.prio| && t != s.idle && Ended(s.status) > 0
  {
    assert s.status[t] in multiset(s.status);
  }

  lemma FreedFacts(m: Mem, s: State, t: Task)
    requires LawBut(s, Some(t)) && Rep(m, s) && t < |s.prio| && t != s.current && t != s.idle
    ensures Sizes(s) && Place(s, t, Freed) == s.(status := s.status[t := Freed])
    ensures Law(Place(s, t, Freed)) && Rep(m, Place(s, t, Freed))
  {
    PlaceLaw(s, t, Freed);
    SameRep(m, s, Place(s, t, Freed));
  }

  /** A new task, on no list yet. */
  ghost function Grown(s: State, p: nat): State {
    s.(prio := s.prio + [p], status := s.status + [Ready], due := s.due + [0], waits := s.waits + [false])
  }

  lemma GrowFacts(m: Mem, s: State, p: nat)
    requires Law(s) && Rep(m, s) && p < |m.heads|
    ensures |m.heads| == |s.ready| && |s.prio| == |s.status| && Sizes(s) && Ended(Grown(s, p).status) == Ended(s.status)
    ensures LawBut(Grown(s, p), Some(|s.prio|)) && Rep(m.(next := m.next + [None], prev := m.prev + [None]), Grown(s, p))
    ensures Sizes(Grown(s, p)) && Place(Grown(s, p), |s.prio|, Ready) == Create(s, p)
  {
    RepSizes(m, s);
    GrownLaw(s, p);
    GrownRep(m, s, p);
    assert Grown(s, p).status[|s.prio| := Ready] == s.status + [Ready];
  }

  lemma GrownLaw(s: State, p: nat)
    requires Law(s) && p < |s.ready|
    ensures LawBut(Grown(s, p), Some(|s.prio|))
  {
    CreateLaw(s, p);
    RemoveLaw(Create(s, p), |s.prio|);
    var t, c := |s.prio|, Create(s, p);
    assert t !in s.ready[p] by { HoldsDistinct(s.ready[p], s.prio, s.status, OnReady(p), None); }
    OffLast(s.ready[p], t);
    assert Remove(c, t).ready == s.ready;
    assert Remove(c, t) == Grown(s, p);
  }

  lemma {:induction false} OffLast(l: seq<Task>, t: Task)
    requires t !in l
    ensures Off(l + [t], t) == l
  {
    assert (l + [t])[|l|] == t;
    assert Where(l + [t], t) == |l|;
  }

  lemma GrownRep(m: Mem, s: State, p: nat)
    requires Law(s) && Rep(m, s)
    ensures Rep(m.(next := m.next + [None], prev := m.prev + [None]), Grown(s, p))
  {
    var m', r := m.(next := m.next + [None], prev := m.prev + [None]), Grown(s, p);
    hide LawBut;
    forall h | Known(r, h) ensures HomeRep(m', r, h) { assert HomeRep(m, s, h); }
  }

  lemma PrioFacts(m: Mem, s: State, t: Task, p: nat)
    requires LawBut(s, Some(t)) && Rep(m, s) && t < |s.prio| && p < |s.ready|
    ensures Sizes(s) && LawBut(s.(prio := s.prio[t := p]), Some(t)) && Rep(m, s.(prio := s.prio[t := p]))
  {
    var r := s.(prio := s.prio[t := p]);
    TransitLaw(s, r, t);
    SameRep(m, s, r);
  }

  lemma SetPrioFacts(m: Mem, s: State, t: Task, p: nat)
    requires Law(s) && Rep(m, s) && t < |s.prio| && t < |s.status| && !s.status[t].Ready? && p < |s.ready|
    ensures Sizes(s) && Law(s.(prio := s.prio[t := p])) && Rep(m, s.(prio := s.prio[t := p]))
  {
    SetPrioLaw(s, t, p);
    SameRep(m, s, s.(prio := s.prio[t := p]));
  }
}
