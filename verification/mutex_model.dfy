/** Mutexes with priority inheritance (kernel/ipc.c): ownership, wait queues, held lists and the
    binary count of every mutex; who waits for what at which priority. A lock call is one step: in
    handler mode nothing comes between its inheritance walk and its take. */
module MutexModel {
  import opened Lists
  import opened WaitQueue

  type Mutex = nat

  const MAX_PI_DEPTH: nat := 4

  datatype State = State(
    base: Prios, prio: Prios, waits: seq<Option<Mutex>>, held: seq<seq<Mutex>>,
    owner: seq<Option<Task>>, queue: seq<seq<Task>>, count: seq<nat>)

  ghost predicate Sizes(s: State) {
    && |s.base| == |s.prio| == |s.waits| == |s.held|
    && |s.owner| == |s.queue| == |s.count|
  }

  /** What task t holds: no mutex twice, and each is owned by t. */
  ghost predicate HeldOk(h: seq<Mutex>, owner: seq<Option<Task>>, t: Task) {
    Distinct(h) && forall m :: m in h ==> m < |owner| && owner[m] == Some(t)
  }

  /** Who owns mutex m: a task that has it on its held list; its count is 1 exactly when nobody does. */
  ghost predicate OwnerOk(o: Option<Task>, count: nat, held: seq<seq<Mutex>>, m: Mutex) {
    && (o.Some? ==> o.value < |held| && m in held[o.value])
    && count == if o.None? then 1 else 0
  }

  /** A mutex is on a task's held list, once, exactly when that task owns it; its count is 1 exactly
      when nobody does. */
  ghost predicate Owned(s: State)
    requires Sizes(s)
  {
    && (forall t :: 0 <= t < |s.held| ==> HeldOk(s.held[t], s.owner, t))
    && (forall m :: 0 <= m < |s.owner| ==> OwnerOk(s.owner[m], s.count[m], s.held, m))
  }

  /** The queue of mutex m: tasks that wait for it, none twice; empty unless somebody owns it. */
  ghost predicate QueueOk(q: seq<Task>, waits: seq<Option<Mutex>>, o: Option<Task>, m: Mutex) {
    && Distinct(q) && (forall i :: 0 <= i < |q| ==> q[i] < |waits|)
    && (forall t :: t in q ==> t < |waits| && waits[t] == Some(m))
    && (q != [] ==> o.Some?)
  }

  /** What task t waits for: a mutex that has it in its queue, and that it does not own. */
  ghost predicate WaitOk(w: Option<Mutex>, queue: seq<seq<Task>>, owner: seq<Option<Task>>, t: Task) {
    w.Some? ==> w.value < |queue| && w.value < |owner| && t in queue[w.value] && owner[w.value] != Some(t)
  }

  /** A task is in the queue of the mutex it waits for, once, and in no other; only a mutex that
      somebody else owns has waiters. */
  ghost predicate Queued(s: State)
    requires Sizes(s)
  {
    && (forall m :: 0 <= m < |s.queue| ==> QueueOk(s.queue[m], s.waits, s.owner[m], m))
    && (forall t :: 0 <= t < |s.waits| ==> WaitOk(s.waits[t], s.queue, s.owner, t))
  }

  ghost predicate Inv(s: State) { Sizes(s) && Owned(s) && Queued(s) }

  // --- The inheritance walk -------------------------------------------------------------------------

  ghost function Below(prio: Prios, p: nat): nat {
    if prio == [] then 0 else (if prio[0] < p then 1 else 0) + Below(prio[1..], p)
  }

  lemma {:induction false} BoostShrinks(prio: Prios, p: nat, o: nat)
    requires o < |prio| && prio[o] < p
    ensures Below(prio[o := p], p) + 1 == Below(prio, p)
  {
    if o == 0 {
      assert prio[o := p][1..] == prio[1..];
    } else {
      BoostShrinks(prio[1..], p, o - 1);
      assert prio[o := p][1..] == prio[1..][o - 1 := p];
    }
  }

  datatype Walked = Walked(prio: Prios) | Panic

  /** Is the owner of m outranked by p? */
  predicate Outranked(s: State, prio: Prios, m: Mutex, p: nat) {
    m < |s.owner| && s.owner[m].Some? && s.owner[m].value < |prio| && prio[s.owner[m].value] < p
  }

  /** Boost the owner of m, then the owner of what that one waits for, and so on, while they are
      outranked. Every hop lifts one more task to p, which is why it ends even on a cycle. */
  ghost function Walk(s: State, prio: Prios, m: Mutex, p: nat, depth: nat): (r: Walked)
    ensures r.Walked? ==> |r.prio| == |prio|
    decreases Below(prio, p)
  {
    if !Outranked(s, prio, m, p) then Walked(prio)
    else if depth + 1 > MAX_PI_DEPTH then Panic
    else
      var o := s.owner[m].value;
      BoostShrinks(prio, p, o);
      if o >= |s.waits| || s.waits[o].None? then Walked(prio[o := p])
      else Walk(s, prio[o := p], s.waits[o].value, p, depth + 1)
  }

  /** Every owner is at least as urgent as each of its waiters. */
  ghost predicate MutexLaw(s: State, prio: Prios, m: Mutex)
    requires Sizes(s) && m < |s.queue| && |prio| == |s.prio|
  {
    s.owner[m].Some? && s.owner[m].value < |prio| ==>
      forall i :: 0 <= i < |s.queue[m]| && s.queue[m][i] < |prio| ==> prio[s.owner[m].value] >= prio[s.queue[m][i]]
  }

  ghost predicate Law(s: State)
    requires Sizes(s)
  {
    forall m :: 0 <= m < |s.queue| ==> MutexLaw(s, s.prio, m)
  }

  // --- Operations -----------------------------------------------------------------------------------

  datatype Outcome = Granted | Refused | Parked | Panicked

  /** An uncontended take: the task owns the mutex. */
  function Acquire(s: State, t: Task, m: Mutex): State
    requires t < |s.held| && m < |s.owner| && m < |s.count|
  {
    s.(count := s.count[m := 0], owner := s.owner[m := Some(t)], held := s.held[t := [m] + s.held[t]])
  }

  ghost function Park(s: State, t: Task, m: Mutex): State
    requires t < |s.waits| && t < |s.prio| && m < |s.queue| && Known(s.queue[m], s.prio)
  {
    s.(queue := s.queue[m := Enqueued(s.queue[m], s.prio, t)], waits := s.waits[t := Some(m)])
  }

  ghost predicate CanLock(s: State, t: Task, m: Mutex) {
    t < |s.waits| && m < |s.owner| && s.waits[t].None? && s.owner[m] != Some(t)
  }

  datatype Locked = Locked(s: State, outcome: Outcome)

  /** mutex_lock_common: inherit, then take, give up, or wait. */
  ghost function Lock(s: State, t: Task, m: Mutex, wait: bool): Locked
    requires Inv(s) && CanLock(s, t, m)
  {
    match Walk(s, s.prio, m, s.prio[t], 0)
    case Panic => Locked(s, Panicked)
    case Walked(prio) =>
      var s1 := s.(prio := prio);
      if s.count[m] > 0 then Locked(Acquire(s1, t, m), Granted)
      else if !wait then Locked(s1, Refused)
      else Locked(Park(s1, t, m), Parked)
  }

  /** The mutex goes straight to the first waiter, or is free. */
  function HandOff(s: State, m: Mutex): State
    requires m < |s.owner| && m < |s.queue| && m < |s.count|
  {
    if s.queue[m] == [] then s.(owner := s.owner[m := None], count := s.count[m := s.count[m] + 1])
    else
      var w := s.queue[m][0];
      if w < |s.waits| && w < |s.held| then
        s.(queue := s.queue[m := s.queue[m][1..]], waits := s.waits[w := None],
           owner := s.owner[m := Some(w)], held := s.held[w := [m] + s.held[w]])
      else s
  }

  function Release(s: State, t: Task, m: Mutex): State
    requires t < |s.held| && m < |s.owner| && m < |s.queue| && m < |s.count|
  {
    HandOff(s.(held := s.held[t := Without(s.held[t], m)]), m)
  }

  function Top(s: State, m: Mutex): nat {
    if m < |s.queue| && s.queue[m] != [] && s.queue[m][0] < |s.prio| then s.prio[s.queue[m][0]] else 0
  }

  /** A base priority, raised to the first waiter of every mutex on the list. */
  function Raised(s: State, base: nat, held: seq<Mutex>): (p: nat)
    ensures p >= base
    ensures forall i :: 0 <= i < |held| ==> p >= Top(s, held[i])
    ensures p == base || exists i :: 0 <= i < |held| && p == Top(s, held[i])
  {
    if held == [] then base
    else
      var k := |held| - 1;
      var p := Raised(s, base, held[..k]);
      assert forall i :: 0 <= i < k ==> held[..k][i] == held[i];
      if Top(s, held[k]) > p then Top(s, held[k]) else p
  }

  /** The owner's priority once it no longer has m. */
  function Settled(s: State, t: Task, m: Mutex): nat
    requires t < |s.base| && t < |s.held|
  {
    Raised(s, s.base[t], Without(s.held[t], m))
  }

  /** mutex_unlock_common, by its owner. */
  function Unlock(s: State, t: Task, m: Mutex): State
    requires t < |s.base| && t < |s.held| && t < |s.prio| && m < |s.owner| && m < |s.queue| && m < |s.count|
  {
    Release(s.(prio := s.prio[t := Settled(s, t, m)]), t, m)
  }

  /** A waiter leaves: its timeout expired, or it died. */
  function Leave(s: State, t: Task): State
    requires t < |s.waits|
  {
    if s.waits[t].Some? && s.waits[t].value < |s.queue| then
      var m := s.waits[t].value;
      s.(queue := s.queue[m := Without(s.queue[m], t)], waits := s.waits[t := None])
    else s
  }
}
