/** The wait queues of kernel/ipc.c: most urgent first, first come first served among equals. */
module WaitQueue {
  import opened Lists

  type Task = nat

  /** Priority of every task. */
  type Prios = seq<nat>

  ghost predicate Known(q: seq<Task>, prio: Prios) { forall i :: 0 <= i < |q| ==> q[i] < |prio| }

  /** What a queue is ordered by. */
  ghost function ByPrio(prio: Prios): Task -> int { (t: Task) => if t < |prio| then prio[t] else 0 }

  ghost predicate Sorted(q: seq<Task>, prio: Prios)
    requires Known(q, prio)
  {
    forall i, j :: 0 <= i < j < |q| ==> prio[q[i]] >= prio[q[j]]
  }

  /** Where wait_q_enqueue puts a task: in front if it outranks the head, else behind the run of
      waiters that are at least as urgent. */
  ghost function Place(q: seq<Task>, prio: Prios, t: Task): (k: nat)
    requires Known(q, prio) && t < |prio|
    ensures k <= |q|
  {
    Ahead(q, ByPrio(prio), prio[t])
  }

  ghost function Enqueued(q: seq<Task>, prio: Prios, t: Task): (r: seq<Task>)
    requires Known(q, prio) && t < |prio|
    ensures |r| == |q| + 1
  {
    Insert(q, ByPrio(prio), t)
  }

  /** A sorted queue stays sorted, and the newcomer is behind everybody of its own priority. */
  lemma {:induction false} EnqueuedSorted(q: seq<Task>, prio: Prios, t: Task)
    requires Known(q, prio) && t < |prio| && Sorted(q, prio)
    ensures Known(Enqueued(q, prio, t), prio) && Sorted(Enqueued(q, prio, t), prio)
    ensures var k := Place(q, prio, t);
      && (forall i :: 0 <= i < k ==> prio[q[i]] >= prio[t])
      && (forall i :: k <= i < |q| ==> prio[q[i]] < prio[t])
  {
    EnqueuedMembers(q, prio, t);
    var rank, r := ByPrio(prio), Enqueued(q, prio, t);
    InsertRanked(q, rank, t);
    forall i, j | 0 <= i < j < |r| ensures prio[r[i]] >= prio[r[j]] { assert rank(r[i]) >= rank(r[j]); }
  }

  /** r is q with t put in behind the leading run of tasks at least as urgent. */
  ghost predicate Lined(q: seq<Task>, r: seq<Task>, prio: Prios, t: Task)
    requires Known(q, prio) && t < |prio|
  {
    exists k: nat :: k <= |q| && r == q[..k] + [t] + q[k..] && (forall i :: 0 <= i < k ==> prio[q[i]] >= prio[t]) && (k < |q| ==> prio[q[k]] < prio[t])
  }

  /** That is where a task is put. */
  lemma EnqueuedLines(q: seq<Task>, prio: Prios, t: Task)
    requires Known(q, prio) && t < |prio|
    ensures Lined(q, Enqueued(q, prio, t), prio, t)
  {
    var k := Place(q, prio, t);
    forall i | 0 <= i < k ensures prio[q[i]] >= prio[t] { assert ByPrio(prio)(q[i]) >= prio[t]; }
  }

  /** Inserting adds exactly t. */
  lemma EnqueuedMembers(q: seq<Task>, prio: Prios, t: Task)
    requires Known(q, prio) && t < |prio|
    ensures forall x :: x in Enqueued(q, prio, t) <==> x in q || x == t
    ensures Known(Enqueued(q, prio, t), prio)
    ensures Distinct(q) && t !in q ==> Distinct(Enqueued(q, prio, t))
  {
    var r := Enqueued(q, prio, t);
    InsertMembers(q, ByPrio(prio), t);
    forall i | 0 <= i < |r| ensures r[i] < |prio| { assert r[i] in r; }
  }

  /** wait_q_enqueue's walk. */
  method Enqueue(q: seq<Task>, prio: Prios, t: Task) returns (r: seq<Task>)
    requires Known(q, prio) && t < |prio|
    ensures r == Enqueued(q, prio, t)
  {
    ghost var rank := ByPrio(prio);
    if q == [] || prio[q[0]] < prio[t] {
      AheadIs(q, rank, prio[t], 0);
      return [t] + q;
    }
    var p := 0;
    while p + 1 < |q| && prio[q[p + 1]] >= prio[t]
      invariant p < |q| && forall i :: 0 <= i <= p ==> rank(q[i]) >= prio[t]
    {
      p := p + 1;
    }
    AheadIs(q, rank, prio[t], p + 1);
    r := q[..p + 1] + [t] + q[p + 1..];
  }

  // --- Leaving the queue --------------------------------------------------------------------------

  function Without(q: seq<Task>, t: Task): seq<Task> { WithoutFirst(q, Is(t)) }

  lemma {:induction false} WithoutMembers(q: seq<Task>, t: Task, x: Task)
    requires Distinct(q)
    ensures Distinct(Without(q, t)) && (x in Without(q, t) <==> x in q && x != t)
    ensures |Without(q, t)| == if t in q then |q| - 1 else |q|
  {
    RemovedMembers(q, t);
  }

  lemma {:induction false} WithoutSorted(q: seq<Task>, prio: Prios, t: Task)
    requires Known(q, prio) && Sorted(q, prio)
    ensures Known(Without(q, t), prio) && Sorted(Without(q, t), prio)
    ensures forall i :: 0 <= i < |Without(q, t)| ==> Without(q, t)[i] in q
  {
  }

  /** wait_q_remove, and the same surgery when a timeout ejects a waiter. */
  method Remove(q: seq<Task>, t: Task) returns (r: seq<Task>)
    ensures r == Without(q, t)
  {
    r := Unlink(q, Is(t));
  }
}
