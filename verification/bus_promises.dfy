/** What users of the bus may rely on after any run whatsoever. */
module BusPromises {
  import opened BusState
  import opened BusOps
  import opened BusLoans
  import opened BusAlloc
  import opened BusReaders
  import opened BusDelivery
  import opened BusRuns

  // --- No block is made or lost ---------------------------------------------------------------------

  lemma {:induction false} FreeReadSize(s: State, t: nat)
    requires t < |s.topics|
    ensures |FreeRead(s, t).epoch| == |s.epoch|
    decreases |s.topics[t].queue|
  {
    if s.topics[t].queue != [] && s.topics[t].queue[0].refs == 0 {
      var c := s.topics[t].queue[0].chain;
      FreeChainKeepsQueues(TakeHead(s, t), t, c);
      FreeReadSize(FreeChain(TakeHead(s, t), t, c), t);
    }
  }

  lemma StepSize(s: State, op: Op)
    requires Books(s)
    ensures |Apply(s, op).epoch| == |s.epoch|
  {
    hide Books;
    if !op.DeclareOp? && op.t < |s.topics| && !s.topics[op.t].pipe {
      match op
      case AllocOp(t, n) => AllocBooks(s, t, n);
      case FreeOp(t, chain) => FreeChainKeepsQueues(s, t, chain);
      case UnsubscribeOp(t, i) => if i < |s.topics[t].subs| { FreeReadSize(Detached(s, t, i), t); }
      case _ =>
    }
  }

  lemma {:induction false} RunSize(n: nat, ops: seq<Op>)
    ensures |Run(n, ops).epoch| == n
  {
    if ops != [] {
      RunSize(n, ops[..|ops| - 1]);
      RunsKeepInv(n, ops[..|ops| - 1]);
      StepSize(Run(n, ops[..|ops| - 1]), ops[|ops| - 1]);
    }
  }

  /** After every run each of the n blocks is in exactly one place: the pool, one stash, one queued
      message, one pair of hands, or one ring. Loans balance. */
  lemma {:induction false} BlocksConserved(n: nat, ops: seq<Op>)
    ensures var s := Run(n, ops);
      && (forall b: Block :: Places(s, b) == if b < n then 1 else 0)
      && Total(s) == n
      && SumLent(s.topics) == SumBorrowed(s.topics)
      && forall t :: 0 <= t < |s.topics| ==> |s.topics[t].stash| + s.topics[t].lent <= s.topics[t].reserve
  {
    RunsKeepInv(n, ops);
    RunSize(n, ops);
    var s := Run(n, ops);
    forall t | 0 <= t < |s.topics| ensures |s.topics[t].stash| + s.topics[t].lent <= s.topics[t].reserve {
      assert TopicBooks(s.topics[t]);
    }
  }

  /** The reservation behind cfg.reserve, after every run: whatever other topics borrowed, a topic
      that never borrows and would not hold more than it reserved gets what it asks for. */
  lemma {:induction false} ReservationHolds(n: nat, ops: seq<Op>, t: nat, want: nat)
    requires var s := Run(n, ops);
      && t < |s.topics| && !s.topics[t].pipe && s.topics[t].overflow.Drop?
      && Recallable(s) && Held(s.topics[t]) + want <= s.topics[t].reserve
    ensures var r := Alloc(Run(n, ops), t, want); r.chain.Some? && |r.chain.value| == want
  {
    RunsKeepInv(n, ops);
    ReservationGuarantee(Run(n, ops), t, want);
  }

  /** Every reader, after every run. */
  lemma {:induction false} DeliveryHolds(n: nat, ops: seq<Op>, t: nat, i: nat)
    requires t < |Run(n, ops).topics| && i < |Run(n, ops).topics[t].subs|
    ensures var x := Run(n, ops).topics[t]; var u := x.subs[i];
      && (forall k :: 0 <= k < |u.got| ==> u.got[k].seqno < |x.log| && u.got[k].data == x.log[u.got[k].seqno])
      && (forall k, l :: 0 <= k < l < |u.got| ==> u.got[k].seqno < u.got[l].seqno)
      && u.start + SumSteps(u.got) == u.awaits
      && (forall k :: u.start <= k < u.cur ==> k in x.evicted || exists j :: 0 <= j < |u.got| && u.got[j].seqno == k)
      && (x.overflow.Drop? ==> u.awaits == u.cur && forall k :: 0 <= k < |u.got| ==> u.got[k].missed == 0)
  {
    RunsKeepInv(n, ops);
    var s := Run(n, ops);
    assert TopicLaw(s, s.topics[t]);
    ReaderPromise(s, s.topics[t], i);
  }

  /** References and pins, after every run: a message is owed to exactly the readers at or before it,
      never to nobody, and to no fewer readers than an older one. */
  lemma {:induction false} ReferencesHold(n: nat, ops: seq<Op>, t: nat, i: nat, j: nat)
    requires t < |Run(n, ops).topics| && i <= j < |Run(n, ops).topics[t].queue|
    ensures var x := Run(n, ops).topics[t];
      && x.queue[i].refs == Waiting(x.subs, x.queue[i].seqno) > 0
      && x.queue[i].pins == Peeking(x.subs, x.queue[i].seqno)
      && x.queue[i].refs <= x.queue[j].refs
  {
    RunsKeepInv(n, ops);
    var s := Run(n, ops);
    assert TopicLaw(s, s.topics[t]) && MsgLaw(s.topics[t], i);
    RefsGrow(s.topics[t], i, j);
  }

  /** A peek is safe: while it is open its message is pinned, so it can be neither evicted nor freed by
      others. */
  lemma PeekedStays(s: State, t: nat, i: nat)
    requires Inv(s) && t < |s.topics| && i < |s.topics[t].subs| && s.topics[t].subs[i].peeked
    ensures HasNext(s.topics[t], i) && Next(s.topics[t], i).pins > 0 && Next(s.topics[t], i).refs > 0
    ensures s.topics[t].subs[i].cur == s.topics[t].Base() ==> !CanEvict(s, t)
  {
    var x := s.topics[t];
    assert TopicLaw(s, x) && CursorLaw(x, x.subs[i]);
    assert MsgLaw(x, x.subs[i].cur - x.Base());
    Counted(x.subs, i, x.subs[i].cur);
  }
}
