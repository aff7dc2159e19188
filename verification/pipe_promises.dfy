/** What a pipe promises its two users, after any interleaving of their steps. */
module PipePromises {
  import opened Lists
  import opened Modular
  import opened PipeModel
  import opened PipeProof

  /** Message k is always in slot k mod depth, for the writer and for the reader. */
  lemma {:induction false} SlotsInOrder(overflow: Overflow, n: nat, room: nat, ops: seq<Op>)
    requires n > 0
    ensures var s := Run(overflow, n, room, ops);
      && |s.ring.slots| == n
      && (!s.ring.prod.Bumped? ==> s.ring.pw == s.ring.w % n)
      && (s.reader.Some? ==> var u := s.reader.value;
        u.expected <= s.ring.w && u.cursor == if u.late && n > 1 then (u.expected + n - 1) % n else u.expected % n)
  {
    hide Progress, Keeps, Lossless, ConsLaw, Delivered, FitLaw, StampsHome, AllLost, Run;
    RunsKeepInv(overflow, n, room, ops);
    KeepsDepth(overflow, n, room, ops);
  }

  lemma {:induction false} KeepsDepth(overflow: Overflow, n: nat, room: nat, ops: seq<Op>)
    ensures var s := Run(overflow, n, room, ops); |s.ring.slots| == n && s.ring.overflow == overflow
  {
    if ops != [] {
      KeepsDepth(overflow, n, room, ops[..|ops| - 1]);
      StepDepth(Run(overflow, n, room, ops[..|ops| - 1]), ops[|ops| - 1]);
    }
  }

  lemma StepDepth(s: State, op: Op)
    ensures |Apply(s, op).ring.slots| == |s.ring.slots| && Apply(s, op).ring.overflow == s.ring.overflow
  {
  }

  ghost function SumSteps(got: seq<Delivery>): nat {
    if got == [] then 0 else SumSteps(got[..|got| - 1]) + 1 + got[|got| - 1].missed
  }

  lemma {:induction false} StepsAdd(s: Ring, u: Reader, k: nat)
    requires k <= |u.got| && forall i :: 0 <= i < |u.got| ==> Delivered(s, u, i)
    ensures Due(u, k) == u.start + SumSteps(u.got[..k])
  {
    if k > 0 {
      StepsAdd(s, u, k - 1);
      assert u.got[..k][..k - 1] == u.got[..k - 1];
      assert Delivered(s, u, k - 1);
    } else {
      assert u.got[..0] == [];
    }
  }

  /** Everything delivered so far. */
  ghost predicate Exact(s: Ring, u: Reader, i: nat)
    requires i < |u.got|
  {
    var d := u.got[i];
    && d.seqno == Due(u, i) + d.missed && d.seqno < |s.msgs|
    && (d.Whole? ==> d.data == s.msgs[d.seqno])
    && (d.Viewed? ==> d.data <= s.msgs[d.seqno])
    && (d.Stale? <==> Reclaimed(d.at, |s.slots|, d.seqno))
    && forall k: nat :: Due(u, i) <= k < d.seqno ==> Reclaimed(d.at, |s.slots|, k)
  }

  /** Nothing the reader gets is torn, in either kind of pipe: a message copied out is the message
      that was published under its number, and a good view shows nothing else. `missed` is exact: the
      messages in between had been reclaimed by then, the one delivered had not; a view is reported
      stale exactly when its slot had been. Misses and messages add up to how far the reader is. */
  lemma {:induction false} NeverTorn(overflow: Overflow, n: nat, room: nat, ops: seq<Op>, s: Ring, u: Reader)
    requires n > 0 && Run(overflow, n, room, ops) == State(s, Some(u))
    ensures forall i :: 0 <= i < |u.got| ==> Exact(s, u, i)
    ensures u.start + SumSteps(u.got) + Missing(u) == u.expected
  {
    RunsKeepInv(overflow, n, room, ops);
    if !Astray(s, u) { StepsAdd(s, u, |u.got|); }
    assert u.got[..|u.got|] == u.got;
    forall i | 0 <= i < |u.got| ensures Exact(s, u, i) { assert Delivered(s, u, i); }
  }

  /** A drop pipe is a lossless queue: the i-th thing the reader gets is the i-th message since it
      attached, nothing is missed and no view goes stale, and all it has not read is still there. */
  lemma {:induction false} DropIsLossless(n: nat, room: nat, ops: seq<Op>, s: Ring, u: Reader)
    requires n > 0 && Run(Drop, n, room, ops) == State(s, Some(u))
    ensures forall i :: 0 <= i < |u.got| ==> u.got[i].seqno == u.start + i && u.got[i].missed == 0 && !u.got[i].Stale?
    ensures |s.slots| == n && u.expected == u.start + |u.got| && s.w - u.expected <= n
    ensures forall k: nat :: u.expected <= k < s.w ==> Holds(s, k)
  {
    RunsKeepInv(Drop, n, room, ops);
    KeepsDepth(Drop, n, room, ops);
    forall i | 0 <= i < |u.got| ensures u.got[i].seqno == u.start + i && u.got[i].missed == 0 && !u.got[i].Stale? {
      InOrder(s, u, i);
    }
  }

  lemma {:induction false} InOrder(s: Ring, u: Reader, i: nat)
    requires s.overflow.Drop? && i < |u.got| && forall k :: 0 <= k < |u.got| ==> Delivered(s, u, k)
    ensures u.got[i].seqno == u.start + i && u.got[i].missed == 0 && !u.got[i].Stale?
  {
    assert Delivered(s, u, i);
    if i > 0 { InOrder(s, u, i - 1); }
  }

  /** The slots of unread and peeked messages of a drop pipe are never written to. */
  lemma {:induction false} UnreadUntouched(s: State, op: Op, k: nat)
    requires Inv(s) && s.ring.overflow.Drop? && s.reader.Some? && s.reader.value.expected <= k < s.ring.w
    ensures |Apply(s, op).ring.slots| == |s.ring.slots| > 0 && At(Apply(s, op).ring, k) == At(s.ring, k)
  {
    var r, t := s.ring, Apply(s, op).ring;
    if t.slots != r.slots && ProducerOp(op) && !op.Advance? && !op.Bump? && !op.Cancel? {
      WriteLaw(r, s.reader, op);
      OtherSlot(r, s.reader.value, k);
    }
  }

  // --- The fast path ----------------------------------------------------------------------------------

  /** pipe_next looks at the next message exactly when it is published and less than a ring has come
      since, and whatever the producer does before it loads the stamp, it takes the message exactly if the
      slot was not handed out again by then, like pipe_read from the same place at the same moments.
      Otherwise it leaves the whole search to pipe_read. */
  lemma {:induction false} FastAgrees(s: Ring, t: Ring, u: Reader, view: bool)
    requires RingLaw(s) && ReaderLaw(s, u) && u.cons == Scan(true, view, u.expected, u.cursor)
    requires RingLaw(t) && Lossless(t, u) && s.w <= t.w && |t.slots| == |s.slots|
    ensures u.cursor < |t.slots|
    ensures var slow := u.(cons := Scan(false, view, u.expected, u.cursor));
      var v, w := ScanStep(s, u), ScanStep(s, slow);
      if u.expected < s.w <= u.expected + |s.slots| then
        && v.cons.Look? && w.cons.Look?
        && (!Lost(t, u.expected) ==> LookStep(t, v).cons == Measure(true, view, u.expected, u.cursor)
                                     && LookStep(t, w).cons == Measure(false, view, u.expected, u.cursor))
        && (Lost(t, u.expected) ==> LookStep(t, v) == slow)
      else v == slow
  {
    if u.expected < s.w { Unread(t, u, u.expected); }
  }

  /** From the same length on the two paths make the same copy and the same delivery. */
  lemma {:induction false} FastDelivers(s: Ring, u: Reader)
    requires RingLaw(s) && ReaderLaw(s, u) && u.cons.Copy? && u.cons.fast && u.cons.len == |u.cons.buf|
    requires !Lost(s, u.cons.r)
    ensures var slow := u.(cons := u.cons.(fast := false));
      ConsStep(s, u) == ConsStep(s, slow) && |ConsStep(s, u).got| == |u.got| + 1
      && ConsStep(s, u).got[|u.got|].missed == 0
  {
    Unread(s, u, u.cons.r);
  }

  // --- What fits ----------------------------------------------------------------------------------------

  /** What a pop delivers fits the buffer it was given, and so does every byte copied on the way, unless
      v_bus_pop is copying from a slot that an overwriting producer has handed out again. */
  lemma {:induction false} CopiesFit(overflow: Overflow, n: nat, room: nat, ops: seq<Op>, s: Ring, u: Reader)
    requires n > 0 && Run(overflow, n, room, ops) == State(s, Some(u))
    ensures forall i :: 0 <= i < |u.got| && u.got[i].Whole? ==> |u.got[i].data| <= u.got[i].cap
    ensures u.cons.Copy? && (!u.cons.fast || overflow.Drop? || !Lost(s, u.cons.r)) ==> |u.cons.buf| <= u.cons.len <= u.cap
  {
    RunsKeepInv(overflow, n, room, ops);
    KeepsDepth(overflow, n, room, ops);
    if u.cons.Copy? { Unread(s, u, u.cons.r); }
  }

  // --- Attaching ----------------------------------------------------------------------------------------

  /** A reader may attach at any moment but one: between the store of next_seq and the move of
      pipe_wr it starts out with a cursor one slot behind its number. */
  lemma {:induction false} AttachExactly(s: Ring)
    requires RingLaw(s)
    ensures ReaderLaw(s, Join(s)) <==> !s.prod.Bumped? || |s.slots| == 1
  {
    var n := |s.slots|;
    if s.prod.Bumped? && n > 1 {
      ModApart(s.w, s.w + n - 1, n);
    }
    if s.prod.Bumped? && n == 1 { assert s.w % 1 == 0 && s.pw == 0; }
  }

  /** A reader that attached then, to a ring of more than one slot, never gets anything, and never
      moves: all it ever does is look for messages in the slots before theirs. On a drop pipe the
      producer gets no further than a ring beyond it. */
  lemma {:induction false} LateGetsNothing(overflow: Overflow, n: nat, room: nat, ops: seq<Op>, s: Ring, u: Reader)
    requires n > 1 && Run(overflow, n, room, ops) == State(s, Some(u)) && u.late
    ensures u.got == [] && u.expected == u.start <= s.w && (u.cons.Away? || u.cons.Scan? || u.cons.Look?)
    ensures overflow.Drop? ==> s.w <= u.start + n && (s.w == u.start + n ==> Full(s, Some(u)))
  {
    RunsKeepInv(overflow, n, room, ops);
    KeepsDepth(overflow, n, room, ops);
  }

  /** Once it is that far it is full for good: as long as that reader stays, no message is accepted. */
  lemma {:induction false} LateStaysFull(n: nat, room: nat, ops: seq<Op>, more: seq<Op>)
    requires n > 1 && Unsubscribe !in more
    requires var s := Run(Drop, n, room, ops); s.reader.Some? && s.reader.value.late && s.ring.w == s.reader.value.start + n
    ensures var s, t := Run(Drop, n, room, ops), Run(Drop, n, room, ops + more);
      && t.ring.w == s.ring.w && t.ring.msgs == s.ring.msgs
      && t.reader.Some? && t.reader.value.late && t.reader.value.start == s.reader.value.start && t.reader.value.got == []
    decreases |more|
  {
    hide Inv, Apply, Full, Lossless;
    if more == [] {
      assert ops + more == ops;
      var s := Run(Drop, n, room, ops);
      LateGetsNothing(Drop, n, room, ops, s.ring, s.reader.value);
    } else {
      var less := more[..|more| - 1];
      LateStaysFull(n, room, ops, less);
      assert (ops + more)[..|ops + more| - 1] == ops + less;
      assert more[|more| - 1] in more;
      var t := Run(Drop, n, room, ops + less);
      RunsKeepInv(Drop, n, room, ops + less);
      KeepsDepth(Drop, n, room, ops + less);
      StepInv(t, more[|more| - 1]);
      FullStep(t, more[|more| - 1]);
    }
  }

  lemma FullStep(s: State, op: Op)
    requires Inv(s) && s.ring.overflow.Drop? && |s.ring.slots| > 1 && op != Unsubscribe && Inv(Apply(s, op))
    requires s.reader.Some? && s.reader.value.late && s.ring.w == s.reader.value.start + |s.ring.slots|
    ensures var t := Apply(s, op);
      && t.ring.w == s.ring.w && t.ring.msgs == s.ring.msgs && |t.ring.slots| == |s.ring.slots|
      && t.reader.Some? && t.reader.value.late && t.reader.value.start == s.reader.value.start && t.reader.value.got == []
  {
    StepDepth(s, op);
    Same(s.ring, s.reader, s.reader.value, op);
    assert Full(s.ring, s.reader) && !s.ring.Busy();
    hide RingLaw, StampsHome, Lossless;
  }
}
