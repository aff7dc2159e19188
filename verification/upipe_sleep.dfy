/** Both ends of a upipe, step by step: the ring, the sleep flags, the kernel's wake tokens, and
    tasks that park and are woken. Steps of the two ends interleave freely; each step is one load or
    store of shared memory, or one kernel call on a wake semaphore. */
module UpipeSleep {
  import opened Lists
  import opened Modular
  import opened UpipeRing
  import opened Upipe

  /** Where one end is: idle, using a slot; past its index bump and about to look at the peer's flag,
      about to kick; flag raised and about to recheck, about to trap into v_upipe_sleep, in it and
      about to take the token, parked on it, on the way out. */
  datatype End = Idle | Using | Bumped | Kicking | Flagged | Asking | Taking | Parked | Leaving

  /** The shared ring. `wrote` and `read` count commits and releases without wrapping; `sent` and
      `got` are what was committed and what was read. */
  datatype Ring = Ring(exp: nat, wr: nat, rd: nat, slots: seq<Slot>, wrote: nat, read: nat, sent: seq<Slot>, got: seq<Slot>)

  datatype State = State(
    ring: Ring, prod: End, cons: End, flagW: bool, flagR: bool, tokenW: bool, tokenR: bool, look: Option<Slot>)

  datatype Act = Begin | Touch(x: Slot) | Bump | Check | Kick | Raise | Recheck | Ask | Take | GiveUp | Lower

  function N(r: Ring): nat { Pow2(r.exp) }

  predicate Sane(r: Ring) { r.wr < TWO32 && r.rd < TWO32 && |r.slots| == N(r) }

  predicate Full(r: Ring)
    requires Sane(r)
  {
    Sub32(r.wr, r.rd) >= N(r)
  }

  function At(r: Ring, i: nat): (k: nat)
    requires Sane(r)
    ensures k < |r.slots|
  {
    Masked(i, r.exp);
    And(i, N(r) - 1)
  }

  function Fill(r: Ring, x: Slot): Ring
    requires Sane(r)
  {
    r.(slots := r.slots[At(r, r.wr) := x])
  }

  function Commit(r: Ring): Ring
    requires Sane(r)
  {
    r.(wr := Inc32(r.wr), wrote := r.wrote + 1, sent := r.sent + [r.slots[At(r, r.wr)]])
  }

  function Release(r: Ring, x: Slot): Ring
    requires Sane(r)
  {
    r.(rd := Inc32(r.rd), read := r.read + 1, got := r.got + [x])
  }

  /** The producer: reserve, fill, commit, and wait. */
  function Produce(s: State, a: Act): State
    requires Sane(s.ring)
  {
    match a
    case Begin => if s.prod.Idle? && !Full(s.ring) then s.(prod := Using) else s
    case Touch(x) => if s.prod.Using? then s.(ring := Fill(s.ring, x)) else s
    case Bump =>
      if s.prod.Using? then s.(prod := Bumped, ring := Commit(s.ring)) else s
    case Check => if s.prod.Bumped? then s.(prod := if s.flagR then Kicking else Idle) else s
    case Kick =>
      if s.prod.Kicking?
      then (if s.cons.Parked? then s.(prod := Idle, cons := Leaving) else s.(prod := Idle, tokenR := true))
      else s
    case Raise => if s.prod.Idle? then s.(prod := Flagged, flagW := true) else s
    case Recheck => if s.prod.Flagged? then s.(prod := if Full(s.ring) then Asking else Leaving) else s
    case Ask => if s.prod.Asking? then s.(prod := if Full(s.ring) then Taking else Leaving) else s
    case Take =>
      if s.prod.Taking? then (if s.tokenW then s.(prod := Leaving, tokenW := false) else s.(prod := Parked)) else s
    case GiveUp => if s.prod.Parked? || s.prod.Taking? then s.(prod := Leaving) else s
    case Lower => if s.prod.Leaving? then s.(prod := Idle, flagW := false) else s
  }

  /** The consumer: peek, read, release, and wait. */
  function Consume(s: State, a: Act): State
    requires Sane(s.ring)
  {
    match a
    case Begin => if s.cons.Idle? && s.ring.wr != s.ring.rd then s.(cons := Using, look := None) else s
    case Touch(_) => if s.cons.Using? then s.(look := Some(s.ring.slots[At(s.ring, s.ring.rd)])) else s
    case Bump =>
      if s.cons.Using? && s.look.Some?
      then s.(cons := Bumped, ring := Release(s.ring, s.look.value))
      else s
    case Check => if s.cons.Bumped? then s.(cons := if s.flagW then Kicking else Idle) else s
    case Kick =>
      if s.cons.Kicking?
      then (if s.prod.Parked? then s.(cons := Idle, prod := Leaving) else s.(cons := Idle, tokenW := true))
      else s
    case Raise => if s.cons.Idle? then s.(cons := Flagged, flagR := true) else s
    case Recheck => if s.cons.Flagged? then s.(cons := if s.ring.wr == s.ring.rd then Asking else Leaving) else s
    case Ask => if s.cons.Asking? then s.(cons := if s.ring.wr == s.ring.rd then Taking else Leaving) else s
    case Take =>
      if s.cons.Taking? then (if s.tokenR then s.(cons := Leaving, tokenR := false) else s.(cons := Parked)) else s
    case GiveUp => if s.cons.Parked? || s.cons.Taking? then s.(cons := Leaving) else s
    case Lower => if s.cons.Leaving? then s.(cons := Idle, flagR := false) else s
  }

  datatype Op = P(act: Act) | C(act: Act)

  function Apply(s: State, op: Op): State
    requires Sane(s.ring)
  {
    match op
    case P(a) => Produce(s, a)
    case C(a) => Consume(s, a)
  }

  // --- The invariant --------------------------------------------------------------------------------

  ghost predicate RingLaw(r: Ring) {
    && Sane(r) && 1 <= r.exp <= 15
    && r.wr == r.wrote % TWO32 && r.rd == r.read % TWO32
    && r.read <= r.wrote <= r.read + N(r) && |r.sent| == r.wrote && r.got == r.sent[..r.read]
    && forall j :: r.read <= j < r.wrote ==> r.slots[j % N(r)] == r.sent[j]
  }

  ghost predicate UseLaw(s: State)
    requires RingLaw(s.ring)
  {
    && (s.prod.Using? ==> s.ring.wrote < s.ring.read + N(s.ring))
    && (s.cons.Using? ==> s.ring.read < s.ring.wrote && (s.look.Some? ==> s.look.value == s.ring.sent[s.ring.read]))
  }

  predicate Waiting(e: End) { e.Flagged? || e.Asking? || e.Taking? || e.Parked? || e.Leaving? }

  predicate Sleepy(e: End) { e.Asking? || e.Taking? || e.Parked? }

  predicate AboutToKick(e: End) { e.Bumped? || e.Kicking? }

  /** An end that has decided to sleep has its flag up; and if there is something for it after all,
      the peer is on its way to kick, or the token is already there. */
  ghost predicate SleepLaw(s: State) {
    && (s.flagW <==> Waiting(s.prod)) && (s.flagR <==> Waiting(s.cons))
    && (s.cons.Parked? ==> !s.tokenR) && (s.prod.Parked? ==> !s.tokenW)
    && (Sleepy(s.cons) ==> s.ring.wrote == s.ring.read || AboutToKick(s.prod) || s.tokenR)
    && (Sleepy(s.prod) ==> s.ring.wrote == s.ring.read + N(s.ring) || AboutToKick(s.cons) || s.tokenW)
  }

  ghost predicate Inv(s: State) { RingLaw(s.ring) && UseLaw(s) && SleepLaw(s) }

  /** What the 32-bit tests decide. */
  lemma Tests(r: Ring)
    requires RingLaw(r)
    ensures Sane(r) && r.read <= r.wrote == |r.sent| && r.wrote <= r.read + N(r)
    ensures Full(r) <==> r.wrote == r.read + N(r)
    ensures r.wr == r.rd <==> r.wrote == r.read
    ensures At(r, r.wr) == r.wrote % N(r) && At(r, r.rd) == r.read % N(r)
    ensures r.read < r.wrote ==> r.slots[At(r, r.rd)] == r.sent[r.read]
  {
    InUse(r.wrote, r.read, N(r), r.exp);
    SameIndex(r.wrote, r.read, N(r));
    SlotOf(r.wrote, r.exp);
    SlotOf(r.read, r.exp);
  }

  lemma Committed(r: Ring)
    requires RingLaw(r) && r.wrote < r.read + N(r)
    ensures RingLaw(Commit(r))
  {
    hide And, Pow2;
    Tests(r);
    IncMod(r.wrote);
    assert Commit(r).sent[..r.read] == r.sent[..r.read];
  }

  lemma Filled(r: Ring, x: Slot)
    requires RingLaw(r) && r.wrote < r.read + N(r)
    ensures RingLaw(Fill(r, x))
  {
    hide And, Pow2;
    Tests(r);
    forall j | r.read <= j < r.wrote ensures j % N(r) != r.wrote % N(r) { ModApart(j, r.wrote, N(r)); }
  }

  lemma Released(r: Ring)
    requires RingLaw(r) && r.read < r.wrote
    ensures RingLaw(Release(r, r.sent[r.read]))
  {
    hide And, Pow2;
    Tests(r);
    IncMod(r.read);
    assert r.sent[..r.read + 1] == r.sent[..r.read] + [r.sent[r.read]];
  }

  lemma CommitFacts(r: Ring)
    requires Sane(r) && r.read <= |r.sent|
    ensures var c := Commit(r);
      && c.exp == r.exp && c.read == r.read && c.wrote == r.wrote + 1
      && (r.read < |r.sent| ==> r.read < |c.sent| && c.sent[r.read] == r.sent[r.read])
  {
  }

  lemma FillFacts(r: Ring, x: Slot)
    requires Sane(r)
    ensures Fill(r, x) == r.(slots := Fill(r, x).slots)
  {
  }

  lemma CommitRing(s: State)
    requires RingLaw(s.ring) && UseLaw(s) && s.prod.Using?
    ensures Sane(s.ring) && RingLaw(Commit(s.ring)) && UseLaw(s.(prod := Bumped, ring := Commit(s.ring)))
  {
    Committed(s.ring);
    CommitFacts(s.ring);
    hide RingLaw, Commit;
    Tests(s.ring);
  }

  lemma FillRing(s: State, x: Slot)
    requires RingLaw(s.ring) && UseLaw(s) && s.prod.Using?
    ensures Sane(s.ring) && RingLaw(Fill(s.ring, x)) && UseLaw(s.(ring := Fill(s.ring, x)))
  {
    Filled(s.ring, x);
    FillFacts(s.ring, x);
    hide RingLaw, Fill;
  }

  lemma ProducerRing(s: State, a: Act)
    requires RingLaw(s.ring) && UseLaw(s)
    ensures Sane(s.ring) && RingLaw(Produce(s, a).ring) && UseLaw(Produce(s, a))
  {
    hide RingLaw, And, Pow2, At, Full, Sub32, Inc32, Fill, Commit;
    Tests(s.ring);
    if s.prod.Using? && a.Bump? {
      CommitRing(s);
    } else if s.prod.Using? && a.Touch? {
      FillRing(s, a.x);
    } else {
      assert Produce(s, a).ring == s.ring;
    }
  }

  lemma ConsumerRing(s: State, a: Act)
    requires RingLaw(s.ring) && UseLaw(s)
    ensures Sane(s.ring) && RingLaw(Consume(s, a).ring) && UseLaw(Consume(s, a))
  {
    hide RingLaw, And, Pow2, At, Full, Sub32, Inc32;
    Tests(s.ring);
    if s.cons.Using? && s.look.Some? && a.Bump? {
      Released(s.ring);
    } else {
      assert Consume(s, a).ring == s.ring;
    }
  }

  lemma StepInv(s: State, op: Op)
    requires Inv(s)
    ensures Inv(Apply(s, op))
  {
    hide And, Pow2, RingLaw, SleepLaw, Produce, Consume, Full, At;
    Tests(s.ring);
    if op.P? {
      ProducerRing(s, op.act);
      ProducerSleeps(s, op.act);
    } else {
      ConsumerRing(s, op.act);
      ConsumerSleeps(s, op.act);
    }
  }

  lemma ProducerSleeps(s: State, a: Act)
    requires Sane(s.ring) && SleepLaw(s)
    requires Full(s.ring) <==> s.ring.wrote == s.ring.read + N(s.ring)
    requires s.ring.wr == s.ring.rd <==> s.ring.wrote == s.ring.read
    requires s.prod.Using? ==> s.ring.wrote < s.ring.read + N(s.ring)
    requires s.cons.Using? ==> s.ring.read < s.ring.wrote
    ensures SleepLaw(Produce(s, a))
  {
    hide And, Pow2, At, Full, Sub32, Inc32;
  }

  lemma ConsumerSleeps(s: State, a: Act)
    requires Sane(s.ring) && SleepLaw(s)
    requires Full(s.ring) <==> s.ring.wrote == s.ring.read + N(s.ring)
    requires s.ring.wr == s.ring.rd <==> s.ring.wrote == s.ring.read
    requires s.prod.Using? ==> s.ring.wrote < s.ring.read + N(s.ring)
    requires s.cons.Using? ==> s.ring.read < s.ring.wrote
    ensures SleepLaw(Consume(s, a))
  {
    hide And, Pow2, At, Full, Sub32, Inc32;
  }

  // --- Every run --------------------------------------------------------------------------------------

  function Init(exp: nat, zero: Slot): State {
    State(Ring(exp, 0, 0, seq(Pow2(exp), i => zero), 0, 0, [], []), Idle, Idle, false, false, false, false, None)
  }

  ghost function Run(exp: nat, zero: Slot, ops: seq<Op>): State
    requires 1 <= exp <= 15
  {
    if ops == [] then Init(exp, zero)
    else
      var s := Run(exp, zero, ops[..|ops| - 1]);
      if Sane(s.ring) then Apply(s, ops[|ops| - 1]) else s
  }

  lemma {:induction false} RunsKeepInv(exp: nat, zero: Slot, ops: seq<Op>)
    requires 1 <= exp <= 15
    ensures Inv(Run(exp, zero, ops))
  {
    if ops != [] {
      RunsKeepInv(exp, zero, ops[..|ops| - 1]);
      StepInv(Run(exp, zero, ops[..|ops| - 1]), ops[|ops| - 1]);
    }
  }

  /** First in, first out, through any number of index wraps: what was read is exactly what was
      committed, in order, and never more than n slots are in use. */
  lemma {:induction false} Fifo(exp: nat, zero: Slot, ops: seq<Op>)
    requires 1 <= exp <= 15
    ensures var s := Run(exp, zero, ops);
      && Sane(s.ring) && s.ring.got <= s.ring.sent && |s.ring.got| == s.ring.read && |s.ring.sent| == s.ring.wrote
      && Sub32(s.ring.wr, s.ring.rd) == |s.ring.sent| - |s.ring.got| <= N(s.ring)
  {
    RunsKeepInv(exp, zero, ops);
    var s := Run(exp, zero, ops);
    InUse(s.ring.wrote, s.ring.read, N(s.ring), s.ring.exp);
  }

  /** No wakeup is lost: a parked end with something to do has a peer that is past its index bump and
      has yet to kick. So the two are never parked together. */
  lemma {:induction false} NoLostWakeup(exp: nat, zero: Slot, ops: seq<Op>)
    requires 1 <= exp <= 15
    ensures var s := Run(exp, zero, ops);
      && (s.cons.Parked? && s.ring.wrote != s.ring.read ==> AboutToKick(s.prod))
      && (s.prod.Parked? && s.ring.wrote != s.ring.read + N(s.ring) ==> AboutToKick(s.cons))
      && !(s.prod.Parked? && s.cons.Parked?)
  {
    RunsKeepInv(exp, zero, ops);
  }

  /** And the kick comes: once the peer has taken the steps it is in the middle of, the parked end is
      on its way out, whatever it was that the peer saw. */
  lemma {:induction false} KickArrives(s: State)
    requires Inv(s)
    ensures s.cons.Parked? && s.ring.wrote != s.ring.read ==>
      Sane(Apply(s, P(Check)).ring) && Apply(Apply(s, P(Check)), P(Kick)).cons.Leaving?
    ensures s.prod.Parked? && s.ring.wrote != s.ring.read + N(s.ring) ==>
      Sane(Apply(s, C(Check)).ring) && Apply(Apply(s, C(Check)), C(Kick)).prod.Leaving?
  {
  }

  /** The slot being filled holds no unread message, and the slot being read is not written to. */
  lemma {:induction false} UnreadUntouched(s: State, op: Op, j: nat)
    requires Inv(s) && s.ring.read <= j < s.ring.wrote
    ensures |Apply(s, op).ring.slots| == |s.ring.slots| && j % N(s.ring) < |s.ring.slots| && Apply(s, op).ring.slots[j % N(s.ring)] == s.ring.slots[j % N(s.ring)]
  {
    Tests(s.ring);
    SlotsSame(s, op);
    hide RingLaw, SleepLaw, Apply, At;
    if op.P? && op.act.Touch? && s.prod.Using? { ModApart(j, s.ring.wrote, N(s.ring)); }
  }

  /** Only the producer stores to a slot, and only to the one it has reserved. */
  lemma SlotsSame(s: State, op: Op)
    requires Sane(s.ring)
    ensures Apply(s, op).ring.slots == if op.P? && op.act.Touch? && s.prod.Using? then s.ring.slots[At(s.ring, s.ring.wr) := op.act.x] else s.ring.slots
  {
    hide And, Pow2, At, Full, Sub32, Inc32;
  }
}
