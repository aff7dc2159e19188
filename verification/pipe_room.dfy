/** Which buffers v_bus_pop's copy on a pipe can overrun: on an overwriting pipe every one that is smaller
    than a slot, on any other none. */
module PipeRoom {
  import opened Lists
  import opened Modular
  import opened PipeModel
  import opened PipeProof
  import opened PipePromises
  import opened PipeRuns
  import Steps

  // --- A slot is never longer than it is ----------------------------------------------------------------

  /** Every slot has `room` bytes, and no length in it, or under way, is greater. */
  ghost predicate RoomLaw(s: State, room: nat) {
    && (forall i :: 0 <= i < |s.ring.slots| ==> |s.ring.slots[i].data| == room && s.ring.slots[i].len <= room)
    && (s.ring.prod.Writing? ==> s.ring.prod.done <= room)
    && (s.reader.Some? && s.reader.value.cons.Copy? ==> |s.reader.value.cons.buf| <= s.reader.value.cons.len <= room)
  }

  lemma StepRoom(s: State, op: Op, room: nat)
    requires RoomLaw(s, room)
    ensures RoomLaw(Apply(s, op), room)
  {
  }

  lemma {:induction false} RunsKeepRoom(overflow: Overflow, n: nat, room: nat, ops: seq<Op>)
    ensures RoomLaw(Run(overflow, n, room, ops), room)
    decreases |ops|
  {
    hide RoomLaw, Apply;
    if ops == [] {
      InitRoom(overflow, n, room);
    } else {
      RunsKeepRoom(overflow, n, room, ops[..|ops| - 1]);
      StepRoom(Run(overflow, n, room, ops[..|ops| - 1]), ops[|ops| - 1], room);
    }
  }

  lemma InitRoom(overflow: Overflow, n: nat, room: nat)
    ensures RoomLaw(Init(overflow, n, room), room)
  {
  }

  // --- Any smaller buffer can be overrun ----------------------------------------------------------------

  /** The reader is between the two loads of the length of message 0, which is empty. */
  ghost function Between(cap: nat): Reader { Reader(0, 0, Reload(0, 0), cap, 0, false, []) }

  /** k messages have been published on an overwriting pipe. */
  ghost predicate Published(s: State, n: nat, room: nat, k: nat, u: Reader) {
    var r := s.ring;
    && s.reader == Some(u) && r.overflow.Overwrite? && |r.slots| == n > 0 && r.prod.Ready? && !r.marked
    && r.w == k == |r.msgs| && r.pw == k % n
    && forall i :: 0 <= i < n ==> |r.slots[i].data| == room
  }

  function Message(): seq<Op> { [Claim([]), PutLen, Stamp, Bump, Advance] }

  /** An empty message more. */
  lemma Publishes(s: State, n: nat, room: nat, k: nat, u: Reader)
    requires Published(s, n, room, k, u)
    ensures Published(On(s, Message()), n, room, k + 1, u)
    ensures On(s, Message()).ring.slots[k % n].stamp == 2 * k && On(s, Message()).ring.slots[k % n].len == 0
  {
    var s1 := Apply(s, Claim([]));
    OneByOne(s, Message(), Claim([]), [PutLen, Stamp, Bump, Advance]);
    OneByOne(s1, [PutLen, Stamp, Bump, Advance], PutLen, [Stamp, Bump, Advance]);
    var s2 := Apply(s1, PutLen);
    OneByOne(s2, [Stamp, Bump, Advance], Stamp, [Bump, Advance]);
    var s3 := Apply(s2, Stamp);
    OneByOne(s3, [Bump, Advance], Bump, [Advance]);
    OneByOne(Apply(s3, Bump), [Advance], Advance, []);
    ModNext(k, n);
    assert s1.ring.prod == Writing(0) && s1.ring.w == k && |s1.ring.msgs| == k + 1;
    assert s2.ring.prod == Sized;
    assert s3.ring.prod == Stamped && s3.ring.slots[k % n].stamp == 2 * k && s3.ring.slots[k % n].len == 0;
  }

  /** The reader gets as far as the first load of the length. */
  lemma Glances(s: State, n: nat, room: nat, cap: nat)
    requires Published(s, n, room, 1, Reader(0, 0, Away, 0, 0, false, [])) && s.ring.slots[0].stamp == 0 && s.ring.slots[0].len == 0
    ensures Published(On(s, [Pop(true, cap), Step, Step, Step]), n, room, 1, Between(cap))
  {
    var u := Between(cap);
    OneByOne(s, [Pop(true, cap), Step, Step, Step], Pop(true, cap), [Step, Step, Step]);
    OneByOne(s.(reader := Some(u.(cons := Scan(true, false, 0, 0)))), [Step, Step, Step], Step, [Step, Step]);
    OneByOne(s.(reader := Some(u.(cons := Look(true, false, 0, 0)))), [Step, Step], Step, [Step]);
    OneByOne(s.(reader := Some(u.(cons := Measure(true, false, 0, 0)))), [Step], Step, []);
  }

  /** The producer gets once round the ring. */
  lemma {:induction false} ComesRound(s: State, n: nat, room: nat, k: nat, u: Reader) returns (ops: seq<Op>)
    requires Published(s, n, room, k, u) && k <= n
    ensures Published(On(s, ops), n, room, n, u)
    decreases n - k
  {
    hide Published, On;
    if k == n {
      ops := [];
      Nothing(s);
    } else {
      Publishes(s, n, room, k, u);
      ops := ComesRound(On(s, Message()), n, room, k + 1, u);
      InTurn(s, Message(), ops);
      ops := Message() + ops;
    }
  }

  lemma Nothing(s: State)
    ensures On(s, []) == s
  {
  }

  lemma InTurn(s: State, a: seq<Op>, b: seq<Op>)
    ensures On(s, a + b) == On(On(s, a), b)
  {
    Steps.OnAppend(Apply, s, a, b);
  }

  /** d bytes of a message of cap + 1 are in slot 0. */
  ghost predicate Filling(s: State, room: nat, cap: nat, d: nat) {
    var r := s.ring;
    && s.reader == Some(Between(cap)) && r.slots != [] && r.pw == 0 && r.prod == Writing(d) && d <= cap + 1 <= room
    && |r.slots[0].data| == room && r.w < |r.msgs| && |r.msgs[r.w]| == cap + 1
  }

  lemma Claims(s: State, n: nat, room: nat, cap: nat)
    requires Published(s, n, room, n, Between(cap)) && cap < room
    ensures Filling(Apply(s, Claim(seq(cap + 1, i => 0))), room, cap, 0)
  {
    var s1 := Apply(s, Claim(seq(cap + 1, i => 0)));
    ModWrap(0, n);
    assert s1.ring.msgs[n] == seq(cap + 1, i => 0);
  }

  lemma {:induction false} Fills(s: State, room: nat, cap: nat, d: nat) returns (ops: seq<Op>)
    requires Filling(s, room, cap, d)
    ensures Filling(On(s, ops), room, cap, cap + 1)
    decreases cap + 1 - d
  {
    if d == cap + 1 {
      ops := [];
      Nothing(s);
    } else {
      var s1 := Apply(s, PutByte);
      assert Filling(s1, room, cap, d + 1);
      hide Filling, On;
      ops := Fills(s1, room, cap, d + 1);
      OneByOne(s, [PutByte] + ops, PutByte, ops);
      ops := [PutByte] + ops;
    }
  }

  /** The reader copies by the new length, and has copied this much. */
  ghost predicate Outgrowing(s: State, room: nat, cap: nat, d: nat) {
    && s.ring.slots != [] && |s.ring.slots[0].data| == room > cap && s.reader.Some? && s.reader.value.cap == cap
    && s.reader.value.cons.Copy? && var c := s.reader.value.cons; c.fast && c.rd == 0 && c.len == cap + 1 && |c.buf| == d <= cap + 1
  }

  lemma Loads(s: State, room: nat, cap: nat)
    requires Filling(s, room, cap, cap + 1)
    ensures Outgrowing(On(s, [PutLen, Step]), room, cap, 0)
  {
    var s1 := Apply(s, PutLen);
    OneByOne(s, [PutLen, Step], PutLen, [Step]);
    OneByOne(s1, [Step], Step, []);
    assert s1.ring.slots[0].len == cap + 1 && |s1.ring.slots[0].data| == room && s1.reader == s.reader;
  }

  lemma {:induction false} Copies(s: State, room: nat, cap: nat, d: nat) returns (ops: seq<Op>)
    requires Outgrowing(s, room, cap, d)
    ensures Outgrowing(On(s, ops), room, cap, cap + 1)
    decreases cap + 1 - d
  {
    if d == cap + 1 {
      ops := [];
      Nothing(s);
    } else {
      var s1 := Apply(s, Step);
      assert Outgrowing(s1, room, cap, d + 1);
      hide Outgrowing, On;
      ops := Copies(s1, room, cap, d + 1);
      OneByOne(s, [Step] + ops, Step, ops);
      ops := [Step] + ops;
    }
  }

  lemma Starts(n: nat, room: nat)
    requires n > 0
    ensures Published(Run(Overwrite, n, room, [Subscribe]), n, room, 0, Reader(0, 0, Away, 0, 0, false, []))
  {
    RunOn(Overwrite, n, room, [], [Subscribe]);
    assert [] + [Subscribe] == [Subscribe];
    OneByOne(Init(Overwrite, n, room), [Subscribe], Subscribe, []);
  }

  // --- Exactly which -----------------------------------------------------------------------------------

  /** After this run a pop with a buffer of `cap` bytes has copied more than that. */
  ghost predicate Overrun(overflow: Overflow, n: nat, room: nat, cap: nat, ops: seq<Op>) {
    var u := Run(overflow, n, room, ops).reader;
    u.Some? && u.value.cap == cap && u.value.cons.Copy? && |u.value.cons.buf| > cap
  }

  /** A run that overruns a given buffer smaller than the slots of an overwriting pipe, of any depth. */
  lemma {:induction false} SomeRun(n: nat, room: nat, cap: nat) returns (ops: seq<Op>)
    requires n > 0 && cap < room
    ensures Overrun(Overwrite, n, room, cap, ops)
  {
    hide Published, Filling, On, Run;
    var pop := [Pop(true, cap), Step, Step, Step];
    var payload := seq(cap + 1, i => 0);
    Starts(n, room);
    var s := Run(Overwrite, n, room, [Subscribe]);
    Publishes(s, n, room, 0, Reader(0, 0, Away, 0, 0, false, []));
    Glances(On(s, Message()), n, room, cap) by { assert 0 % n == 0; }
    var round := ComesRound(On(On(s, Message()), pop), n, room, 1, Between(cap));
    var s1 := On(On(On(s, Message()), pop), round);
    Claims(s1, n, room, cap);
    var s2 := Apply(s1, Claim(payload));
    var fill := Fills(s2, room, cap, 0);
    Loads(On(s2, fill), room, cap);
    var copy := Copies(On(On(s2, fill), [PutLen, Step]), room, cap, 0);
    var tail := fill + [PutLen, Step] + copy;
    InTurn(s2, fill + [PutLen, Step], copy);
    InTurn(s2, fill, [PutLen, Step]);
    OneByOne(s1, [Claim(payload)] + tail, Claim(payload), tail);
    InTurn(On(On(s, Message()), pop), round, [Claim(payload)] + tail);
    InTurn(On(s, Message()), pop, round + ([Claim(payload)] + tail));
    InTurn(s, Message(), pop + (round + ([Claim(payload)] + tail)));
    ops := [Subscribe] + (Message() + (pop + (round + ([Claim(payload)] + tail))));
    RunOn(Overwrite, n, room, [Subscribe], Message() + (pop + (round + ([Claim(payload)] + tail))));
  }

  /** No run overruns a buffer of `cap` bytes, by whichever path and whatever the producer does, exactly
      when the pipe drops or the buffer has the size of a slot. */
  lemma {:induction false} OverrunsExactly(overflow: Overflow, n: nat, room: nat, cap: nat)
    requires n > 0
    ensures (forall ops :: !Overrun(overflow, n, room, cap, ops)) <==> overflow.Drop? || cap >= room
  {
    hide Run;
    forall ops | overflow.Drop? || cap >= room ensures !Overrun(overflow, n, room, cap, ops) {
      var s := Run(overflow, n, room, ops);
      if s.reader.Some? && s.reader.value.cons.Copy? && s.reader.value.cap == cap {
        RunsKeepRoom(overflow, n, room, ops);
        if overflow.Drop? { CopiesFit(overflow, n, room, ops, s.ring, s.reader.value); }
      }
    }
    if overflow.Overwrite? && cap < room {
      var ops := SomeRun(n, room, cap);
    }
  }
}
