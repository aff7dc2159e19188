/** Runs of a pipe that show where its promises end. */
module PipeRuns {
  import opened Lists
  import opened PipeModel
  import Steps

  ghost function On(s: State, ops: seq<Op>): State { Steps.On(Apply, s, ops) }

  lemma {:induction false} RunIs(overflow: Overflow, n: nat, room: nat, ops: seq<Op>)
    ensures Run(overflow, n, room, ops) == On(Init(overflow, n, room), ops)
    decreases |ops|
  {
    if ops != [] {
      RunIs(overflow, n, room, ops[..|ops| - 1]);
      Steps.OnLast(Apply, Init(overflow, n, room), ops);
    }
  }

  lemma RunOn(overflow: Overflow, n: nat, room: nat, ops: seq<Op>, more: seq<Op>)
    ensures Run(overflow, n, room, ops + more) == On(Run(overflow, n, room, ops), more)
  {
    RunIs(overflow, n, room, ops);
    RunIs(overflow, n, room, ops + more);
    Steps.OnAppend(Apply, Init(overflow, n, room), ops, more);
  }

  lemma OneByOne(s: State, ops: seq<Op>, a: Op, rest: seq<Op>)
    requires ops == [a] + rest
    ensures On(s, ops) == On(Apply(s, a), rest)
  {
    Steps.OneByOne(Apply, s, ops, a, rest);
  }

  // --- A reader that attached late ----------------------------------------------------------------------

  /** An empty message, up to the store of next_seq. */
  function Write(): seq<Op> { [Claim([]), PutLen, Stamp, Bump] }

  lemma Written(s: State)
    requires var r := s.ring; r.overflow.Drop? && r.prod.Ready? && r.pw < |r.slots| && |r.msgs| == r.w && !Full(r, s.reader)
    ensures var r := s.ring; On(s, Write()) == s.(ring := r.(
      slots := r.slots[r.pw := r.slots[r.pw].(stamp := 2 * r.w, len := 0)], w := r.w + 1, prod := Bumped, marked := false, msgs := r.msgs + [[]]))
  {
    var r := s.ring;
    OneByOne(s, Write(), Claim([]), [PutLen, Stamp, Bump]);
    var s1 := s.(ring := r.(prod := Writing(0), msgs := r.msgs + [[]]));
    assert Apply(s, Claim([])) == s1;
    OneByOne(s1, [PutLen, Stamp, Bump], PutLen, [Stamp, Bump]);
    var s2 := Apply(s1, PutLen);
    OneByOne(s2, [Stamp, Bump], Stamp, [Bump]);
    var s3 := Apply(s2, Stamp);
    OneByOne(s3, [Bump], Bump, []);
    assert s3.ring.slots == r.slots[r.pw := r.slots[r.pw].(stamp := 2 * r.w, len := 0)];
  }

  /** A reader leaves and another attaches before the producer has moved pipe_wr; then two more messages
      are published. */
  function LateOps(): seq<Op> {
    [Subscribe] + Write() + [Unsubscribe, Subscribe, Advance] + Write() + [Advance] + Write() + [Advance]
  }

  ghost function TwoSlots(a: nat, b: nat, w: nat, pw: nat, prod: Prod, reader: Option<Reader>): State {
    State(Ring(Drop, [Slot(a, 0, [0]), Slot(b, 0, [0])], w, pw, prod, seq(w, i => []), false), reader)
  }

  lemma OneMore(a: nat, b: nat, w: nat, pw: nat, reader: Option<Reader>)
    requires pw < 2 && (reader.Some? ==> w < reader.value.expected + 2)
    ensures On(TwoSlots(a, b, w, pw, Ready, reader), Write())
      == TwoSlots(if pw == 0 then 2 * w else a, if pw == 1 then 2 * w else b, w + 1, pw, Bumped, reader)
  {
    var s := TwoSlots(a, b, w, pw, Ready, reader);
    Written(s);
    assert seq(w, i => []) + [[]] == seq<Bytes>(w + 1, i => []);
  }

  lemma Fresh()
    ensures Init(Drop, 2, 1) == TwoSlots(1, 1, 0, 0, Ready, None)
  {
    var s := Init(Drop, 2, 1);
    assert s.ring.slots[0].data == [0] && s.ring.slots[1].data == [0];
    assert s.ring.slots == [Slot(1, 0, [0]), Slot(1, 0, [0])];
    assert s.ring.msgs == seq(0, i => []);
  }

  ghost function Late(): Option<Reader> { Some(Reader(1, 0, Away, 0, 1, true, [])) }

  lemma FirstReader()
    ensures Run(Drop, 2, 1, [Subscribe]) == TwoSlots(1, 1, 0, 0, Ready, Some(Reader(0, 0, Away, 0, 0, false, [])))
  {
    hide TwoSlots, Apply;
    Fresh();
    RunOn(Drop, 2, 1, [], [Subscribe]);
    assert [] + [Subscribe] == [Subscribe];
    OneByOne(Init(Drop, 2, 1), [Subscribe], Subscribe, []);
    Joins(None, 1, 0, Ready);
  }

  lemma Attached()
    ensures Run(Drop, 2, 1, [Subscribe] + Write() + [Unsubscribe, Subscribe, Advance]) == TwoSlots(0, 1, 1, 1, Ready, Late())
  {
    hide TwoSlots, Apply, Run, Write;
    var first := Some(Reader(0, 0, Away, 0, 0, false, []));
    var a, c := [Subscribe], [Unsubscribe, Subscribe, Advance];
    FirstReader();
    RunOn(Drop, 2, 1, a, Write());
    OneMore(1, 1, 0, 0, first);
    RunOn(Drop, 2, 1, a + Write(), c);
    Joins(first, 0, 1, Bumped);
    OneByOne(TwoSlots(0, 1, 1, 0, Bumped, first), c, Unsubscribe, [Subscribe, Advance]);
    OneByOne(TwoSlots(0, 1, 1, 0, Bumped, None), [Subscribe, Advance], Subscribe, [Advance]);
    Turn(0, 1, 1, 0, Late());
  }

  lemma Joins(reader: Option<Reader>, a: nat, w: nat, prod: Prod)
    ensures Apply(TwoSlots(a, 1, w, 0, prod, reader), Unsubscribe) == TwoSlots(a, 1, w, 0, prod, None)
    ensures Apply(TwoSlots(a, 1, w, 0, prod, None), Subscribe)
      == TwoSlots(a, 1, w, 0, prod, Some(Reader(w, 0, Away, 0, w, prod.Bumped?, [])))
  {
  }

  /** The pipe is then full, with two messages published since the reader attached; the reader has
      nothing, and the next message is turned down. */
  lemma {:induction false} LateRun()
    ensures var s := Run(Drop, 2, 1, LateOps());
      && s.reader == Some(Reader(1, 0, Away, 0, 1, true, [])) && s.ring.w == 3
      && forall payload :: Apply(s, Claim(payload)) == s
  {
    var d := [Subscribe] + Write() + [Unsubscribe, Subscribe, Advance];
    Attached();
    RunOn(Drop, 2, 1, d, Write());
    OneMore(0, 1, 1, 1, Late());
    RunOn(Drop, 2, 1, d + Write(), [Advance]);
    Turn(0, 2, 2, 1, Late());
    RunOn(Drop, 2, 1, d + Write() + [Advance], Write());
    OneMore(0, 2, 2, 0, Late());
    RunOn(Drop, 2, 1, d + Write() + [Advance] + Write(), [Advance]);
    Turn(4, 2, 3, 0, Late());
    assert LateOps() == d + Write() + [Advance] + Write() + [Advance];
  }

  lemma Turn(a: nat, b: nat, w: nat, pw: nat, reader: Option<Reader>)
    requires pw < 2
    ensures On(TwoSlots(a, b, w, pw, Bumped, reader), [Advance]) == TwoSlots(a, b, w, 1 - pw, Ready, reader)
  {
    OneByOne(TwoSlots(a, b, w, pw, Bumped, reader), [Advance], Advance, []);
  }

  // --- A copy that outgrows its buffer ------------------------------------------------------------------

  /** One slot of two bytes; the reader's buffer is one byte. */
  ghost function Solo(x: Slot, w: nat, prod: Prod, msgs: seq<Bytes>, marked: bool, cons: Cons): State {
    State(Ring(Overwrite, [x], w, 0, prod, msgs, marked), Some(Reader(0, 0, cons, 1, 0, false, [])))
  }

  function First(): seq<Op> { [Claim([7]), PutByte, PutLen, Stamp, Bump, Advance] }

  function Glance(): seq<Op> { [Pop(true, 1), Step, Step, Step] }

  function Second(): seq<Op> { [Claim([8, 9]), PutByte, PutByte, PutLen] }

  /** One store to the one slot's bytes. */
  lemma Stored(x: Slot, y: Slot, d: Bytes, k: nat, b: bv8)
    requires k < |x.data| && d == x.data[k := b] && y == x.(data := d)
    ensures [x][0 := x.(data := x.data[k := b])] == [y]
  {
  }

  /** The first message, written; and published. */
  lemma FirstHalf(u: Reader)
    ensures var s := State(Ring(Overwrite, [Slot(1, 0, [0, 0])], 0, 0, Ready, [], false), Some(u));
      On(s, First()) == On(State(Ring(Overwrite, [Slot(1, 0, [7, 0])], 0, 0, Writing(1), [[7]], true), Some(u)), [PutLen, Stamp, Bump, Advance])
  {
    var s := State(Ring(Overwrite, [Slot(1, 0, [0, 0])], 0, 0, Ready, [], false), Some(u));
    OneByOne(s, First(), Claim([7]), [PutByte, PutLen, Stamp, Bump, Advance]);
    var s1 := s.(ring := Ring(Overwrite, [Slot(1, 0, [0, 0])], 0, 0, Writing(0), [[7]], true));
    assert Apply(s, Claim([7])) == s1;
    OneByOne(s1, [PutByte, PutLen, Stamp, Bump, Advance], PutByte, [PutLen, Stamp, Bump, Advance]);
    Stored(Slot(1, 0, [0, 0]), Slot(1, 0, [7, 0]), [7, 0], 0, 7);
  }

  lemma FirstOne(u: Reader)
    ensures var s := State(Ring(Overwrite, [Slot(1, 0, [0, 0])], 0, 0, Ready, [], false), Some(u));
      On(s, First()) == State(Ring(Overwrite, [Slot(0, 1, [7, 0])], 1, 0, Ready, [[7]], false), Some(u))
  {
    FirstHalf(u);
    var s2 := State(Ring(Overwrite, [Slot(1, 0, [7, 0])], 0, 0, Writing(1), [[7]], true), Some(u));
    OneByOne(s2, [PutLen, Stamp, Bump, Advance], PutLen, [Stamp, Bump, Advance]);
    hide Apply;
    var s3 := s2.(ring := Ring(Overwrite, [Slot(1, 1, [7, 0])], 0, 0, Sized, [[7]], true));
    assert Apply(s2, PutLen) == s3 by { PutsLen(u); }
    OneByOne(s3, [Stamp, Bump, Advance], Stamp, [Bump, Advance]);
    var s4 := s2.(ring := Ring(Overwrite, [Slot(0, 1, [7, 0])], 0, 0, Stamped, [[7]], true));
    assert Apply(s3, Stamp) == s4 by { PutsLen(u); }
    Moves(s4);
  }

  lemma PutsLen(u: Reader)
    ensures Apply(State(Ring(Overwrite, [Slot(1, 0, [7, 0])], 0, 0, Writing(1), [[7]], true), Some(u)), PutLen)
      == State(Ring(Overwrite, [Slot(1, 1, [7, 0])], 0, 0, Sized, [[7]], true), Some(u))
    ensures Apply(State(Ring(Overwrite, [Slot(1, 1, [7, 0])], 0, 0, Sized, [[7]], true), Some(u)), Stamp)
      == State(Ring(Overwrite, [Slot(0, 1, [7, 0])], 0, 0, Stamped, [[7]], true), Some(u))
  {
  }

  /** The store of next_seq, and the move of pipe_wr. */
  lemma Moves(s: State)
    requires s.ring.prod.Stamped? && |s.ring.slots| == 1
    ensures On(s, [Bump, Advance]) == s.(ring := s.ring.(w := s.ring.w + 1, pw := 0, marked := false, prod := Ready))
  {
    OneByOne(s, [Bump, Advance], Bump, [Advance]);
    OneByOne(Apply(s, Bump), [Advance], Advance, []);
    assert (s.ring.pw + 1) % 1 == 0;
  }

  lemma GlanceOne()
    ensures var x := Slot(0, 1, [7, 0]);
      On(State(Ring(Overwrite, [x], 1, 0, Ready, [[7]], false), Some(Reader(0, 0, Away, 0, 0, false, []))), Glance())
      == Solo(x, 1, Ready, [[7]], false, Reload(0, 0))
  {
    var x := Slot(0, 1, [7, 0]);
    var s := State(Ring(Overwrite, [x], 1, 0, Ready, [[7]], false), Some(Reader(0, 0, Away, 0, 0, false, [])));
    OneByOne(s, Glance(), Pop(true, 1), [Step, Step, Step]);
    var s1, s2 := Solo(x, 1, Ready, [[7]], false, Scan(true, false, 0, 0)), Solo(x, 1, Ready, [[7]], false, Look(true, false, 0, 0));
    OneByOne(s1, [Step, Step, Step], Step, [Step, Step]);
    OneByOne(s2, [Step, Step], Step, [Step]);
    OneByOne(Solo(x, 1, Ready, [[7]], false, Measure(true, false, 0, 0)), [Step], Step, []);
  }

  lemma SecondOne()
    ensures On(Solo(Slot(0, 1, [7, 0]), 1, Ready, [[7]], false, Reload(0, 0)), Second())
      == Solo(Slot(3, 2, [8, 9]), 1, Sized, [[7], [8, 9]], true, Reload(0, 0))
  {
    var c, m := Reload(0, 0), [[7], [8, 9]];
    var s := Solo(Slot(0, 1, [7, 0]), 1, Ready, [[7]], false, c);
    OneByOne(s, Second(), Claim([8, 9]), [PutByte, PutByte, PutLen]);
    assert [[7]] + [[8, 9]] == m;
    var s1 := Solo(Slot(3, 1, [7, 0]), 1, Writing(0), m, true, c);
    assert Apply(s, Claim([8, 9])) == s1;
    OneByOne(s1, [PutByte, PutByte, PutLen], PutByte, [PutByte, PutLen]);
    var s2 := Solo(Slot(3, 1, [8, 0]), 1, Writing(1), m, true, c);
    Stored(Slot(3, 1, [7, 0]), Slot(3, 1, [8, 0]), [8, 0], 0, 8);
    assert Apply(s1, PutByte) == s2;
    OneByOne(s2, [PutByte, PutLen], PutByte, [PutLen]);
    var s3 := Solo(Slot(3, 1, [8, 9]), 1, Writing(2), m, true, c);
    Stored(Slot(3, 1, [8, 0]), Slot(3, 1, [8, 9]), [8, 9], 1, 9);
    assert Apply(s2, PutByte) == s3;
    OneByOne(s3, [PutLen], PutLen, []);
  }

  lemma CopyOne()
    ensures var x, m := Slot(3, 2, [8, 9]), [[7], [8, 9]];
      On(Solo(x, 1, Sized, m, true, Reload(0, 0)), [Step, Step, Step]) == Solo(x, 1, Sized, m, true, Copy(true, 0, 0, 2, [8, 9]))
  {
    hide Apply, Solo;
    var x, m := Slot(3, 2, [8, 9]), [[7], [8, 9]];
    OneByOne(Solo(x, 1, Sized, m, true, Reload(0, 0)), [Step, Step, Step], Step, [Step, Step]);
    Reloads(x, m);
    OneByOne(Solo(x, 1, Sized, m, true, Copy(true, 0, 0, 2, [])), [Step, Step], Step, [Step]);
    Copies(x, m, [], [8]);
    OneByOne(Solo(x, 1, Sized, m, true, Copy(true, 0, 0, 2, [8])), [Step], Step, []);
    Copies(x, m, [8], [8, 9]);
  }

  lemma Reloads(x: Slot, m: seq<Bytes>)
    ensures Apply(Solo(x, 1, Sized, m, true, Reload(0, 0)), Step) == Solo(x, 1, Sized, m, true, Copy(true, 0, 0, x.len, []))
  {
  }

  lemma Copies(x: Slot, m: seq<Bytes>, buf: Bytes, more: Bytes)
    requires |buf| < x.len && |buf| < |x.data| && more == buf + [x.data[|buf|]]
    ensures Apply(Solo(x, 1, Sized, m, true, Copy(true, 0, 0, x.len, buf)), Step) == Solo(x, 1, Sized, m, true, Copy(true, 0, 0, x.len, more))
  {
  }

  lemma SoleReader()
    ensures Run(Overwrite, 1, 2, [Subscribe])
      == State(Ring(Overwrite, [Slot(1, 0, [0, 0])], 0, 0, Ready, [], false), Some(Reader(0, 0, Away, 0, 0, false, [])))
  {
    var a := [Subscribe];
    RunOn(Overwrite, 1, 2, [], a);
    assert [] + a == a;
    OneByOne(Init(Overwrite, 1, 2), a, Subscribe, []);
    assert Init(Overwrite, 1, 2).ring.slots == [Slot(1, 0, [0, 0])] by { assert seq<bv8>(2, j => 0) == [0, 0]; }
  }

  /** The producer puts a longer message into the slot between the test of the length and the load the
      copy goes by: two bytes are copied into a buffer of one. */
  lemma {:induction false} TwoLoads()
    ensures var s := Run(Overwrite, 1, 2, [Subscribe] + First() + Glance() + Second() + [Step, Step, Step]);
      && s.reader.Some? && s.reader.value.cap == 1
      && s.reader.value.cons == Copy(true, 0, 0, 2, [8, 9])
  {
    SoleReader();
    hide Apply, Run, On, First, Glance, Second;
    var a := [Subscribe];
    var u := Reader(0, 0, Away, 0, 0, false, []);
    RunOn(Overwrite, 1, 2, a, First());
    FirstOne(u);
    RunOn(Overwrite, 1, 2, a + First(), Glance());
    GlanceOne();
    RunOn(Overwrite, 1, 2, a + First() + Glance(), Second());
    SecondOne();
    RunOn(Overwrite, 1, 2, a + First() + Glance() + Second(), [Step, Step, Step]);
    CopyOne();
  }
}
