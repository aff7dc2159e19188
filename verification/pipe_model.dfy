/** A pipe topic: one producer and one consumer share a ring of slots without any critical
    section. A step below is one load or store of shared memory (a barrier in the C code keeps
    them in this order), or one byte of a copy; steps of the two sides interleave freely. */
module PipeModel {
  import opened Lists

  type Bytes = seq<bv8>

  datatype Overflow = Drop | Overwrite

  /** A ring slot: the header's stamp and length, and the bytes behind it. */
  datatype Slot = Slot(stamp: nat, len: nat, data: Bytes)

  /** Where the producer is in publish (or between reserve and commit). */
  datatype Prod = Ready | Writing(done: nat) | Sized | Stamped | Bumped

  /** What the reader got: a message copied out whole into a buffer of `cap` bytes, or a view of it
      (`data` is what it had read of it), or a view that turned out stale. `at` is how many slots the
      producer had claimed by then. */
  datatype Delivery = Whole(seqno: nat, missed: nat, at: nat, data: Bytes, cap: nat)
                    | Viewed(seqno: nat, missed: nat, at: nat, data: Bytes)
                    | Stale(seqno: nat, missed: nat, at: nat)

  /** Where the consumer is. `fast` is pipe_next and the copy in v_bus_pop; otherwise pipe_read.
      It is looking for message r in slot rd. */
  datatype Cons =
    | Away
    | Scan(fast: bool, view: bool, r: nat, rd: nat)                  // about to load next_seq
    | Look(fast: bool, view: bool, r: nat, rd: nat)                  // about to load the stamp
    | Measure(fast: bool, view: bool, r: nat, rd: nat)               // about to load the length
    | Reload(r: nat, rd: nat)                                        // fast: it fits, about to load it again
    | Copy(fast: bool, r: nat, rd: nat, len: nat, buf: Bytes)        // copying, then about to recheck
    | View(rd: nat, len: nat, missed: nat, buf: Bytes)               // peeked, about to release

  /** `cap` is the size of the buffer of the call in progress. `late` is history: the reader attached
      between the store of next_seq and the move of pipe_wr. */
  datatype Reader = Reader(expected: nat, cursor: nat, cons: Cons, cap: nat, start: nat, late: bool, got: seq<Delivery>)

  /** The ring and the producer. `w` is next_seq and `pw` is pipe_wr, as a position. `msgs` is
      history: the payload of every message so far, including the one being written; `marked` says
      whether the slot of the next message has been marked as being written (overwrite pipes). */
  datatype Ring = Ring(
    overflow: Overflow, slots: seq<Slot>, w: nat, pw: nat, prod: Prod, msgs: seq<Bytes>, marked: bool)
  {
    predicate Busy() { prod.Writing? || prod.Sized? || prod.Stamped? }

    /** Slots handed to the producer so far: every published message, and the slot marked next. */
    function Claims(): nat { if marked then w + 1 else w }
  }

  datatype State = State(ring: Ring, reader: Option<Reader>)

  datatype Op =
    | Claim(payload: Bytes) | PutByte | PutLen | Stamp | Bump | Advance | Cancel
    | Subscribe | Unsubscribe | Pop(fast: bool, cap: nat) | Peek(fast: bool) | Step | Release

  function Next(s: Ring, p: nat): nat
    requires |s.slots| > 0
  {
    (p + 1) % |s.slots|
  }

  function SetSlot(s: Ring, i: nat, x: Slot): Ring
    requires i < |s.slots|
  {
    s.(slots := s.slots[i := x])
  }

  // --- Producer -----------------------------------------------------------------------------------

  predicate Full(s: Ring, reader: Option<Reader>) {
    s.overflow.Drop? && reader.Some? && s.w >= reader.value.expected + |s.slots|
  }

  /** pipe_claim, with the payload that is going to be written. A drop pipe that is full turns it
      down; an overwrite pipe marks the slot. */
  function ClaimStep(s: Ring, reader: Option<Reader>, payload: Bytes): Ring {
    if s.prod.Ready? && s.pw < |s.slots| && |payload| <= |s.slots[s.pw].data| && !Full(s, reader) then
      var s1 := s.(prod := Writing(0), msgs := s.msgs + [payload]);
      if s.overflow.Overwrite? then SetSlot(s1, s.pw, s.slots[s.pw].(stamp := 2 * s.w + 1)).(marked := true) else s1
    else s
  }

  /** One byte of copy_payload. */
  function PutByteStep(s: Ring): Ring {
    if s.prod.Writing? && s.w < |s.msgs| && s.prod.done < |s.msgs[s.w]| && s.pw < |s.slots| && s.prod.done < |s.slots[s.pw].data| then
      var x := s.slots[s.pw];
      SetSlot(s, s.pw, x.(data := x.data[s.prod.done := s.msgs[s.w][s.prod.done]])).(prod := Writing(s.prod.done + 1))
    else s
  }

  /** pipe_publish, store by store. */
  function PutLenStep(s: Ring): Ring {
    if s.prod.Writing? && s.w < |s.msgs| && s.prod.done == |s.msgs[s.w]| && s.pw < |s.slots| then
      SetSlot(s, s.pw, s.slots[s.pw].(len := s.prod.done)).(prod := Sized)
    else s
  }

  function StampStep(s: Ring): Ring {
    if s.prod.Sized? && s.pw < |s.slots| then
      SetSlot(s, s.pw, s.slots[s.pw].(stamp := 2 * s.w)).(prod := Stamped)
    else s
  }

  function BumpStep(s: Ring): Ring {
    if s.prod.Stamped? then s.(w := s.w + 1, marked := false, prod := Bumped) else s
  }

  function AdvanceStep(s: Ring): Ring {
    if s.prod.Bumped? && |s.slots| > 0 then s.(pw := Next(s, s.pw), prod := Ready) else s
  }

  /** v_bus_cancel: nothing was published, but what was written stays written. */
  function CancelStep(s: Ring): Ring {
    if s.prod.Writing? && s.w <= |s.msgs| then s.(prod := Ready, msgs := s.msgs[..s.w]) else s
  }

  // --- Consumer -----------------------------------------------------------------------------------

  /** v_bus_subscribe. */
  function Join(s: Ring): Reader { Reader(s.w, s.pw, Away, 0, s.w, s.prod.Bumped?, []) }

  /** Start of v_bus_pop or v_bus_peek. */
  function StartStep(u: Reader, fast: bool, view: bool, cap: nat): Reader {
    if u.cons.Away? then u.(cons := Scan(fast, view, u.expected, u.cursor), cap := cap) else u
  }

  /** The message the reader was after is gone: pipe_next gives up and leaves it to pipe_read, which
      goes on with the next one. */
  function Skip(s: Ring, u: Reader): Cons
    requires |s.slots| > 0 && (u.cons.Look? || u.cons.Copy?)
  {
    var view := u.cons.Look? && u.cons.view;
    if u.cons.fast then Scan(false, view, u.expected, u.cursor)
    else Scan(false, view, u.cons.r + 1, Next(s, u.cons.rd))
  }

  /** Load next_seq: nothing there, lapped, or look at the slot. Lapped, pipe_read jumps to the
      oldest slot that still holds data. */
  function ScanStep(s: Ring, u: Reader): Reader
    requires u.cons.Scan? && |s.slots| > 0
  {
    var n, r := |s.slots|, u.cons.r;
    if s.w <= r then u.(cons := if u.cons.fast then Scan(false, u.cons.view, u.expected, u.cursor) else Away)
    else if s.w - r > n then
      if u.cons.fast then u.(cons := Scan(false, u.cons.view, u.expected, u.cursor))
      else u.(cons := Look(false, u.cons.view, s.w - n, (u.cons.rd + (s.w - n - r) % n) % n))
    else u.(cons := Look(u.cons.fast, u.cons.view, r, u.cons.rd))
  }

  function LookStep(s: Ring, u: Reader): Reader
    requires u.cons.Look? && u.cons.rd < |s.slots|
  {
    if s.slots[u.cons.rd].stamp == 2 * u.cons.r
    then u.(cons := Measure(u.cons.fast, u.cons.view, u.cons.r, u.cons.rd))
    else u.(cons := Skip(s, u))
  }

  /** A peek is done here: the slot is the view. A pop whose buffer is too small gives up; v_bus_pop's
      own test only looks, and it loads the length again for its copy. */
  function MeasureStep(s: Ring, u: Reader): Reader
    requires u.cons.Measure? && u.cons.rd < |s.slots|
  {
    var len := s.slots[u.cons.rd].len;
    if u.cons.view then
      u.(expected := u.cons.r, cursor := u.cons.rd,
                cons := View(u.cons.rd, len, if u.cons.r >= u.expected then u.cons.r - u.expected else 0, []))
    else if len <= u.cap then
      u.(cons := if u.cons.fast then Reload(u.cons.r, u.cons.rd) else Copy(false, u.cons.r, u.cons.rd, len, []))
    else if u.cons.fast then u.(cons := Scan(false, false, u.expected, u.cursor))
    else u.(cons := Away)
  }

  function ReloadStep(s: Ring, u: Reader): Reader
    requires u.cons.Reload? && u.cons.rd < |s.slots|
  {
    u.(cons := Copy(true, u.cons.r, u.cons.rd, s.slots[u.cons.rd].len, []))
  }

  /** One byte of the copy, or, when it is complete, the second look at the stamp. */
  function CopyStep(s: Ring, u: Reader): Reader
    requires u.cons.Copy? && u.cons.rd < |s.slots|
  {
    var x, k := s.slots[u.cons.rd], |u.cons.buf|;
    if k < u.cons.len && k < |x.data| then
      u.(cons := Copy(u.cons.fast, u.cons.r, u.cons.rd, u.cons.len, u.cons.buf + [x.data[k]]))
    else if x.stamp == 2 * u.cons.r then
      u.(expected := u.cons.r + 1, cursor := Next(s, u.cons.rd), cons := Away,
                got := u.got + [Whole(u.cons.r, if u.cons.r >= u.expected then u.cons.r - u.expected else 0, s.Claims(), u.cons.buf, u.cap)])
    else u.(cons := Skip(s, u))
  }

  /** The reader looks at one more byte of its view. */
  function ViewStep(s: Ring, u: Reader): Reader
    requires u.cons.View? && u.cons.rd < |s.slots|
  {
    var x, k := s.slots[u.cons.rd], |u.cons.buf|;
    if k < u.cons.len && k < |x.data| then
      u.(cons := View(u.cons.rd, u.cons.len, u.cons.missed, u.cons.buf + [x.data[k]]))
    else u
  }

  /** v_bus_release: the view was good if the stamp is still the one it should be. */
  function ReleaseStep(s: Ring, u: Reader): Reader {
    if u.cons.View? && u.cons.rd < |s.slots| then
      var d := if s.slots[u.cons.rd].stamp == 2 * u.expected
               then Viewed(u.expected, u.cons.missed, s.Claims(), u.cons.buf) else Stale(u.expected, u.cons.missed, s.Claims());
      u.(expected := u.expected + 1, cursor := Next(s, u.cons.rd), cons := Away, got := u.got + [d])
    else u
  }

  function ConsStep(s: Ring, u: Reader): Reader {
    if |s.slots| == 0 then u
    else
      match u.cons
      case Scan(_, _, _, _) => ScanStep(s, u)
      case Look(_, _, _, rd) => if rd < |s.slots| then LookStep(s, u) else u
      case Measure(_, _, _, rd) => if rd < |s.slots| then MeasureStep(s, u) else u
      case Reload(_, rd) => if rd < |s.slots| then ReloadStep(s, u) else u
      case Copy(_, _, rd, _, _) => if rd < |s.slots| then CopyStep(s, u) else u
      case View(rd, _, _, _) => if rd < |s.slots| then ViewStep(s, u) else u
      case Away => u
  }

  predicate ProducerOp(op: Op) {
    op.Claim? || op.PutByte? || op.PutLen? || op.Stamp? || op.Bump? || op.Advance? || op.Cancel?
  }

  function Produce(s: Ring, reader: Option<Reader>, op: Op): Ring {
    match op
    case Claim(payload) => ClaimStep(s, reader, payload)
    case PutByte => PutByteStep(s)
    case PutLen => PutLenStep(s)
    case Stamp => StampStep(s)
    case Bump => BumpStep(s)
    case Advance => AdvanceStep(s)
    case Cancel => CancelStep(s)
    case _ => s
  }

  function Consume(s: Ring, u: Reader, op: Op): Reader {
    match op
    case Pop(fast, cap) => StartStep(u, fast, false, cap)
    case Peek(fast) => StartStep(u, fast, true, 0)
    case Step => ConsStep(s, u)
    case Release => ReleaseStep(s, u)
    case _ => u
  }

  /** A step of a pipe. A reader attaches at any time. */
  function Apply(s: State, op: Op): State {
    if ProducerOp(op) then s.(ring := Produce(s.ring, s.reader, op))
    else if op.Subscribe? then
      if s.reader.None? then s.(reader := Some(Join(s.ring))) else s
    else if op.Unsubscribe? then s.(reader := None)
    else if s.reader.Some? then s.(reader := Some(Consume(s.ring, s.reader.value, op)))
    else s
  }

  /** A pipe of n slots of `room` bytes, as declared: every slot stamped as never published. */
  function Init(overflow: Overflow, n: nat, room: nat): State {
    State(Ring(overflow, seq(n, i => Slot(1, 0, seq(room, j => 0))), 0, 0, Ready, [], false), None)
  }

  function Run(overflow: Overflow, n: nat, room: nat, ops: seq<Op>): State {
    if ops == [] then Init(overflow, n, room) else Apply(Run(overflow, n, room, ops[..|ops| - 1]), ops[|ops| - 1])
  }
}
