/** The consumer's loops on a pipe, as they run: before every access to shared memory the producer
    may get any number of its own steps in. */
module PipeImpl {
  import opened Lists
  import opened Modular
  import opened PipeModel
  import opened PipeProof

  datatype Status = Pass | Fail | TooBig | Again

  class Pipe {
    var ring: Ring
    var expected: nat
    var cursor: nat
    var producer: seq<Op> // what the producer is going to do from here on
    ghost var u: Reader

    ghost predicate Valid()
      reads this
    {
      && Inv(State(ring, Some(u))) && !u.late && |ring.slots| > 0 && u.expected == expected && u.cursor == cursor
      && (forall i :: 0 <= i < |producer| ==> ProducerOp(producer[i]))
    }

    constructor (overflow: Overflow, n: nat, room: nat, script: seq<Op>)
      requires n > 0 && forall i :: 0 <= i < |script| ==> ProducerOp(script[i])
      ensures Valid() && u.cons.Away? && u.got == [] && u.start == 0 && producer == script
    {
      ring := Init(overflow, n, room).ring;
      expected, cursor, producer := 0, 0, script;
      u := Join(Init(overflow, n, room).ring);
      new;
      RunsKeepInv(overflow, n, room, []);
      StepInv(Init(overflow, n, room), Subscribe);
    }

    /** The producer gets some steps in. */
    method Interleave()
      requires Valid()
      modifies this`ring, this`producer
      ensures Valid() && |producer| <= |old(producer)| && ring.w >= old(ring).w && |ring.slots| == |old(ring).slots|
      ensures |producer| == |old(producer)| ==> ring == old(ring) && producer == old(producer)
    {
      hide Inv;
      var k: nat := *;
      ghost var all := producer;
      while k > 0 && producer != []
        invariant Valid() && ring.w >= old(ring).w && |ring.slots| == |old(ring).slots| && |producer| <= |all|
        invariant |producer| == |all| ==> ring == old(ring) && producer == all
        decreases |producer|
      {
        StepInv(State(ring, Some(u)), producer[0]);
        OneStep(ring, u, producer[0]);
        ring := Produce(ring, Some(Reader(expected, cursor, Away, 0, 0, false, [])), producer[0]);
        producer := producer[1..];
        k := k - 1;
      }
    }

    /** The consumer's own progress, in history. */
    ghost method Consumed()
      requires Valid()
      modifies this`u
      ensures u == ConsStep(ring, old(u)) && Inv(State(ring, Some(u))) && !u.late
    {
      hide Inv;
      StepInv(State(ring, Some(u)), Step);
      u := ConsStep(ring, u);
    }

    ghost method Started(fast: bool, view: bool, cap: nat)
      requires Valid() && u.cons.Away?
      modifies this`u
      ensures Valid() && u == StartStep(old(u), fast, view, if view then 0 else cap)
    {
      hide Inv;
      StepInv(State(ring, Some(u)), if view then Peek(fast) else Pop(fast, cap));
      u := StartStep(u, fast, view, if view then 0 else cap);
    }

    /** `steps` slots further round the ring. */
    method Seek(from: nat, steps: nat) returns (rd: nat)
      requires Valid() && from < |ring.slots|
      ensures rd == (from + steps) % |ring.slots|
    {
      rd := from;
      var k := 0;
      ModSmall(from, |ring.slots|);
      while k < steps
        invariant k <= steps && rd == (from + k) % |ring.slots|
      {
        ModNext(from + k, |ring.slots|);
        rd := Next(ring, rd);
        k := k + 1;
      }
    }

    // --- The calls ----------------------------------------------------------------------------------------

    /** v_bus_pop on a pipe: the fast path, or pipe_read. What it returns is what was published under
        the number it stands for and fits the buffer, whatever the producer did in the meantime; the
        messages it skipped had been reclaimed. It ends when the producer does. */
    method TryPop(cap: nat) returns (status: Status, out: Bytes, missed: nat)
      requires Valid() && u.cons.Away?
      modifies this
      ensures Valid() && u.cons.Away? && u.start == old(u.start)
      ensures status.Pass? ==> Got(ring, old(u), u, out, missed, cap) && |out| <= cap
      ensures !status.Pass? ==> (status.Fail? || status.TooBig?) && u.got == old(u.got) && expected == old(expected)
      ensures status.Fail? ==> NothingLeft(ring, expected)
      ensures status.TooBig? ==> TooLong(ring, expected, cap)
    {
      hide Inv, AllLost, NothingLeft, TooLong;
      Started(true, false, cap);
      var done;
      done, out := PopFast(cap);
      if done { return Pass, out, 0; }
      var len;
      status, out, len, missed := PipeRead(cap, false);
    }

    /** The fast path of v_bus_pop. */
    method PopFast(cap: nat) returns (done: bool, out: Bytes)
      requires Valid() && u.cons == Scan(true, false, expected, cursor) && u.cap == cap
      modifies this
      ensures Valid() && u.start == old(u.start)
      ensures done ==> Got(ring, old(u), u, out, 0, cap) && |out| <= cap
      ensures !done ==> u == old(u).(cons := Scan(false, false, expected, cursor)) && expected == old(expected)
    {
      hide Inv, AllLost;
      var r := expected;
      out := [];
      var found := PipeNext(false);
      if !found { return false, out; }
      Interleave();
      StageFacts(ring, u);
      var len := ring.slots[cursor].len;
      Consumed();
      if len > cap { return false, out; }
      Interleave();
      StageFacts(ring, u);
      len := ring.slots[cursor].len;
      Consumed();
      var stamp;
      out, stamp := CopyOut(true, r, cursor, len);
      done := stamp == 2 * r;
      if done { expected, cursor := r + 1, Next(ring, cursor); }
    }

    /** v_bus_peek on a pipe. */
    method TryPeek() returns (status: Status, len: nat, missed: nat)
      requires Valid() && u.cons.Away?
      modifies this
      ensures Valid() && u.start == old(u.start)
      ensures status.Pass? ==> Seen(ring, old(u), u, len, missed)
      ensures !status.Pass? ==> status.Fail? && u.cons.Away? && u.got == old(u.got) && expected == old(expected)
      ensures status.Fail? ==> NothingLeft(ring, expected)
    {
      hide Inv, NothingLeft;
      Started(true, true, 0);
      missed := 0;
      var found := PipeNext(true);
      if found {
        Interleave();
        StageFacts(ring, u);
        ViewFacts(ring, u);
        len := ring.slots[cursor].len;
        Consumed();
        return Pass, len, missed;
      }
      var out;
      status, out, len, missed := PipeRead(0, true);
    }

    /** v_bus_release on a pipe: whether the view had been handed out again. */
    method Release() returns (stale: bool)
      requires Valid() && u.cons.View?
      modifies this
      ensures Valid() && u.cons.Away? && u.expected == old(u.expected) + 1 && |u.got| == |old(u.got)| + 1
      ensures stale <==> Lost(ring, old(u.expected))
      ensures stale <==> u.got[|old(u.got)|].Stale?
    {
      hide Inv;
      Interleave();
      StepInv(State(ring, Some(u)), PipeModel.Op.Release);
      ViewedFacts(ring, u);
      stale := ring.slots[cursor].stamp != 2 * expected;
      u := ReleaseStep(ring, u);
      expected, cursor := expected + 1, Next(ring, cursor);
    }

    // --- The fast path ------------------------------------------------------------------------------------

    /** pipe_next: load next_seq, then the stamp. */
    method PipeNext(view: bool) returns (found: bool)
      requires Valid() && u.cons == Scan(true, view, expected, cursor)
      modifies this`ring, this`producer, this`u
      ensures Valid() && u == old(u).(cons := if found then Measure(true, view, expected, cursor) else Scan(false, view, expected, cursor))
      ensures |ring.slots| == |old(ring).slots|
    {
      hide Inv;
      Interleave();
      StageFacts(ring, u);
      var w := ring.w;
      Consumed();
      if w == expected || w - expected > |ring.slots| { return false; }
      Interleave();
      StageFacts(ring, u);
      found := ring.slots[cursor].stamp == 2 * expected;
      Consumed();
    }

    /** copy_payload. */
    method CopyBytes(fast: bool, r: nat, rd: nat, len: nat) returns (out: Bytes)
      requires Valid() && u.cons == Copy(fast, r, rd, len, [])
      modifies this`ring, this`producer, this`u
      ensures Valid() && |ring.slots| == |old(ring).slots| && Later(old(producer), producer, old(ring), ring)
      ensures |out| == len && u == old(u).(cons := Copy(fast, r, rd, len, out))
    {
      hide Inv;
      out := [];
      StageFacts(ring, u);
      while |out| < len
        invariant Valid() && u == old(u).(cons := Copy(fast, r, rd, len, out)) && |out| <= len && |ring.slots| == |old(ring).slots|
        invariant Later(old(producer), producer, old(ring), ring)
        decreases len - |out|
      {
        Interleave();
        StageFacts(ring, u);
        out := out + [ring.slots[rd].data[|out|]];
        Consumed();
      }
    }

    /** copy_payload, and the second look at the stamp. */
    method CopyOut(fast: bool, r: nat, rd: nat, len: nat) returns (out: Bytes, stamp: nat)
      requires Valid() && u.cons == Copy(fast, r, rd, len, [])
      modifies this`ring, this`producer, this`u
      ensures Inv(State(ring, Some(u))) && !u.late && |ring.slots| == |old(ring).slots| && |ring.slots| > 0 && rd < |ring.slots|
      ensures forall i :: 0 <= i < |producer| ==> ProducerOp(producer[i])
      ensures |producer| <= |old(producer)| && ring.w >= old(ring).w && r < ring.w && (|producer| == |old(producer)| ==> ring == old(ring))
      ensures stamp == 2 * r ==> Got(ring, old(u), u, out, r - old(u).expected, old(u).cap) && |out| <= old(u).cap && u.start == old(u).start
      ensures stamp == 2 * r ==> r >= old(u).expected && u.expected == r + 1 && u.cursor == Next(ring, rd)
      ensures stamp != 2 * r ==> u == old(u).(cons :=
        if fast then Scan(false, false, old(u).expected, old(u).cursor) else Scan(false, false, r + 1, Next(ring, rd)))
    {
      hide Inv, AllLost, ConsStep;
      out := CopyBytes(fast, r, rd, len);
      Interleave();
      StageFacts(ring, u);
      CopyFacts(ring, u);
      CopiedFacts(ring, u);
      stamp := ring.slots[rd].stamp;
      Consumed();
    }

    // --- The slow path ------------------------------------------------------------------------------------

    /** pipe_read: find the oldest message not read yet and copy it out, or point at it. */
    method PipeRead(cap: nat, view: bool) returns (status: Status, out: Bytes, len: nat, missed: nat)
      requires Valid() && u.cons == Scan(false, view, expected, cursor) && u.cap == cap
      modifies this
      ensures Valid() && u.start == old(u.start)
      ensures !view && status.Pass? ==> Got(ring, old(u), u, out, missed, cap) && |out| <= cap
      ensures view && status.Pass? ==> Seen(ring, old(u), u, len, missed)
      ensures !status.Pass? ==> u.cons.Away? && u.got == old(u.got) && expected == old(expected)
      ensures !status.Pass? ==> status.Fail? || (status.TooBig? && !view)
      ensures status.Fail? ==> NothingLeft(ring, expected)
      ensures status.TooBig? ==> TooLong(ring, expected, cap)
    {
      hide Inv, NothingLeft, TooLong;
      var r, rd := expected, cursor;
      status, out, len, missed := Again, [], 0, 0;
      while status == Again
        invariant Valid() && u.start == old(u.start) && |ring.slots| == |old(ring).slots|
        invariant status.Again? ==> u == old(u).(cons := Scan(false, view, r, rd)) && expected == old(expected)
        invariant status.Fail? || status.TooBig? ==> u.cons.Away? && expected == old(expected) && u.got == old(u.got)
        invariant (status.Fail? ==> NothingLeft(ring, expected)) && (status.TooBig? ==> !view && TooLong(ring, expected, cap))
        invariant !view && status.Pass? ==> Got(ring, old(u), u, out, missed, cap) && |out| <= cap
        invariant view && status.Pass? ==> Seen(ring, old(u), u, len, missed)
        decreases status.Again?, |producer|, if ring.w >= r then ring.w - r else 0
      {
        status, out, len, missed, r, rd := Attempt(cap, view, r, rd);
      }
    }

    /** One round of pipe_read's loop. */
    method Attempt(cap: nat, view: bool, r0: nat, rd0: nat)
      returns (status: Status, out: Bytes, len: nat, missed: nat, r: nat, rd: nat)
      requires Valid() && u.cons == Scan(false, view, r0, rd0) && u.cap == cap
      modifies this
      ensures Valid() && u.start == old(u.start) && |ring.slots| == |old(ring).slots|
      ensures status.Again? ==> u == old(u).(cons := Scan(false, view, r, rd)) && Moved(old(producer), producer, old(ring), ring, r0, r)
      ensures status.Fail? || status.TooBig? ==> u.cons.Away?
      ensures status.TooBig? ==> !view
      ensures !status.Pass? ==> u.got == old(u.got) && expected == old(expected)
      ensures !view && status.Pass? ==> Got(ring, old(u), u, out, missed, cap) && |out| <= cap
      ensures view && status.Pass? ==> Seen(ring, old(u), u, len, missed)
      ensures (status.Fail? ==> NothingLeft(ring, expected)) && (status.TooBig? ==> TooLong(ring, expected, cap))
    {
      hide Inv, NothingLeft, TooLong;
      out, missed := [], 0;
      status, len, missed, r, rd := Find(cap, view, r0, rd0);
      if status != Pass || view { return; }
      var stamp;
      out, stamp := CopyOut(false, r, rd, len);
      if stamp != 2 * r {
        status, r, rd := Again, r + 1, Next(ring, rd);
        return;
      }
      missed := r - expected;
      expected, cursor := r + 1, Next(ring, rd);
    }

    /** Look for a message: load next_seq, jump if lapped, check the stamp, load the length. */
    method Find(cap: nat, view: bool, r0: nat, rd0: nat) returns (status: Status, len: nat, missed: nat, r: nat, rd: nat)
      requires Valid() && u.cons == Scan(false, view, r0, rd0) && u.cap == cap
      modifies this
      ensures Valid() && u.start == old(u.start) && u.got == old(u.got) && |ring.slots| == |old(ring).slots|
      ensures status.Again? ==> u == old(u).(cons := Scan(false, view, r, rd)) && Moved(old(producer), producer, old(ring), ring, r0, r)
      ensures status.Fail? || status.TooBig? ==> u.cons.Away?
      ensures status.TooBig? ==> !view
      ensures !view || !status.Pass? ==> expected == old(expected)
      ensures !view && status.Pass? ==> u == old(u).(cons := Copy(false, r, rd, len, [])) && r0 <= r && Moved(old(producer), producer, old(ring), ring, r0, r + 1)
      ensures view && status.Pass? ==> Seen(ring, old(u), u, len, missed)
      ensures (status.Fail? ==> NothingLeft(ring, expected)) && (status.TooBig? ==> TooLong(ring, expected, cap))
    {
      hide Inv, ConsStep, Moved, AllLost, NothingLeft, TooLong;
      len, missed := 0, 0;
      var found;
      found, r, rd := Locate(view, r0, rd0);
      if !found { return Fail, len, missed, r, rd; }
      ghost var p1, s1 := producer, ring;
      found := Stamped(view, r, rd);
      MovedOn(old(producer), p1, producer, old(ring), s1, ring, r0, r + 1);
      if !found { return Again, len, missed, r + 1, Next(ring, rd); }
      ghost var p2, s2 := producer, ring;
      status, len, missed := Sized(cap, view, r, rd);
      MovedOn(old(producer), p2, producer, old(ring), s2, ring, r0, r + 1);
    }

    /** Load the stamp. */
    method Stamped(view: bool, r: nat, rd: nat) returns (found: bool)
      requires Valid() && u.cons == Look(false, view, r, rd)
      modifies this`ring, this`producer, this`u
      ensures Valid() && |ring.slots| == |old(ring).slots| && Later(old(producer), producer, old(ring), ring)
      ensures u == old(u).(cons := if found then Measure(false, view, r, rd) else Scan(false, view, r + 1, Next(ring, rd)))
    {
      hide Inv;
      Interleave();
      StageFacts(ring, u);
      found := ring.slots[rd].stamp == 2 * r;
      Consumed();
    }

    /** Load the length. */
    method Sized(cap: nat, view: bool, r: nat, rd: nat) returns (status: Status, len: nat, missed: nat)
      requires Valid() && u.cons == Measure(false, view, r, rd) && u.cap == cap
      modifies this
      ensures Valid() && |ring.slots| == |old(ring).slots| && Later(old(producer), producer, old(ring), ring)
      ensures status.Pass? || (status.TooBig? && !view)
      ensures view ==> Seen(ring, old(u), u, len, missed) && u.start == old(u.start)
      ensures !view ==> u == old(u).(cons := if status.Pass? then Copy(false, r, rd, len, []) else Away) && expected == old(expected)
      ensures status.TooBig? ==> TooLong(ring, expected, cap)
    {
      hide Inv, AllLost, TooLong;
      Interleave();
      StageFacts(ring, u);
      ViewFacts(ring, u);
      if ring.slots[rd].len > cap { LongOne(ring, u, cap); }
      len, missed := ring.slots[rd].len, 0;
      Consumed();
      if view {
        missed := r - expected;
        expected, cursor := r, rd;
        return Pass, len, missed;
      }
      status := if len > cap then TooBig else Pass;
    }

    /** Round the ring to the oldest slot that may still hold data. */
    method Lapped(w: nat, r: nat, rd: nat) returns (to: nat)
      requires Valid() && rd < |ring.slots| && w > r + |ring.slots|
      ensures to == JumpTo(|ring.slots|, w, r, rd)
    {
      hide Inv;
      to := Seek(rd, (w - |ring.slots| - r) % |ring.slots|);
    }

    /** Load next_seq: caught up, or a slot to look at, which after being lapped is the oldest one. */
    method Locate(view: bool, r0: nat, rd0: nat) returns (found: bool, r: nat, rd: nat)
      requires Valid() && u.cons == Scan(false, view, r0, rd0)
      modifies this`ring, this`producer, this`u
      ensures Valid() && |ring.slots| == |old(ring).slots|
      ensures u == old(u).(cons := if found then Look(false, view, r, rd) else Away)
      ensures found ==> r0 <= r && Moved(old(producer), producer, old(ring), ring, r0, r + 1)
      ensures !found ==> NothingLeft(ring, expected)
    {
      hide Inv, ConsStep, JumpTo, AllLost, NothingLeft;
      r, rd := r0, rd0;
      Interleave();
      var w, depth := ring.w, |ring.slots|;
      StageFacts(ring, u);
      ScanFacts(ring, u);
      found := w != r;
      if !found { CaughtUp(ring, u); }
      if w > r + depth {
        rd := Lapped(w, r, rd);
        r := w - depth;
      }
      Consumed();
    }
  }

  /** The producer did something, or the reader is further along a ring that has not moved. */
  ghost predicate Moved(p: seq<Op>, q: seq<Op>, s: Ring, t: Ring, r0: nat, r: nat) {
    |q| < |p| || (|q| == |p| && r0 < r <= t.w == s.w)
  }

  ghost predicate Later(p: seq<Op>, q: seq<Op>, s: Ring, t: Ring) {
    |q| <= |p| && t.w >= s.w && (|q| == |p| ==> t == s)
  }

  lemma MovedOn(p: seq<Op>, p1: seq<Op>, q: seq<Op>, s: Ring, s1: Ring, t: Ring, r0: nat, r: nat)
    requires Moved(p, p1, s, s1, r0, r) && Later(p1, q, s1, t)
    ensures Moved(p, q, s, t, r0, r)
  {
  }

  /** From v to u the reader got one more message: the bytes published under its number, with every
      message in between reclaimed. */
  ghost predicate Got(s: Ring, v: Reader, u: Reader, out: Bytes, missed: nat, cap: nat) {
    && u.cons.Away? && u.expected == v.expected + missed + 1
    && u.expected - 1 < |s.msgs| && out == s.msgs[u.expected - 1]
    && u.got == v.got + [Whole(u.expected - 1, missed, s.Claims(), out, cap)]
    && AllLost(s, v.expected, u.expected - 1)
    && (s.overflow.Drop? ==> missed == 0)
  }

  /** The reader looks at the next message that has not been reclaimed: a view of what was published
      under its number, as long as its slot is not handed out. */
  ghost predicate Seen(s: Ring, v: Reader, u: Reader, len: nat, missed: nat) {
    && u.expected == v.expected + missed && u.got == v.got && u.expected < s.w && u.expected < |s.msgs|
    && u.cons == View(u.cursor, len, missed, []) && u.cursor < |s.slots|
    && AllLost(s, v.expected, u.expected)
    && (s.slots[u.cursor].stamp == 2 * u.expected ==> len == |s.msgs[u.expected]|)
    && (s.overflow.Drop? ==> missed == 0)
  }

  /** Every message published that the reader has not had has been reclaimed; on a drop pipe there is none. */
  ghost predicate NothingLeft(s: Ring, expected: nat) {
    expected <= s.w && AllLost(s, expected, s.w) && (s.overflow.Drop? ==> expected == s.w)
  }

  /** The oldest message the reader could have had is longer than cap, or reclaimed by now. */
  ghost predicate TooLong(s: Ring, expected: nat, cap: nat) {
    exists r: nat :: expected <= r < s.w && r < |s.msgs| && AllLost(s, expected, r) && (Lost(s, r) || |s.msgs[r]| > cap)
      && (s.overflow.Drop? ==> r == expected && |s.msgs[r]| > cap)
  }

  /** Where the consumer is, in terms of what it may load next. */
  lemma StageFacts(s: Ring, u: Reader)
    requires Inv(State(s, Some(u))) && !u.late
    ensures |s.slots| > 0 && u.cursor < |s.slots|
    ensures u.cons.Reload? ==> u.cons.r == u.expected && u.cons.rd == u.cursor
    ensures u.cons.Scan? || u.cons.Look? || u.cons.Measure? || u.cons.Reload? || u.cons.Copy? ==> u.cons.rd < |s.slots| && u.expected <= u.cons.r <= s.w
    ensures u.cons.Look? || u.cons.Measure? || u.cons.Reload? || u.cons.Copy? ==> u.cons.r < s.w
    ensures u.cons.Copy? ==> |u.cons.buf| <= u.cons.len <= |s.slots[u.cons.rd].data|
    ensures u.cons.Scan? ==> AllLost(s, u.expected, u.cons.r)
  {
  }

  /** A complete copy under the right stamp is the message, and all before it were reclaimed. */
  lemma CopyFacts(s: Ring, u: Reader)
    requires Inv(State(s, Some(u))) && !u.late && u.cons.Copy? && |u.cons.buf| == u.cons.len
    ensures u.cons.rd < |s.slots| && u.cons.r < s.w <= |s.msgs|
    ensures s.slots[u.cons.rd].stamp == 2 * u.cons.r ==>
      && |u.cons.buf| <= u.cap && u.cons.buf == s.msgs[u.cons.r] && AllLost(s, u.expected, u.cons.r)
      && (s.overflow.Drop? ==> u.cons.r == u.expected)
  {
    if s.overflow.Drop? && u.expected < u.cons.r { Unread(s, u, u.expected); }
  }

  ghost function JumpTo(n: nat, w: nat, r: nat, rd: nat): nat
    requires w > r + n > r
  {
    (rd + (w - n - r) % n) % n
  }

  /** The three ways a scan of pipe_read goes. */
  lemma ScanFacts(s: Ring, u: Reader)
    requires |s.slots| > 0 && u.cons.Scan? && !u.cons.fast && u.cons.r <= s.w
    ensures var n, r, rd := |s.slots|, u.cons.r, u.cons.rd;
      ConsStep(s, u) == u.(cons :=
        if s.w == r then Away
        else if s.w > r + n then Look(false, u.cons.view, s.w - n, JumpTo(n, s.w, r, rd))
        else Look(false, u.cons.view, r, rd))
  {
  }

  /** The two ways the second look goes. */
  lemma CopiedFacts(s: Ring, u: Reader)
    requires u.cons.Copy? && u.cons.rd < |s.slots| && |u.cons.buf| == u.cons.len && u.expected <= u.cons.r
    ensures var r, rd := u.cons.r, u.cons.rd;
      ConsStep(s, u) ==
        if s.slots[rd].stamp == 2 * r then
          u.(expected := r + 1, cursor := Next(s, rd), cons := Away, got := u.got + [Whole(r, r - u.expected, s.Claims(), u.cons.buf, u.cap)])
        else u.(cons := if u.cons.fast then Scan(false, false, u.expected, u.cursor) else Scan(false, false, r + 1, Next(s, rd)))
  {
  }

  lemma ViewFacts(s: Ring, u: Reader)
    requires Inv(State(s, Some(u))) && !u.late && u.cons.Measure?
    ensures u.cons.rd < |s.slots| && u.expected <= u.cons.r < s.w <= |s.msgs| && AllLost(s, u.expected, u.cons.r)
    ensures s.slots[u.cons.rd].stamp == 2 * u.cons.r ==> s.slots[u.cons.rd].len == |s.msgs[u.cons.r]|
    ensures s.overflow.Drop? ==> u.cons.r == u.expected
  {
    Unread(s, u, u.cons.r);
    if u.expected < u.cons.r { Unread(s, u, u.expected); }
  }

  lemma CaughtUp(s: Ring, u: Reader)
    requires Inv(State(s, Some(u))) && !u.late && u.cons.Scan? && u.cons.r == s.w
    ensures NothingLeft(s, u.expected)
  {
    assert u.expected < s.w ==> Lost(s, u.expected);
  }

  lemma LongOne(s: Ring, u: Reader, cap: nat)
    requires Inv(State(s, Some(u))) && !u.late && u.cons.Measure? && u.cons.rd < |s.slots| && s.slots[u.cons.rd].len > cap
    ensures TooLong(s, u.expected, cap)
  {
    ViewFacts(s, u);
    Unread(s, u, u.cons.r);
  }

  lemma ViewedFacts(s: Ring, u: Reader)
    requires Inv(State(s, Some(u))) && !u.late && u.cons.View?
    ensures u.cons.rd == u.cursor < |s.slots| && (s.slots[u.cursor].stamp != 2 * u.expected <==> Lost(s, u.expected))
  {
    Unread(s, u, u.expected);
  }

  lemma OneStep(s: Ring, u: Reader, op: Op)
    requires ProducerOp(op)
    ensures Produce(s, Some(Reader(u.expected, u.cursor, Away, 0, 0, false, [])), op) == Produce(s, Some(u), op)
    ensures var t := Produce(s, Some(u), op); t.w >= s.w && |t.slots| == |s.slots|
  {
  }
}
