/** Publishing on a pipe from end to end: what is accepted, and what is in the ring afterwards. */
module PipeWhole {
  import opened Lists
  import opened Modular
  import opened PipeModel
  import opened PipeProof
  import opened PipeRuns
  import Steps

  /** The producer's steps for one message, those for its bytes, and those that publish it. */
  function Publishing(payload: Bytes): seq<Op> { [Claim(payload)] + Filling(|payload|) + Closing() }

  function Filling(k: nat): seq<Op> { seq(k, i => PutByte) }

  function Closing(): seq<Op> { [PutLen, Stamp, Bump, Advance] }

  /** There is room: the message fits a slot, and a drop pipe's reader is less than a ring behind. */
  ghost predicate HasRoom(s: State, payload: Bytes)
    requires |s.ring.slots| > 0
  {
    && |payload| <= |s.ring.slots[0].data|
    && (s.ring.overflow.Drop? && s.reader.Some? ==> s.ring.w < s.reader.value.expected + |s.ring.slots|)
  }

  /** Only the slot of message w was written to. */
  ghost predicate OneSlot(s: Ring, r: Ring)
    requires |s.slots| > 0
  {
    |r.slots| == |s.slots| && forall i :: 0 <= i < |s.slots| && i != s.w % |s.slots| ==> r.slots[i] == s.slots[i]
  }

  /** The first k bytes of the next message are in its slot. */
  ghost predicate Filled(s: State, r: State, payload: Bytes, k: nat)
    requires |s.ring.slots| > 0
  {
    && k <= |payload| && r.reader == s.reader && OneSlot(s.ring, r.ring)
    && r.ring.w == s.ring.w && r.ring.pw == s.ring.pw && r.ring.overflow == s.ring.overflow
    && r.ring.prod == Writing(k) && r.ring.msgs == s.ring.msgs + [payload]
    && |At(r.ring, s.ring.w).data| == |At(s.ring, s.ring.w).data| >= |payload|
    && At(r.ring, s.ring.w).data[..k] == payload[..k]
  }

  lemma Claimed(s: State, payload: Bytes)
    requires RingLaw(s.ring) && s.ring.prod.Ready? && HasRoom(s, payload)
    ensures Filled(s, Apply(s, Claim(payload)), payload, 0)
  {
    hide Keeps;
    var r := s.ring;
    assert r.pw == r.w % |r.slots| && |r.slots[r.pw].data| == |r.slots[0].data|;
  }

  lemma Turned(s: State, payload: Bytes)
    requires RingLaw(s.ring) && s.ring.prod.Ready? && !HasRoom(s, payload)
    ensures Apply(s, Claim(payload)) == s
  {
    hide Keeps;
    var r := s.ring;
    assert r.pw == r.w % |r.slots| && |r.slots[r.pw].data| == |r.slots[0].data|;
  }

  lemma OneByte(s: State, r: State, payload: Bytes, k: nat)
    requires |s.ring.slots| > 0 && Filled(s, r, payload, k) && k < |payload| && s.ring.w == |s.ring.msgs| && s.ring.pw == s.ring.w % |s.ring.slots|
    ensures Filled(s, Apply(r, PutByte), payload, k + 1)
  {
    var x := At(r.ring, s.ring.w);
    assert r.ring.msgs[r.ring.w] == payload;
    assert x.data[k := payload[k]][..k + 1] == x.data[..k] + [payload[k]];
    assert payload[..k + 1] == payload[..k] + [payload[k]];
  }

  lemma {:induction false} AllBytes(s: State, r: State, payload: Bytes, k: nat, m: nat)
    requires |s.ring.slots| > 0 && Filled(s, r, payload, k) && k + m <= |payload| && s.ring.w == |s.ring.msgs| && s.ring.pw == s.ring.w % |s.ring.slots|
    ensures Filled(s, On(r, Filling(m)), payload, k + m)
    decreases m
  {
    hide Filled, Apply;
    if m > 0 {
      OneByte(s, r, payload, k);
      assert Filling(m) == [PutByte] + Filling(m - 1);
      OneByOne(r, Filling(m), PutByte, Filling(m - 1));
      AllBytes(s, Apply(r, PutByte), payload, k + 1, m - 1);
    }
  }

  lemma Closed(s: State, r: State, payload: Bytes)
    requires |s.ring.slots| > 0 && Filled(s, r, payload, |payload|) && s.ring.w == |s.ring.msgs| && s.ring.pw == s.ring.w % |s.ring.slots|
    ensures Published(s, On(r, Closing()), payload)
  {
    var n, w := |s.ring.slots|, s.ring.w;
    var r1 := Apply(r, PutLen);
    var r2 := Apply(r1, Stamp);
    var r3 := Apply(r2, Bump);
    var r4 := Apply(r3, Advance);
    OneByOne(r, Closing(), PutLen, [Stamp, Bump, Advance]);
    OneByOne(r1, [Stamp, Bump, Advance], Stamp, [Bump, Advance]);
    OneByOne(r2, [Bump, Advance], Bump, [Advance]);
    OneByOne(r3, [Advance], Advance, []);
    ModNext(w, n);
    assert r.ring.msgs[w] == payload;
  }

  /** The message is the newest, whole, in its slot, and nothing else has changed. */
  ghost predicate Published(s: State, r: State, payload: Bytes)
    requires |s.ring.slots| > 0
  {
    && r.reader == s.reader && OneSlot(s.ring, r.ring) && r.ring.overflow == s.ring.overflow
    && r.ring.w == s.ring.w + 1 && r.ring.msgs == s.ring.msgs + [payload] && r.ring.prod.Ready? && !r.ring.marked
    && r.ring.pw == r.ring.w % |s.ring.slots| && Holds(r.ring, s.ring.w)
  }

  /** A message is accepted exactly when there is room for it. Published without a consumer's step in
      between it is then the newest one, whole in its slot; otherwise nothing has changed. */
  lemma {:induction false} PublishesWhole(s: State, payload: Bytes)
    requires RingLaw(s.ring) && s.ring.prod.Ready?
    ensures if HasRoom(s, payload) then Published(s, On(s, Publishing(payload)), payload) else On(s, Publishing(payload)) == s
  {
    hide Filled, Published;
    var c := Apply(s, Claim(payload));
    var rest := Filling(|payload|) + Closing();
    assert Publishing(payload) == [Claim(payload)] + rest;
    OneByOne(s, Publishing(payload), Claim(payload), rest);
    Steps.OnAppend(Apply, c, Filling(|payload|), Closing());
    if HasRoom(s, payload) {
      Claimed(s, payload);
      AllBytes(s, c, payload, 0, |payload|);
      Closed(s, On(c, Filling(|payload|)), payload);
    } else {
      Turned(s, payload);
      NothingTodo(s, Filling(|payload|));
      NothingTodo(s, Closing());
    }
  }

  /** The producer's other steps do nothing while no message is being written. */
  lemma {:induction false} NothingTodo(s: State, ops: seq<Op>)
    requires s.ring.prod.Ready? && forall i :: 0 <= i < |ops| ==> ProducerOp(ops[i]) && !ops[i].Claim?
    ensures On(s, ops) == s
    decreases |ops|
  {
    if ops != [] {
      OneByOne(s, ops, ops[0], ops[1..]);
      NothingTodo(s, ops[1..]);
    }
  }

  /** A message given up half way leaves no trace but in its slot. */
  lemma {:induction false} CancelUndoes(s: State, payload: Bytes, k: nat)
    requires RingLaw(s.ring) && s.ring.prod.Ready? && HasRoom(s, payload) && k <= |payload|
    ensures var r := On(s, [Claim(payload)] + Filling(k) + [Cancel]);
      && r.reader == s.reader && OneSlot(s.ring, r.ring) && r.ring == s.ring.(slots := r.ring.slots, marked := r.ring.marked)
  {
    var c := Apply(s, Claim(payload));
    assert [Claim(payload)] + Filling(k) + [Cancel] == [Claim(payload)] + (Filling(k) + [Cancel]);
    OneByOne(s, [Claim(payload)] + Filling(k) + [Cancel], Claim(payload), Filling(k) + [Cancel]);
    Steps.OnAppend(Apply, c, Filling(k), [Cancel]);
    Claimed(s, payload);
    AllBytes(s, c, payload, 0, k);
    var d := On(c, Filling(k));
    OneByOne(d, [Cancel], Cancel, []);
    assert (s.ring.msgs + [payload])[..s.ring.w] == s.ring.msgs;
  }
}
