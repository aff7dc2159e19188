/** The reader operations in memory: consuming, pinning, unsubscribing. */
module BusReaderRep {
  import opened BusState
  import opened BusOps
  import opened BusLoans
  import opened BusAlloc
  import opened BusReaders
  import opened BusDelivery
  import opened BusRuns
  import opened BusRep
  import opened BusQueueRep

  lemma RepOf(c: Mem, s: State, t: nat)
    requires Rep(c, s) && t < |s.topics|
    ensures |c.topics| == |s.topics| && TopicRep(c.desc, c.blockSize, c.topics[t], s.topics[t])
  {
  }

  /** Readers and counts of one topic change, and no block moves. */
  lemma SameBooks(s: State, t: nat, z: Topic)
    requires Books(s) && t < |s.topics|
    requires z == s.topics[t].(queue := z.queue, subs := z.subs)
    requires |z.queue| == |s.topics[t].queue| && forall i :: 0 <= i < |z.queue| ==> z.queue[i].chain == s.topics[t].queue[i].chain
    ensures Books(Put(s, t, z))
  {
    assert TopicBooks(s.topics[t]);
    SameBlocks(s, Put(s, t, z), t);
  }

  // --- consume ------------------------------------------------------------------------------------

  /** The cursors after reader i, which had no peek open, moved on to the message behind its own. */
  lemma AdvancedSubs(r: Rec, x: Topic, i: nat, data: seq<Bytes>, q: Rec)
    requires SubsRep(r, x) && HasNext(x, i) && ReaderLaw(x) && !x.subs[i].peeked
    requires forall j :: 0 <= j < |x.queue| ==> x.queue[j].chain != []
    requires q.subs == r.subs[i := r.subs[i].(cursor := LinkOf(x.queue, x.subs[i].cur - x.Base() + 1), awaits := x.subs[i].cur + 1)]
    ensures SubsRep(q, Advanced(x, i, data))
  {
    var y := Advanced(x, i, data);
    var p := x.subs[i].cur - x.Base();
    assert MsgLaw(x, p);
    forall j | 0 <= j < |x.subs|
      ensures q.subs[j].cursor == CursorOf(y, y.subs[j])
      ensures q.subs[j].peeked == (if y.subs[j].peeked then q.subs[j].cursor else NIL) && q.subs[j].awaits == y.subs[j].awaits
    {
      SameCursor(x, y, y.subs[j]);
    }
  }

  lemma AdvanceRep(c: Mem, s: State, t: nat, i: nat, data: seq<Bytes>, b: Block, d: Mem, s': State)
    requires Rep(c, s) && Books(s) && t < |s.topics| && !s.topics[t].pipe && ReaderLaw(s.topics[t])
    requires HasNext(s.topics[t], i) && !s.topics[t].subs[i].peeked
    requires |c.topics[t].subs| == |s.topics[t].subs| && b == c.topics[t].subs[i].cursor < |c.desc| && c.desc[b].refs > 0
    requires d == c.(desc := c.desc[b := c.desc[b].(refs := c.desc[b].refs - 1)],
                     topics := c.topics[t := c.topics[t].(subs := c.topics[t].subs[i :=
                       c.topics[t].subs[i].(cursor := c.desc[b].link, awaits := c.desc[b].seqno + 1)])])
    requires s' == Put(s, t, Advanced(s.topics[t], i, data))
    ensures Rep(d, s') && Books(s')
  {
    hide Rep, Books, QueueRep, Chained, LooseRep, RingRep;
    var x := s.topics[t];
    var p := x.subs[i].cur - x.Base();
    RepOf(c, s, t);
    CursorFacts(c, s, t, i);
    AdvancedSubs(c.topics[t], x, i, data, d.topics[t]);
    CountRep(c, s, t, p, Unref(x.queue[p], false), d, s');
    SameBooks(s, t, s'.topics[t]);
  }

  /** When its last reference drops, a message is at the head and no reader is at it. */
  lemma LastReader(s: State, t: nat, i: nat, data: seq<Bytes>)
    requires t < |s.topics| && ReaderLaw(s.topics[t]) && HasNext(s.topics[t], i) && Next(s.topics[t], i).refs == 1
    ensures var y := Advanced(s.topics[t], i, data);
      && NobodyAtHead(y) && y.queue != [] && y.queue[0].chain == Next(s.topics[t], i).chain
      && BusOps.TakeHead(Put(s, t, y), t) == Consume(s, t, i, data)
  {
    var x := s.topics[t];
    var y := Advanced(x, i, data);
    LastRefIsHead(x, i);
    assert MsgLaw(x, 0);
    ChangeSub(x.subs, i, y.subs[i], x.queue[0].seqno);
    forall j | 0 <= j < |y.subs| ensures y.subs[j].cur != y.Base() {
      Counted(y.subs, j, x.queue[0].seqno);
    }
    assert Put(Put(s, t, y), t, HeadTaken(y)) == Put(s, t, HeadTaken(y));
  }

  // --- peek and release ---------------------------------------------------------------------------

  ghost function Unpinned(x: Topic, i: nat): Topic
    requires HasNext(x, i)
  {
    var p := x.subs[i].cur - x.Base();
    x.(queue := x.queue[p := x.queue[p].(pins := if x.queue[p].pins > 0 then x.queue[p].pins - 1 else 0)],
       subs := x.subs[i := x.subs[i].(peeked := false)])
  }

  /** Dropping one's own pin is law-abiding, and consuming afterwards is what release does. */
  lemma UnpinnedTopic(s: State, x: Topic, i: nat)
    requires TopicLaw(s, x) && HasNext(x, i) && x.subs[i].peeked
    ensures TopicLaw(s, Unpinned(x, i))
  {
    var z := Unpinned(x, i);
    forall j | 0 <= j < |z.queue| ensures MsgLaw(z, j) && BytesLaw(s.cell, z, j) {
      assert MsgLaw(x, j) && BytesLaw(s.cell, x, j);
      ChangeSub(x.subs, i, z.subs[i], x.queue[j].seqno);
      Counted(x.subs, i, x.queue[j].seqno);
    }
    forall j | 0 <= j < |z.subs|
      ensures CursorLaw(z, z.subs[j]) && SubLaw(z, z.subs[j]) && CopyLaw(s.epoch, z, z.subs[j])
    {
      assert CursorLaw(x, x.subs[j]) && SubLaw(x, x.subs[j]) && CopyLaw(s.epoch, x, x.subs[j]);
      PlaceOnly(x, z, x.subs[j], z.subs[j]);
    }
  }

  lemma UnpinThenConsume(x: Topic, i: nat, data: seq<Bytes>)
    requires ReaderLaw(x) && HasNext(x, i) && x.subs[i].peeked
    ensures HasNext(Unpinned(x, i), i) && Consumed(Unpinned(x, i), i, data) == Consumed(x, i, data)
  {
    var z := Unpinned(x, i);
    var p := x.subs[i].cur - x.Base();
    assert MsgLaw(x, p);
    assert Unref(z.queue[p], false) == Unref(x.queue[p], true);
    assert Advanced(z, i, data).queue == Advanced(x, i, data).queue;
    assert Advanced(z, i, data).subs == Advanced(x, i, data).subs;
    assert Advanced(z, i, data) == Advanced(x, i, data);
  }

  /** One reader's peek mark and the pin count of its message change together. */
  lemma PinRep(c: Mem, s: State, t: nat, i: nat, pins: nat, peeked: bool, b: Block, d: Mem, s': State)
    requires Rep(c, s) && Books(s) && t < |s.topics| && !s.topics[t].pipe && ReaderLaw(s.topics[t])
    requires HasNext(s.topics[t], i) && |c.topics[t].subs| == |s.topics[t].subs| && b == c.topics[t].subs[i].cursor < |c.desc|
    requires d == c.(desc := c.desc[b := c.desc[b].(pins := pins)],
                     topics := c.topics[t := c.topics[t].(subs := c.topics[t].subs[i :=
                       c.topics[t].subs[i].(peeked := if peeked then b else NIL)])])
    requires var x := s.topics[t]; var p := x.subs[i].cur - x.Base();
      s' == Put(s, t, x.(queue := x.queue[p := x.queue[p].(pins := pins)], subs := x.subs[i := x.subs[i].(peeked := peeked)]))
    ensures Rep(d, s') && Books(s')
  {
    hide Rep, Books, QueueRep, Chained, LooseRep, RingRep;
    var x, z := s.topics[t], s'.topics[t];
    var p := x.subs[i].cur - x.Base();
    RepOf(c, s, t);
    CursorFacts(c, s, t, i);
    forall j | 0 <= j < |x.subs|
      ensures d.topics[t].subs[j].cursor == CursorOf(z, z.subs[j])
      ensures d.topics[t].subs[j].peeked == (if z.subs[j].peeked then d.topics[t].subs[j].cursor else NIL)
    {
      SameCursor(x, z, z.subs[j]);
    }
    CountRep(c, s, t, p, x.queue[p].(pins := pins), d, s');
    SameBooks(s, t, s'.topics[t]);
  }

  // --- pop ----------------------------------------------------------------------------------------

  /** Where a pop has got to is not in the bus's memory. */
  lemma PopRep(c: Mem, s: State, t: nat, i: nat, pop: Pop, s': State)
    requires Rep(c, s) && Books(s) && t < |s.topics| && !s.topics[t].pipe && i < |s.topics[t].subs|
    requires s' == Put(s, t, s.topics[t].(subs := s.topics[t].subs[i := s.topics[t].subs[i].(pop := pop)]))
    ensures Rep(c, s') && Books(s')
  {
    hide Rep, Books, QueueRep, Chained, RingRep;
    var x, z := s.topics[t], s'.topics[t];
    RepOf(c, s, t);
    assert SubsRep(c.topics[t], z) && EndsRep(c.topics[t], z);
    TopicStep(c, c, s, s', t);
    SameBooks(s, t, s'.topics[t]);
  }

  // --- subscribe and unsubscribe ------------------------------------------------------------------

  /** The list of subscriptions changes, and nothing else. */
  lemma SubsStep(c: Mem, s: State, t: nat, subs: seq<Sub>, d: Mem, s': State)
    requires Rep(c, s) && Books(s) && t < |s.topics| && !s.topics[t].pipe
    requires s' == Put(s, t, s.topics[t].(subs := subs))
    requires |d.topics| == |c.topics| && d == c.(topics := c.topics[t := c.topics[t].(subs := d.topics[t].subs)])
    requires SubsRep(d.topics[t], s'.topics[t])
    ensures Rep(d, s') && Books(s')
  {
    hide Rep, Books, QueueRep, Chained, RingRep;
    RepOf(c, s, t);
    var z := s'.topics[t];
    assert EndsRep(d.topics[t], z);
    TopicStep(c, d, s, s', t);
    SameBooks(s, t, z);
  }

  lemma JoinedSubs(r: Rec, x: Topic, q: Rec)
    requires SubsRep(r, x) && EndsRep(r, x) && q.subs == [Cur(NIL, NIL, r.nextSeq)] + r.subs
    ensures SubsRep(q, Joined(x))
  {
    var z := Joined(x);
    forall j | 0 <= j < |z.subs|
      ensures q.subs[j].cursor == CursorOf(z, z.subs[j]) && q.subs[j].awaits == z.subs[j].awaits
      ensures q.subs[j].peeked == (if z.subs[j].peeked then q.subs[j].cursor else NIL)
    {
      if j > 0 { assert z.subs[j] == x.subs[j - 1] && q.subs[j] == r.subs[j - 1]; SameCursor(x, z, x.subs[j - 1]); }
    }
  }

  lemma LeftSubs(r: Rec, x: Topic, q: Rec, y: Topic, i: nat)
    requires SubsRep(r, x) && i < |x.subs| && q.subs == r.subs[..i] + r.subs[i + 1..]
    requires y == x.(subs := x.subs[..i] + x.subs[i + 1..])
    ensures SubsRep(q, y)
  {
    forall j | 0 <= j < |y.subs|
      ensures q.subs[j].cursor == CursorOf(y, y.subs[j]) && q.subs[j].awaits == y.subs[j].awaits
      ensures q.subs[j].peeked == (if y.subs[j].peeked then q.subs[j].cursor else NIL)
    {
      var k := if j < i then j else j + 1;
      assert y.subs[j] == x.subs[k] && q.subs[j] == r.subs[k];
      SameCursor(x, y, x.subs[k]);
    }
  }

  /** The counts of one message change, and nothing else. */
  lemma CountStep(c: Mem, s: State, t: nat, p: nat, m: Msg, b: Block, d: Mem, s': State)
    requires Rep(c, s) && Books(s) && t < |s.topics| && !s.topics[t].pipe && p < |s.topics[t].queue|
    requires s.topics[t].queue[p].chain != [] && b == s.topics[t].queue[p].chain[0] < |c.desc|
    requires m == s.topics[t].queue[p].(refs := m.refs, pins := m.pins)
    requires d == c.(desc := c.desc[b := c.desc[b].(refs := m.refs, pins := m.pins)])
    requires s' == Put(s, t, s.topics[t].(queue := s.topics[t].queue[p := m]))
    ensures Rep(d, s') && Books(s')
  {
    hide Rep, Books, QueueRep, Chained, LooseRep, RingRep;
    RepOf(c, s, t);
    var x, z := s.topics[t], s'.topics[t];
    forall j | 0 <= j < |x.subs| ensures CursorOf(z, z.subs[j]) == CursorOf(x, x.subs[j]) { SameCursor(x, z, z.subs[j]); }
    CountRep(c, s, t, p, m, d, s');
    SameBooks(s, t, z);
  }

  /** What the code reads off a queued message. */
  lemma QueuedFacts(c: Mem, s: State, t: nat, k: nat)
    requires Rep(c, s) && t < |s.topics| && k <= |s.topics[t].queue|
    ensures var q := s.topics[t].queue;
      && (forall j :: 0 <= j < |q| ==> q[j].chain != [])
      && (LinkOf(q, k) == NIL <==> k == |q|)
      && (k < |q| ==> LinkOf(q, k) == q[k].chain[0] < |c.desc| && HeaderRep(c.desc[q[k].chain[0]], q[k], LinkOf(q, k + 1)))
  {
    RepOf(c, s, t);
    if k < |s.topics[t].queue| { assert MsgRep(c.desc, c.blockSize, s.topics[t].queue, k); }
  }

  /** The queue of a topic while a reader at `cur` gives up its claims: done for the first k messages. */
  ghost function DisclaimTo(q: seq<Msg>, cur: nat, peeked: bool, k: nat): (r: seq<Msg>)
    requires k <= |q|
    ensures |r| == |q|
    ensures forall j :: 0 <= j < |q| ==>
      r[j] == Disclaimed(q[j], cur, peeked).(refs := if j < k then Disclaimed(q[j], cur, peeked).refs else q[j].refs)
  {
    seq(|q|, j requires 0 <= j < |q| =>
      Disclaimed(q[j], cur, peeked).(refs := if j < k then Disclaimed(q[j], cur, peeked).refs else q[j].refs))
  }

  ghost function Leaving(x: Topic, i: nat, k: nat): Topic
    requires i < |x.subs| && k <= |x.queue|
  {
    x.(subs := x.subs[..i] + x.subs[i + 1..], queue := DisclaimTo(x.queue, x.subs[i].cur, x.subs[i].peeked, k))
  }

  /** A reader's claims start at its cursor and go on to the newest message. */
  lemma LeavingStart(x: Topic, i: nat, p: nat)
    requires ReaderLaw(x) && i < |x.subs| && p == x.subs[i].cur - x.Base() && p <= |x.queue|
    ensures !x.subs[i].peeked ==> Leaving(x, i, p) == x.(subs := x.subs[..i] + x.subs[i + 1..])
    ensures x.subs[i].peeked ==>
      && p < |x.queue| && x.queue[p].pins > 0
      && Leaving(x, i, p) == x.(subs := x.subs[..i] + x.subs[i + 1..], queue := x.queue[p := x.queue[p].(pins := x.queue[p].pins - 1)])
  {
    var r := DisclaimTo(x.queue, x.subs[i].cur, x.subs[i].peeked, p);
    assert CursorLaw(x, x.subs[i]);
    forall j | 0 <= j < |x.queue| ensures !(j == p && x.subs[i].peeked) ==> r[j] == x.queue[j] {
      assert MsgLaw(x, j);
    }
    if x.subs[i].peeked {
      assert MsgLaw(x, p);
      Counted(x.subs, i, x.queue[p].seqno);
      assert r == x.queue[p := x.queue[p].(pins := x.queue[p].pins - 1)];
    } else {
      assert r == x.queue;
    }
  }

  lemma LeavingStep(x: Topic, i: nat, k: nat)
    requires ReaderLaw(x) && i < |x.subs| && x.subs[i].cur - x.Base() <= k < |x.queue|
    ensures x.queue[k].refs > 0 && Leaving(x, i, k).queue[k].refs == x.queue[k].refs
    ensures var m := Leaving(x, i, k).queue[k];
      Leaving(x, i, k + 1) == Leaving(x, i, k).(queue := Leaving(x, i, k).queue[k := m.(refs := m.refs - 1)])
  {
    assert MsgLaw(x, k);
    var r, q := DisclaimTo(x.queue, x.subs[i].cur, x.subs[i].peeked, k), DisclaimTo(x.queue, x.subs[i].cur, x.subs[i].peeked, k + 1);
    assert q == r[k := r[k].(refs := r[k].refs - 1)];
  }

  lemma LeavingEnd(x: Topic, i: nat)
    requires i < |x.subs|
    ensures Leaving(x, i, |x.queue|) == Without(x, i)
  {
    assert DisclaimTo(x.queue, x.subs[i].cur, x.subs[i].peeked, |x.queue|) == Disclaim(x.queue, x.subs[i].cur, x.subs[i].peeked);
  }

  /** Nobody is at a message that nobody is waiting for. */
  lemma UnwantedHead(x: Topic)
    requires LooseLaw(x) && x.queue != [] && x.queue[0].refs == 0
    ensures NobodyAtHead(x)
  {
    forall j | 0 <= j < |x.subs| ensures x.subs[j].cur != x.Base() {
      Counted(x.subs, j, x.queue[0].seqno);
    }
  }

  lemma FreedHead(s: State, t: nat)
    requires Books(s) && t < |s.topics| && LooseLaw(s.topics[t]) && s.topics[t].queue != [] && s.topics[t].queue[0].refs == 0
    ensures var r := BusOps.FreeChain(TakeHead(s, t), t, s.topics[t].queue[0].chain);
      && |r.topics| == |s.topics| && LooseLaw(r.topics[t]) && |r.topics[t].queue| == |s.topics[t].queue| - 1
      && r.topics[t].pipe == s.topics[t].pipe && FreeRead(s, t) == FreeRead(r, t)
  {
    var s1 := TakeHead(s, t);
    TakeHeadBooks(s, t);
    FreeChainBooks(s1, t, s.topics[t].queue[0].chain);
    var r := BusOps.FreeChain(s1, t, s.topics[t].queue[0].chain);
    assert SameReaders(s1.topics[t], r.topics[t]);
    FreeHeadLaw(s.topics[t]);
    SameLoose(s1.topics[t], r.topics[t]);
  }
}
