/** What a subscription is given: the bytes that were published, in order, with every gap owed to
    an eviction and reported. */
module BusDelivery {
  import opened BusState
  import opened BusOps
  import opened BusReaders

  /** The number the reader expected when it got its i-th message (or, for i past the end, now). */
  ghost function Due(u: Sub, i: nat): nat
    requires i <= |u.got|
  {
    if i == 0 then u.start else u.got[i - 1].seqno + 1
  }

  ghost predicate DeliveryLaw(x: Topic, u: Sub, i: nat)
    requires i < |u.got|
  {
    var d := u.got[i];
    && d.seqno == Due(u, i) + d.missed
    && d.seqno < |x.log| && d.data == x.log[d.seqno]
    && forall k :: Due(u, i) <= k < d.seqno ==> k in x.evicted
  }

  ghost predicate SubLaw(x: Topic, u: Sub) {
    && (forall i :: 0 <= i < |u.got| ==> DeliveryLaw(x, u, i))
    && u.awaits == Due(u, |u.got|) <= u.cur
    && forall k :: u.awaits <= k < u.cur ==> k in x.evicted
  }

  ghost predicate History(x: Topic) {
    && (forall i :: 0 <= i < |x.subs| ==> SubLaw(x, x.subs[i]))
    && (forall k :: k in x.evicted ==> k < x.Base())
    && (x.overflow.Drop? ==> x.evicted == {})
  }

  /** The blocks of a queued message hold the bytes that were published. */
  ghost predicate BytesLaw(cell: seq<Bytes>, x: Topic, i: nat)
    requires i < |x.queue|
  {
    var m := x.queue[i];
    && m.seqno < |x.log| && |x.log[m.seqno]| == |m.chain|
    && forall j :: 0 <= j < |m.chain| ==> m.chain[j] < |cell| && cell[m.chain[j]] == x.log[m.seqno][j]
  }

  /** A pop whose message was not freed since it started is still copying its own next message,
      and what it has copied is what was published. */
  ghost predicate CopyLaw(epoch: seq<nat>, x: Topic, u: Sub) {
    u.pop.Copying? ==>
      && u.pop.msg < |epoch| && u.pop.epoch <= epoch[u.pop.msg]
      && (u.pop.epoch == epoch[u.pop.msg] ==>
            && 0 <= u.cur - x.Base() < |x.queue| && u.cur < |x.log|
            && x.queue[u.cur - x.Base()].chain != []
            && x.queue[u.cur - x.Base()].chain[0] == u.pop.msg
            && u.pop.buf <= x.log[u.cur])
  }

  ghost predicate TopicLaw(s: State, x: Topic) {
    && ReaderLaw(x) && History(x)
    && (forall i :: 0 <= i < |x.queue| ==> BytesLaw(s.cell, x, i))
    && (forall i :: 0 <= i < |x.subs| ==> CopyLaw(s.epoch, x, x.subs[i]))
  }

  // --- Each change keeps the law ---------------------------------------------------------------

  /** Deliveries made so far stay true when the history grows. */
  lemma StillDelivered(x: Topic, z: Topic, u: Sub)
    requires SubLaw(x, u) && x.log <= z.log && x.evicted <= z.evicted
    ensures SubLaw(z, u)
  {
    forall i | 0 <= i < |u.got| ensures DeliveryLaw(z, u, i) { assert DeliveryLaw(x, u, i); }
  }

  lemma ReadOnLaw(x: Topic, u: Sub, data: seq<Bytes>)
    requires SubLaw(x, u) && u.cur < |x.log| && data == x.log[u.cur]
    ensures SubLaw(x, ReadOn(u, u.cur, data))
  {
    var v := ReadOn(u, u.cur, data);
    forall i | 0 <= i < |v.got| ensures DeliveryLaw(x, v, i) {
      if i < |u.got| {
        assert DeliveryLaw(x, u, i) && v.got[i] == u.got[i] && Due(v, i) == Due(u, i);
      } else {
        assert Due(v, i) == Due(u, i);
      }
    }
  }

  /** consume leaves every other message where it is. */
  lemma ConsumedQueue(x: Topic, i: nat, data: seq<Bytes>) returns (off: nat)
    requires ReaderLaw(x) && HasNext(x, i)
    ensures var z := Consumed(x, i, data);
      && z.log == x.log && z.evicted == x.evicted && z.overflow == x.overflow && |z.subs| == |x.subs|
      && |x.queue| == |z.queue| + off && off <= 1
      && (forall j :: 0 <= j < |z.queue| ==>
            z.queue[j].chain == x.queue[j + off].chain && z.queue[j].seqno == x.queue[j + off].seqno)
      && (forall j :: 0 <= j < |x.subs| && j != i ==> z.subs[j] == x.subs[j])
      && z.subs[i] == ReadOn(x.subs[i], x.subs[i].cur, data)
  {
    assert MsgLaw(x, x.subs[i].cur - x.Base());
    if Unref(Next(x, i), false).refs > 0 {
      off := 0;
    } else {
      off := 1;
      LastRefIsHead(x, i);
    }
  }

  lemma ConsumedTopic(s: State, x: Topic, i: nat, data: seq<Bytes>)
    requires TopicLaw(s, x) && HasNext(x, i) && data == x.log[x.subs[i].cur]
    ensures TopicLaw(s, Consumed(x, i, data))
  {
    var z := Consumed(x, i, data);
    var off := ConsumedQueue(x, i, data);
    ConsumedLaw(x, i, data);
    forall j | 0 <= j < |z.queue| ensures BytesLaw(s.cell, z, j) { assert BytesLaw(s.cell, x, j + off); }
    forall j | 0 <= j < |z.subs| ensures SubLaw(z, z.subs[j]) && CopyLaw(s.epoch, z, z.subs[j]) {
      assert SubLaw(x, x.subs[j]) && CopyLaw(s.epoch, x, x.subs[j]) && CursorLaw(z, z.subs[j]);
      if j == i { ReadOnLaw(x, x.subs[i], data); }
      StillDelivered(x, z, z.subs[j]);
    }
  }

  /** Eviction: `r` is the state once the blocks of the evicted message have been freed. */
  lemma EvictedTopic(s: State, r: State, x: Topic)
    requires TopicLaw(s, x) && x.queue != [] && x.queue[0].pins == 0 && x.overflow.Overwrite?
    requires r.cell == s.cell && Older(s, r)
    requires x.queue[0].chain != []
    requires var b := x.queue[0].chain[0]; b < |s.epoch| ==> s.epoch[b] < r.epoch[b]
    ensures TopicLaw(r, HeadTaken(Skipped(x)))
  {
    var k := x.queue[0].seqno;
    var z := HeadTaken(Skipped(x));
    assert MsgLaw(x, 0);
    SkippedLaw(x);
    forall j | 0 <= j < |z.subs| ensures SubLaw(z, z.subs[j]) {
      var u := x.subs[j];
      assert SubLaw(x, u);
      StillDelivered(x, z, u);
      if u.cur == k { SkipLaw(z, u, k); }
    }
    forall j | 0 <= j < |z.queue| ensures BytesLaw(r.cell, z, j) { assert BytesLaw(s.cell, x, j + 1); }
    forall j | 0 <= j < |z.subs| ensures CopyLaw(r.epoch, z, z.subs[j]) {
      assert CopyLaw(s.epoch, x, x.subs[j]) && CursorLaw(z, z.subs[j]);
    }
  }

  lemma SkipLaw(z: Topic, u: Sub, k: nat)
    requires SubLaw(z, u) && u.cur == k && k in z.evicted
    ensures SubLaw(z, u.(cur := k + 1))
  {
    var v := u.(cur := k + 1);
    forall i | 0 <= i < |v.got| ensures DeliveryLaw(z, v, i) { assert DeliveryLaw(z, u, i) && Due(v, i) == Due(u, i); }
  }

  /** Epochs never go back, and the bytes in message blocks stay. */
  ghost predicate Older(s: State, r: State) {
    |r.epoch| == |s.epoch| && forall b :: 0 <= b < |s.epoch| ==> s.epoch[b] <= r.epoch[b]
  }

  /** A topic whose queue and readers are left alone keeps the law, whatever is freed meanwhile. */
  lemma UntouchedTopic(s: State, r: State, x: Topic, z: Topic)
    requires TopicLaw(s, x) && Older(s, r) && r.cell == s.cell
    requires z.queue == x.queue && z.subs == x.subs && z.log == x.log && z.evicted == x.evicted && z.overflow == x.overflow
    ensures TopicLaw(r, z)
  {
    forall j | 0 <= j < |z.queue| ensures MsgLaw(z, j) && BytesLaw(r.cell, z, j) {
      assert MsgLaw(x, j) && BytesLaw(s.cell, x, j);
    }
    forall j | 0 <= j < |z.subs|
      ensures CursorLaw(z, z.subs[j]) && SubLaw(z, z.subs[j]) && CopyLaw(r.epoch, z, z.subs[j])
    {
      assert CursorLaw(x, x.subs[j]) && SubLaw(x, x.subs[j]) && CopyLaw(s.epoch, x, x.subs[j]);
      StillDelivered(x, z, x.subs[j]);
    }
  }

  lemma LinkedTopic(s: State, x: Topic, chain: seq<Block>, len: nat)
    requires TopicLaw(s, x) && chain != [] && x.subs != []
    requires forall i :: 0 <= i < |chain| ==> chain[i] < |s.cell|
    ensures TopicLaw(s, Linked(x, chain, len, Data(s, chain)))
  {
    var data := Data(s, chain);
    var z := Linked(x, chain, len, data);
    LinkedLaw(x, chain, len, data);
    assert x.log <= z.log;
    forall j | 0 <= j < |z.subs| ensures SubLaw(z, z.subs[j]) && CopyLaw(s.epoch, z, z.subs[j]) {
      assert SubLaw(x, x.subs[j]) && CopyLaw(s.epoch, x, x.subs[j]) && CursorLaw(x, x.subs[j]);
      StillDelivered(x, z, x.subs[j]);
    }
    forall j | 0 <= j < |z.queue| ensures BytesLaw(s.cell, z, j) {
      if j < |x.queue| { assert BytesLaw(s.cell, x, j) && z.queue[j] == x.queue[j]; }
    }
  }

  lemma JoinedTopic(s: State, x: Topic)
    requires TopicLaw(s, x)
    ensures TopicLaw(s, Joined(x))
  {
    var z := Joined(x);
    JoinedLaw(x);
    forall j | 0 <= j < |z.subs| ensures SubLaw(z, z.subs[j]) && CopyLaw(s.epoch, z, z.subs[j]) {
      if j > 0 {
        assert z.subs[j] == x.subs[j - 1];
        assert SubLaw(x, x.subs[j - 1]) && CopyLaw(s.epoch, x, x.subs[j - 1]);
        StillDelivered(x, z, z.subs[j]);
      }
    }
    forall j | 0 <= j < |z.queue| ensures BytesLaw(s.cell, z, j) { assert BytesLaw(s.cell, x, j); }
  }

  lemma PinnedTopic(s: State, x: Topic, i: nat)
    requires TopicLaw(s, x) && HasNext(x, i) && !x.subs[i].peeked && x.subs[i].pop.Idle?
    ensures TopicLaw(s, Pinned(x, i))
  {
    var z := Pinned(x, i);
    PinnedLaw(x, i);
    forall j | 0 <= j < |z.subs| ensures SubLaw(z, z.subs[j]) && CopyLaw(s.epoch, z, z.subs[j]) {
      assert SubLaw(x, x.subs[j]) && CopyLaw(s.epoch, x, x.subs[j]);
      PlaceOnly(x, z, x.subs[j], z.subs[j]);
    }
    forall j | 0 <= j < |z.queue| ensures BytesLaw(s.cell, z, j) { assert BytesLaw(s.cell, x, j); }
  }

  /** What a reader was given does not depend on its peek or on the pop it is in. */
  lemma PlaceOnly(x: Topic, z: Topic, u: Sub, v: Sub)
    requires SubLaw(x, u) && z.log == x.log && z.evicted == x.evicted
    requires v.got == u.got && v.start == u.start && v.awaits == u.awaits && v.cur == u.cur
    ensures SubLaw(z, v)
  {
    forall i | 0 <= i < |v.got| ensures DeliveryLaw(z, v, i) { assert DeliveryLaw(x, u, i) && Due(v, i) == Due(u, i); }
  }

  lemma PopTopic(s: State, x: Topic, i: nat, pop: Pop)
    requires TopicLaw(s, x) && i < |x.subs| && !x.subs[i].peeked
    requires CopyLaw(s.epoch, x, x.subs[i].(pop := pop))
    ensures TopicLaw(s, x.(subs := x.subs[i := x.subs[i].(pop := pop)]))
  {
    var z := x.(subs := x.subs[i := x.subs[i].(pop := pop)]);
    PopLaw(x, i, pop);
    forall j | 0 <= j < |z.subs| ensures SubLaw(z, z.subs[j]) && CopyLaw(s.epoch, z, z.subs[j]) {
      assert SubLaw(x, x.subs[j]) && CopyLaw(s.epoch, x, x.subs[j]);
      PlaceOnly(x, z, x.subs[j], z.subs[j]);
    }
    forall j | 0 <= j < |z.queue| ensures BytesLaw(s.cell, z, j) { assert BytesLaw(s.cell, x, j); }
  }

  // --- Unsubscribe -------------------------------------------------------------------------------

  /** TopicLaw while the messages nobody is waiting for are being freed. */
  ghost predicate DrainLaw(s: State, x: Topic) {
    && LooseLaw(x) && History(x)
    && (forall i :: 0 <= i < |x.queue| ==> BytesLaw(s.cell, x, i))
    && (forall i :: 0 <= i < |x.subs| ==> CopyLaw(s.epoch, x, x.subs[i]))
  }

  lemma WithoutTopic(s: State, x: Topic, i: nat)
    requires TopicLaw(s, x) && i < |x.subs|
    ensures DrainLaw(s, Without(x, i))
  {
    var z := Without(x, i);
    WithoutLaw(x, i);
    forall j | 0 <= j < |z.subs| ensures SubLaw(z, z.subs[j]) && CopyLaw(s.epoch, z, z.subs[j]) {
      var k := if j < i then j else j + 1;
      assert z.subs[j] == x.subs[k];
      assert SubLaw(x, x.subs[k]) && CopyLaw(s.epoch, x, x.subs[k]);
      StillDelivered(x, z, z.subs[j]);
    }
    forall j | 0 <= j < |z.queue| ensures BytesLaw(s.cell, z, j) { assert BytesLaw(s.cell, x, j); }
  }

  lemma DrainHead(s: State, r: State, x: Topic, z: Topic)
    requires DrainLaw(s, x) && x.queue != [] && x.queue[0].refs == 0
    requires Older(s, r) && r.cell == s.cell
    requires z.queue == x.queue[1..] && z.subs == x.subs && z.log == x.log && z.evicted == x.evicted && z.overflow == x.overflow
    ensures DrainLaw(r, z)
  {
    FreeHeadLaw(x);
    SameLoose(HeadTaken(x), z);
    forall j | 0 <= j < |z.subs| ensures SubLaw(z, z.subs[j]) && CopyLaw(r.epoch, z, z.subs[j]) {
      assert SubLaw(x, x.subs[j]) && CopyLaw(s.epoch, x, x.subs[j]) && CursorLaw(z, z.subs[j]);
      StillDelivered(x, z, z.subs[j]);
    }
    forall j | 0 <= j < |z.queue| ensures BytesLaw(r.cell, z, j) { assert BytesLaw(s.cell, x, j + 1); }
  }

  lemma SameLoose(x: Topic, z: Topic)
    requires LooseLaw(x) && z.queue == x.queue && z.subs == x.subs && z.log == x.log
    ensures LooseLaw(z)
  {
    forall j | 0 <= j < |z.subs| ensures CursorLaw(z, z.subs[j]) { assert CursorLaw(x, x.subs[j]); }
  }

  lemma Drained(s: State, x: Topic)
    requires DrainLaw(s, x) && (x.queue == [] || x.queue[0].refs > 0)
    ensures TopicLaw(s, x)
  {
    WantedFromHead(x);
  }

  // --- The promise to a reader --------------------------------------------------------------------

  ghost function SumSteps(got: seq<Delivery>): nat {
    if got == [] then 0 else SumSteps(got[..|got| - 1]) + 1 + got[|got| - 1].missed
  }

  lemma {:induction false} StepsAdd(x: Topic, u: Sub, n: nat)
    requires n <= |u.got| && forall i :: 0 <= i < |u.got| ==> DeliveryLaw(x, u, i)
    ensures Due(u, n) == u.start + SumSteps(u.got[..n])
  {
    if n > 0 {
      StepsAdd(x, u, n - 1);
      assert u.got[..n][..n - 1] == u.got[..n - 1];
      assert DeliveryLaw(x, u, n - 1);
    } else {
      assert u.got[..0] == [];
    }
  }

  /** Everything a reader was ever given was published under that number; the numbers strictly
      increase; deliveries and reported misses add up to how far it has come; every message it
      did not get was evicted; and a topic that drops loses nothing. */
  lemma ReaderPromise(s: State, x: Topic, i: nat)
    requires TopicLaw(s, x) && i < |x.subs|
    ensures var u := x.subs[i];
      && (forall k :: 0 <= k < |u.got| ==> u.got[k].seqno < |x.log| && u.got[k].data == x.log[u.got[k].seqno])
      && (forall k, l :: 0 <= k < l < |u.got| ==> u.got[k].seqno < u.got[l].seqno)
      && u.start + SumSteps(u.got) == u.awaits
      && (forall k :: u.start <= k < u.cur ==>
            k in x.evicted || exists j :: 0 <= j < |u.got| && u.got[j].seqno == k)
      && (x.overflow.Drop? ==> u.awaits == u.cur && forall k :: 0 <= k < |u.got| ==> u.got[k].missed == 0)
  {
    var u := x.subs[i];
    assert SubLaw(x, u);
    forall k | 0 <= k < |u.got|
      ensures u.got[k].seqno < |x.log| && u.got[k].data == x.log[u.got[k].seqno]
      ensures x.overflow.Drop? ==> u.got[k].missed == 0
    {
      assert DeliveryLaw(x, u, k);
      assert u.got[k].missed > 0 ==> Due(u, k) in x.evicted;
    }
    forall k, l | 0 <= k < l < |u.got| ensures u.got[k].seqno < u.got[l].seqno { Ascending(x, u, k, l); }
    StepsAdd(x, u, |u.got|);
    assert u.got[..|u.got|] == u.got;
    forall k | u.start <= k < u.cur
      ensures k in x.evicted || exists j :: 0 <= j < |u.got| && u.got[j].seqno == k
    {
      if k < u.awaits { Accounted(x, u, k, |u.got|); }
    }
    assert u.awaits < u.cur ==> u.awaits in x.evicted;
  }

  lemma {:induction false} Ascending(x: Topic, u: Sub, k: nat, l: nat)
    requires SubLaw(x, u) && k < l < |u.got|
    ensures u.got[k].seqno < u.got[l].seqno
  {
    assert DeliveryLaw(x, u, l);
    if k < l - 1 { Ascending(x, u, k, l - 1); }
  }

  lemma {:induction false} Accounted(x: Topic, u: Sub, k: nat, n: nat)
    requires SubLaw(x, u) && n <= |u.got| && u.start <= k < Due(u, n)
    ensures k in x.evicted || exists j :: 0 <= j < |u.got| && u.got[j].seqno == k
  {
    if n > 0 {
      assert DeliveryLaw(x, u, n - 1);
      if k < Due(u, n - 1) {
        Accounted(x, u, k, n - 1);
      } else if k == u.got[n - 1].seqno {
      } else {
        assert k in x.evicted;
      }
    }
  }
}
