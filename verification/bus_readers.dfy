/** What readers can rely on, topic by topic: reference counts, cursors, pins, the bytes of queued
    messages, pops in progress, and what each subscription has been given so far. */
module BusReaders {
  import opened BusState
  import opened BusOps

  // --- Counting readers ----------------------------------------------------------------------

  /** Subscriptions whose next message is number k or an older one. */
  ghost function Waiting(subs: seq<Sub>, k: int): nat {
    if subs == [] then 0 else (if subs[0].cur <= k then 1 else 0) + Waiting(subs[1..], k)
  }

  /** Subscriptions that hold a peek of message k. */
  ghost function Peeking(subs: seq<Sub>, k: int): nat {
    if subs == [] then 0 else (if subs[0].peeked && subs[0].cur == k then 1 else 0) + Peeking(subs[1..], k)
  }

  lemma {:induction false} ChangeSub(subs: seq<Sub>, i: nat, u: Sub, k: int)
    requires i < |subs|
    ensures Waiting(subs[i := u], k) + (if subs[i].cur <= k then 1 else 0) == Waiting(subs, k) + if u.cur <= k then 1 else 0
    ensures Peeking(subs[i := u], k) + (if subs[i].peeked && subs[i].cur == k then 1 else 0)
         == Peeking(subs, k) + if u.peeked && u.cur == k then 1 else 0
  {
    if i == 0 {
      assert subs[i := u][1..] == subs[1..];
    } else {
      ChangeSub(subs[1..], i - 1, u, k);
      assert subs[i := u][1..] == subs[1..][i - 1 := u];
    }
  }

  lemma {:induction false} RemoveSub(subs: seq<Sub>, i: nat, k: int)
    requires i < |subs|
    ensures var r := subs[..i] + subs[i + 1..];
      && Waiting(r, k) + (if subs[i].cur <= k then 1 else 0) == Waiting(subs, k)
      && Peeking(r, k) + (if subs[i].peeked && subs[i].cur == k then 1 else 0) == Peeking(subs, k)
  {
    var r := subs[..i] + subs[i + 1..];
    if i == 0 {
      assert r == subs[1..];
    } else {
      RemoveSub(subs[1..], i - 1, k);
      assert r[1..] == subs[1..][..i - 1] + subs[1..][i..];
    }
  }

  lemma {:induction false} ConsSub(u: Sub, subs: seq<Sub>, k: int)
    ensures Waiting([u] + subs, k) == (if u.cur <= k then 1 else 0) + Waiting(subs, k)
    ensures Peeking([u] + subs, k) == (if u.peeked && u.cur == k then 1 else 0) + Peeking(subs, k)
  {
    assert ([u] + subs)[1..] == subs;
  }

  /** The newer a message, the more readers still have to read it. */
  lemma {:induction false} WaitingGrows(subs: seq<Sub>, k: int, l: int)
    requires k <= l
    ensures Waiting(subs, k) <= Waiting(subs, l) <= |subs|
  {
    if subs != [] { WaitingGrows(subs[1..], k, l); }
  }

  lemma {:induction false} AllWaiting(subs: seq<Sub>, k: int)
    requires forall i :: 0 <= i < |subs| ==> subs[i].cur <= k
    ensures Waiting(subs, k) == |subs|
  {
    if subs != [] { AllWaiting(subs[1..], k); }
  }

  lemma {:induction false} NobodyPeeks(subs: seq<Sub>, k: int)
    requires forall i :: 0 <= i < |subs| ==> !(subs[i].peeked && subs[i].cur == k)
    ensures Peeking(subs, k) == 0
  {
    if subs != [] { NobodyPeeks(subs[1..], k); }
  }

  lemma {:induction false} Counted(subs: seq<Sub>, i: nat, k: int)
    requires i < |subs|
    ensures subs[i].cur <= k ==> Waiting(subs, k) >= 1
    ensures subs[i].peeked && subs[i].cur == k ==> Peeking(subs, k) >= 1
  {
    if i > 0 { Counted(subs[1..], i - 1, k); }
  }

  lemma {:induction false} SkipCounts(subs: seq<Sub>, k: nat, l: int)
    requires l > k && forall i :: 0 <= i < |subs| ==> !(subs[i].peeked && subs[i].cur == k)
    ensures Waiting(SkipPast(subs, k), l) == Waiting(subs, l)
    ensures Peeking(SkipPast(subs, k), l) == Peeking(subs, l)
  {
    if subs != [] {
      SkipCounts(subs[1..], k, l);
      assert SkipPast(subs, k)[1..] == SkipPast(subs[1..], k);
    }
  }

  // --- The reader law ---------------------------------------------------------------------------

  ghost predicate MsgLaw(x: Topic, i: nat)
    requires i < |x.queue|
  {
    var m := x.queue[i];
    && m.seqno == x.Base() + i
    && m.chain != []
    && m.refs == Waiting(x.subs, m.seqno) > 0
    && m.pins == Peeking(x.subs, m.seqno)
  }

  ghost predicate CursorLaw(x: Topic, u: Sub) {
    && x.Base() <= u.cur <= |x.log|
    && (u.peeked ==> u.cur < |x.log| && u.pop.Idle?)
  }

  /** A queued message is owed to exactly the readers that are at it or before it, pinned by
      exactly those that peek at it, and every cursor points into the queue or at its end. */
  ghost predicate ReaderLaw(x: Topic) {
    && |x.queue| <= |x.log|
    && (forall i :: 0 <= i < |x.queue| ==> MsgLaw(x, i))
    && (forall i :: 0 <= i < |x.subs| ==> CursorLaw(x, x.subs[i]))
  }

  /** refs never decrease from the oldest message to the newest. */
  lemma RefsGrow(x: Topic, i: nat, j: nat)
    requires ReaderLaw(x) && i <= j < |x.queue|
    ensures x.queue[i].refs <= x.queue[j].refs
  {
    assert MsgLaw(x, i) && MsgLaw(x, j);
    WaitingGrows(x.subs, x.queue[i].seqno, x.queue[j].seqno);
  }

  /** The last reference to a message always drops on the oldest one, so the take_head in consume
      takes out the message that was consumed. */
  lemma LastRefIsHead(x: Topic, i: nat)
    requires ReaderLaw(x) && HasNext(x, i) && Next(x, i).refs == 1
    ensures x.subs[i].cur == x.Base()
  {
    var p := x.subs[i].cur - x.Base();
    if p > 0 {
      assert MsgLaw(x, 0) && MsgLaw(x, p);
      var k := x.queue[p].seqno;
      var subs := x.subs[i := x.subs[i].(cur := k + 1)];
      ChangeSub(x.subs, i, x.subs[i].(cur := k + 1), k);
      ChangeSub(x.subs, i, x.subs[i].(cur := k + 1), x.queue[0].seqno);
      WaitingGrows(subs, x.queue[0].seqno, k);
      assert false;
    }
  }

  lemma AdvancedLaw(x: Topic, i: nat, data: seq<Bytes>, j: nat)
    requires ReaderLaw(x) && HasNext(x, i) && j < |x.queue|
    requires j != x.subs[i].cur - x.Base() || x.queue[j].refs > 1
    ensures MsgLaw(Advanced(x, i, data), j)
  {
    var p := x.subs[i].cur - x.Base();
    assert MsgLaw(x, j) && MsgLaw(x, p);
    ChangeSub(x.subs, i, ReadOn(x.subs[i], x.queue[p].seqno, data), x.queue[j].seqno);
  }

  lemma ConsumedLaw(x: Topic, i: nat, data: seq<Bytes>)
    requires ReaderLaw(x) && HasNext(x, i)
    ensures ReaderLaw(Consumed(x, i, data))
  {
    var p := x.subs[i].cur - x.Base();
    var y := Advanced(x, i, data);
    var z := Consumed(x, i, data);
    assert MsgLaw(x, p) && CursorLaw(x, x.subs[i]);
    if x.queue[p].refs > 1 {
      forall j | 0 <= j < |x.queue| ensures MsgLaw(z, j) { AdvancedLaw(x, i, data, j); }
      forall j | 0 <= j < |x.subs| ensures CursorLaw(z, z.subs[j]) { assert CursorLaw(x, x.subs[j]); }
    } else {
      LastRefIsHead(x, i);
      forall j | 0 <= j < |z.queue| ensures MsgLaw(z, j) { AdvancedLaw(x, i, data, j + 1); }
      ChangeSub(x.subs, i, ReadOn(x.subs[i], x.queue[p].seqno, data), x.queue[0].seqno);
      forall j | 0 <= j < |x.subs| ensures CursorLaw(z, z.subs[j]) {
        assert CursorLaw(x, x.subs[j]);
        Counted(y.subs, j, x.queue[0].seqno);
      }
    }
  }

  lemma SkippedLaw(x: Topic)
    requires ReaderLaw(x) && x.queue != [] && x.queue[0].pins == 0
    ensures ReaderLaw(HeadTaken(Skipped(x)))
  {
    var k := x.queue[0].seqno;
    var z := HeadTaken(Skipped(x));
    assert MsgLaw(x, 0);
    forall i | 0 <= i < |x.subs| ensures !(x.subs[i].peeked && x.subs[i].cur == k) { Counted(x.subs, i, k); }
    forall j | 0 <= j < |z.queue| ensures MsgLaw(z, j) {
      assert MsgLaw(x, j + 1);
      SkipCounts(x.subs, k, x.queue[j + 1].seqno);
    }
    forall j | 0 <= j < |z.subs| ensures CursorLaw(z, z.subs[j]) { assert CursorLaw(x, x.subs[j]); }
  }

  lemma LinkedLaw(x: Topic, chain: seq<Block>, len: nat, data: seq<Bytes>)
    requires ReaderLaw(x) && chain != [] && x.subs != []
    ensures ReaderLaw(Linked(x, chain, len, data))
  {
    var z := Linked(x, chain, len, data);
    forall j | 0 <= j < |x.subs| ensures CursorLaw(z, z.subs[j]) && x.subs[j].cur <= |x.log| {
      assert CursorLaw(x, x.subs[j]);
    }
    forall j | 0 <= j < |z.queue| ensures MsgLaw(z, j) {
      if j < |x.queue| {
        assert MsgLaw(x, j) && z.queue[j] == x.queue[j];
      } else {
        AllWaiting(x.subs, |x.log|);
        NobodyPeeks(x.subs, |x.log|);
      }
    }
  }

  lemma JoinedLaw(x: Topic)
    requires ReaderLaw(x)
    ensures ReaderLaw(Joined(x))
  {
    var z := Joined(x);
    forall j | 0 <= j < |z.queue| ensures MsgLaw(z, j) {
      assert MsgLaw(x, j);
      ConsSub(z.subs[0], x.subs, x.queue[j].seqno);
    }
    forall j | 0 <= j < |z.subs| ensures CursorLaw(z, z.subs[j]) {
      if j > 0 { assert z.subs[j] == x.subs[j - 1] && CursorLaw(x, x.subs[j - 1]); }
    }
  }

  lemma PinnedLaw(x: Topic, i: nat)
    requires ReaderLaw(x) && HasNext(x, i) && !x.subs[i].peeked && x.subs[i].pop.Idle?
    ensures ReaderLaw(Pinned(x, i))
  {
    var z := Pinned(x, i);
    forall j | 0 <= j < |z.queue| ensures MsgLaw(z, j) {
      assert MsgLaw(x, j);
      ChangeSub(x.subs, i, z.subs[i], x.queue[j].seqno);
    }
    forall j | 0 <= j < |z.subs| ensures CursorLaw(z, z.subs[j]) { assert CursorLaw(x, x.subs[j]); }
  }

  /** A pop that only starts, copies or gives up changes nobody's place. */
  lemma PopLaw(x: Topic, i: nat, pop: Pop)
    requires ReaderLaw(x) && i < |x.subs| && !x.subs[i].peeked
    ensures ReaderLaw(x.(subs := x.subs[i := x.subs[i].(pop := pop)]))
  {
    var z := x.(subs := x.subs[i := x.subs[i].(pop := pop)]);
    forall j | 0 <= j < |z.queue| ensures MsgLaw(z, j) {
      assert MsgLaw(x, j);
      ChangeSub(x.subs, i, z.subs[i], x.queue[j].seqno);
    }
    forall j | 0 <= j < |z.subs| ensures CursorLaw(z, z.subs[j]) { assert CursorLaw(x, x.subs[j]); }
  }

  // --- Unsubscribe -------------------------------------------------------------------------------

  /** The reader law but for messages that nobody is waiting for any more. */
  ghost predicate LooseLaw(x: Topic) {
    && |x.queue| <= |x.log|
    && (forall i :: 0 <= i < |x.queue| ==>
          && x.queue[i].seqno == x.Base() + i && x.queue[i].chain != []
          && x.queue[i].refs == Waiting(x.subs, x.queue[i].seqno)
          && x.queue[i].pins == Peeking(x.subs, x.queue[i].seqno))
    && (forall i :: 0 <= i < |x.subs| ==> CursorLaw(x, x.subs[i]))
  }

  lemma WithoutLaw(x: Topic, i: nat)
    requires ReaderLaw(x) && i < |x.subs|
    ensures LooseLaw(Without(x, i))
  {
    var z := Without(x, i);
    forall j | 0 <= j < |z.queue|
      ensures z.queue[j].refs == Waiting(z.subs, z.queue[j].seqno)
      ensures z.queue[j].pins == Peeking(z.subs, z.queue[j].seqno)
    {
      assert MsgLaw(x, j);
      RemoveSub(x.subs, i, x.queue[j].seqno);
    }
    forall j | 0 <= j < |z.queue|
      ensures z.queue[j].seqno == z.Base() + j && z.queue[j].chain != []
    {
      assert MsgLaw(x, j);
    }
    forall j | 0 <= j < |z.subs| ensures CursorLaw(z, z.subs[j]) {
      assert z.subs[j] == x.subs[if j < i then j else j + 1];
    }
  }

  /** Freeing a message at the head that nobody is waiting for. */
  lemma FreeHeadLaw(x: Topic)
    requires LooseLaw(x) && x.queue != [] && x.queue[0].refs == 0
    ensures LooseLaw(HeadTaken(x))
  {
    var z := HeadTaken(x);
    forall j | 0 <= j < |z.subs| ensures CursorLaw(z, z.subs[j]) {
      assert CursorLaw(x, x.subs[j]);
      Counted(x.subs, j, x.queue[0].seqno);
    }
    forall j | 0 <= j < |z.queue|
      ensures z.queue[j].seqno == z.Base() + j && z.queue[j].chain != []
      ensures z.queue[j].refs == Waiting(z.subs, z.queue[j].seqno)
      ensures z.queue[j].pins == Peeking(z.subs, z.queue[j].seqno)
    {
      assert z.queue[j] == x.queue[j + 1];
    }
  }

  /** The messages with no reader left are exactly a run at the head: once the head is wanted,
      everything behind it is. */
  lemma WantedFromHead(x: Topic)
    requires LooseLaw(x) && (x.queue == [] || x.queue[0].refs > 0)
    ensures ReaderLaw(x)
  {
    forall j | 0 <= j < |x.queue| ensures MsgLaw(x, j) {
      WaitingGrows(x.subs, x.queue[0].seqno, x.queue[j].seqno);
    }
  }
}
