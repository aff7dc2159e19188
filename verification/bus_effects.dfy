/** What a reader finds changed after each of its calls, field by field. */
module BusEffects {
  import opened Lists
  import opened BusState
  import opened BusOps
  import opened BusLoans
  import opened BusAlloc
  import opened BusReaders
  import opened BusReaderRep

  /** Everybody but reader i is where they were. */
  ghost predicate OthersStay(subs: seq<Sub>, r: seq<Sub>, i: nat) {
    |r| == |subs| && forall j :: 0 <= j < |subs| && j != i ==> r[j] == subs[j]
  }

  /** Reader i has got its next message, `data`, and is one further. The message has lost a reference, or
      with its last one has left the queue, of which it was the head, and is in hand. */
  ghost predicate ReadBy(x: Topic, y: Topic, i: nat, data: seq<Bytes>)
    requires HasNext(x, i)
  {
    var u, p := x.subs[i], x.subs[i].cur - x.Base();
    && u.awaits <= u.cur && OthersStay(x.subs, y.subs, i)
    && y.subs[i] == Sub(u.cur + 1, false, u.cur + 1, u.start, u.got + [Delivery(u.cur, data, u.cur - u.awaits)], Idle)
    && y.log == x.log && y.evicted == x.evicted && y.stash == x.stash
    && if x.queue[p].refs > 1 then OneLess(x, y, p)
       else p == 0 && y.queue == x.queue[1..] && y.loose == x.loose + Elems(x.queue[0].chain)
  }

  ghost predicate OneLess(x: Topic, y: Topic, p: nat) {
    && y.loose == x.loose && |y.queue| == |x.queue|
    && forall j :: 0 <= j < |x.queue| ==>
      y.queue[j].chain == x.queue[j].chain && y.queue[j].seqno == x.queue[j].seqno && y.queue[j].len == x.queue[j].len
      && y.queue[j].refs == x.queue[j].refs - if j == p then 1 else 0
  }

  lemma ReadsOn(x: Topic, i: nat, data: seq<Bytes>)
    requires ReaderLaw(x) && HasNext(x, i) && x.subs[i].awaits <= x.subs[i].cur
    ensures ReadBy(x, Consumed(x, i, data), i, data)
  {
    var p := x.subs[i].cur - x.Base();
    assert MsgLaw(x, p);
    if x.queue[p].refs == 1 { LastRefIsHead(x, i); }
  }

  /** Reader i has pinned its next message. */
  ghost predicate PinnedBy(x: Topic, y: Topic, i: nat)
    requires HasNext(x, i)
  {
    var p := x.subs[i].cur - x.Base();
    && OthersStay(x.subs, y.subs, i) && y.subs[i] == x.subs[i].(peeked := true)
    && |y.queue| == |x.queue| && (forall j :: 0 <= j < |x.queue| && j != p ==> y.queue[j] == x.queue[j])
    && y.queue[p] == x.queue[p].(pins := x.queue[p].pins + 1)
    && y == x.(subs := y.subs, queue := y.queue)
  }

  lemma Pins(x: Topic, i: nat)
    requires HasNext(x, i)
    ensures PinnedBy(x, Pinned(x, i), i)
  {
  }

  /** A new reader, caught up, in front of the others. */
  ghost predicate JoinedBy(x: Topic, y: Topic) {
    && |y.subs| == |x.subs| + 1 && y.subs[1..] == x.subs && y == x.(subs := y.subs)
    && y.subs[0] == Sub(|x.log|, false, |x.log|, |x.log|, [], Idle)
  }

  /** Some reader has not read message k yet. */
  ghost predicate Owed(subs: seq<Sub>, k: nat) { exists j :: 0 <= j < |subs| && subs[j].cur <= k }

  /** Reader i has left, and with it exactly the messages that none of the others is waiting for. */
  ghost predicate LeftBy(x: Topic, y: Topic, i: nat)
    requires i < |x.subs|
  {
    && y.subs == x.subs[..i] + x.subs[i + 1..] && y.log == x.log && y.evicted == x.evicted
    && Drained(x.queue, y.queue, y.subs)
  }

  ghost predicate Drained(q: seq<Msg>, r: seq<Msg>, subs: seq<Sub>) {
    |r| <= |q| && var k := |q| - |r|;
    && (forall j :: 0 <= j < |r| ==> r[j].chain == q[j + k].chain && r[j].seqno == q[j + k].seqno && r[j].len == q[j + k].len)
    && forall j :: 0 <= j < |q| ==> (j < k <==> !Owed(subs, q[j].seqno))
  }

  lemma {:induction false} WaitingOwed(subs: seq<Sub>, k: nat)
    ensures Waiting(subs, k) > 0 <==> Owed(subs, k)
  {
    if subs != [] {
      WaitingOwed(subs[1..], k);
      if Owed(subs[1..], k) {
        var j :| 0 <= j < |subs[1..]| && subs[1..][j].cur <= k;
        assert subs[j + 1].cur <= k;
      }
      if Owed(subs, k) && subs[0].cur > k {
        var j :| 0 <= j < |subs| && subs[j].cur <= k;
        assert subs[1..][j - 1].cur <= k;
      }
    }
  }

  /** Once the head of a queue is wanted, all of it is. */
  lemma AllOwed(x: Topic)
    requires LooseLaw(x) && (x.queue == [] || x.queue[0].refs > 0)
    ensures Drained(x.queue, x.queue, x.subs)
  {
    forall j | 0 <= j < |x.queue| ensures Owed(x.subs, x.queue[j].seqno) {
      WaitingGrows(x.subs, x.queue[0].seqno, x.queue[j].seqno);
      WaitingOwed(x.subs, x.queue[j].seqno);
    }
  }

  /** A message nobody is waiting for leaves the queue of its topic. */
  lemma HeadFreed(s: State, t: nat)
    requires Books(s) && t < |s.topics| && s.topics[t].queue != []
    ensures var r := FreeChain(TakeHead(s, t), t, s.topics[t].queue[0].chain);
      && Books(r) && |r.topics| == |s.topics| && r.topics[t].queue == s.topics[t].queue[1..]
      && r.topics[t].subs == s.topics[t].subs && r.topics[t].log == s.topics[t].log && r.topics[t].evicted == s.topics[t].evicted
  {
    var s1 := TakeHead(s, t);
    TakeHeadBooks(s, t);
    FreeChainBooks(s1, t, s.topics[t].queue[0].chain);
    hide Books, FreeChain;
    assert SameReaders(s1.topics[t], FreeChain(s1, t, s.topics[t].queue[0].chain).topics[t]);
  }

  lemma DrainedMore(q: seq<Msg>, r: seq<Msg>, subs: seq<Sub>)
    requires q != [] && !Owed(subs, q[0].seqno) && Drained(q[1..], r, subs)
    ensures Drained(q, r, subs)
  {
    hide Owed;
    forall j | 0 <= j < |q| ensures j < |q| - |r| <==> !Owed(subs, q[j].seqno) {
      if j > 0 { assert q[j] == q[1..][j - 1]; }
    }
  }

  lemma {:induction false} FreeReadDrains(s: State, t: nat)
    requires Books(s) && t < |s.topics| && LooseLaw(s.topics[t])
    ensures var x, y := s.topics[t], FreeRead(s, t).topics[t];
      && Drained(x.queue, y.queue, x.subs) && y.subs == x.subs && y.log == x.log && y.evicted == x.evicted
    decreases |s.topics[t].queue|
  {
    var x := s.topics[t];
    if x.queue == [] || x.queue[0].refs > 0 {
      AllOwed(x);
    } else {
      WaitingOwed(x.subs, x.queue[0].seqno);
      assert !Owed(x.subs, x.queue[0].seqno);
      hide Books, FreeChain, LooseLaw, Drained, Owed, TakeHead;
      var r := FreeChain(TakeHead(s, t), t, x.queue[0].chain);
      FreedHead(s, t);
      HeadFreed(s, t);
      FreeReadDrains(r, t);
      DrainedMore(x.queue, FreeRead(r, t).topics[t].queue, x.subs);
    }
  }

  lemma DetachedBooks(s: State, t: nat, i: nat)
    requires Books(s) && t < |s.topics| && i < |s.topics[t].subs|
    ensures Books(Detached(s, t, i))
  {
    assert s.topics[t].tickets <= s.topics[t].loose by { assert TopicBooks(s.topics[t]); }
    hide Books;
    SameBlocks(s, Detached(s, t, i), t);
  }

  /** Claims given up do not count for what has been drained. */
  lemma SameDrained(q: seq<Msg>, d: seq<Msg>, r: seq<Msg>, subs: seq<Sub>)
    requires |d| == |q| && forall j :: 0 <= j < |q| ==> d[j].chain == q[j].chain && d[j].seqno == q[j].seqno && d[j].len == q[j].len
    requires Drained(d, r, subs)
    ensures Drained(q, r, subs)
  {
    hide Owed;
    forall j | 0 <= j < |q| ensures j < |q| - |r| <==> !Owed(subs, q[j].seqno) { assert d[j].seqno == q[j].seqno; }
  }

  lemma Leaves(s: State, t: nat, i: nat)
    requires Books(s) && t < |s.topics| && i < |s.topics[t].subs| && ReaderLaw(s.topics[t])
    ensures LeftBy(s.topics[t], Unsubscribe(s, t, i).topics[t], i)
  {
    var x, d := s.topics[t], Detached(s, t, i);
    WithoutLaw(x, i);
    DetachedBooks(s, t, i);
    FreeReadDrains(d, t);
    hide Books, FreeRead, Owed, Drained, LooseLaw, ReaderLaw;
    SameDrained(x.queue, d.topics[t].queue, FreeRead(d, t).topics[t].queue, d.topics[t].subs);
  }

  /** A new topic with its reservation set aside, idle in its stash or as the slots of its ring. */
  ghost predicate DeclaredBy(s: State, r: State, reserve: nat, overflow: Overflow, pipe: bool) {
    && |r.topics| == |s.topics| + 1 && r.topics[..|s.topics|] == s.topics && reserve <= |s.pool| && r.pool == s.pool[reserve..]
    && r.epoch == s.epoch && r.cell == s.cell
    && var x := r.topics[|s.topics|];
    && x.reserve == reserve && x.overflow == overflow && x.pipe == pipe
    && x.lent == 0 && x.borrowed == 0 && x.queue == [] && x.subs == [] && x.loose == {} && x.tickets == {} && x.log == []
    && if pipe then x.ring == s.pool[..reserve] && x.stash == []
       else x.ring == [] && |x.stash| == reserve && forall i :: 0 <= i < reserve ==> x.stash[i] == s.pool[reserve - 1 - i]
  }

  lemma {:induction false} ReversedAt(l: seq<Block>, k: nat)
    requires k < |l|
    ensures Reversed(l)[k] == l[|l| - 1 - k]
  {
    if k < |l| - 1 { ReversedAt(l[1..], k); }
  }

  lemma Declares(s: State, reserve: nat, overflow: Overflow, pipe: bool)
    ensures !(pipe && reserve == 0) && reserve <= |s.pool| ==> DeclaredBy(s, Declare(s, reserve, overflow, pipe), reserve, overflow, pipe)
  {
    if reserve <= |s.pool| {
      forall i | 0 <= i < reserve ensures Reversed(s.pool[..reserve])[i] == s.pool[reserve - 1 - i] { ReversedAt(s.pool[..reserve], i); }
      hide Reversed;
    }
  }
}
