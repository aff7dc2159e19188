/** The operations of kernel/bus.c on the abstract bus, one function per C function and one
    operation per critical section. What they guarantee is proved in BusLoans, BusReaders and
    BusRuns; BusImpl proves that the linked-list code computes exactly these. */
module BusOps {
  import opened Lists
  import opened BusState

  ghost function Put(s: State, t: nat, x: Topic): State
    requires t < |s.topics|
  {
    s.(topics := s.topics[t := x])
  }

  // --- Block routing: stash, pool, loans -------------------------------------------

  /** First topic, in list order from index k - 1 down, other than `me`, with idle stash blocks. */
  ghost function Lender(ts: seq<Topic>, me: nat, k: nat): (r: Option<nat>)
    requires k <= |ts|
    ensures r.Some? ==> r.value < k && r.value != me && ts[r.value].stash != []
    ensures r.Some? ==> forall u :: r.value < u < k && u != me ==> ts[u].stash == []
    ensures r.None? ==> forall u :: 0 <= u < k && u != me ==> ts[u].stash == []
  {
    if k == 0 then None
    else if k - 1 != me && ts[k - 1].stash != [] then Some(k - 1)
    else Lender(ts, me, k - 1)
  }

  /** First topic in list order that is owed a block. */
  ghost function Creditor(ts: seq<Topic>, k: nat): (r: Option<nat>)
    requires k <= |ts|
    ensures r.Some? ==> r.value < k && ts[r.value].lent > 0 && forall u :: r.value < u < k ==> ts[u].lent == 0
    ensures r.None? ==> forall u :: 0 <= u < k ==> ts[u].lent == 0
  {
    if k == 0 then None
    else if ts[k - 1].lent > 0 then Some(k - 1)
    else Creditor(ts, k - 1)
  }

  datatype Taken = Taken(s: State, block: Option<Block>)

  ghost function TakeOne(s: State, t: nat): Taken
    requires t < |s.topics|
  {
    var x := s.topics[t];
    if x.stash != [] then
      Taken(Put(s, t, x.(stash := x.stash[1..], loose := x.loose + {x.stash[0]})), Some(x.stash[0]))
    else if s.pool != [] then
      Taken(Put(s.(pool := s.pool[1..]), t, x.(loose := x.loose + {s.pool[0]})), Some(s.pool[0]))
    else if x.overflow.Overwrite? && Lender(s.topics, t, |s.topics|).Some? then
      var l := Lender(s.topics, t, |s.topics|).value;
      var y := s.topics[l];
      var s1 := Put(s, l, y.(stash := y.stash[1..], lent := y.lent + 1));
      Taken(Put(s1, t, x.(loose := x.loose + {y.stash[0]}, borrowed := x.borrowed + 1)), Some(y.stash[0]))
    else
      Taken(s, None)
  }

  ghost predicate CanGive(s: State, t: nat, b: Block) {
    && t < |s.topics| && b < |s.epoch| && b in s.topics[t].loose
    && (s.topics[t].borrowed > 0 ==> Creditor(s.topics, |s.topics|).Some?)
  }

  ghost function GiveOne(s: State, t: nat, b: Block): State
    requires CanGive(s, t, b)
  {
    var x := s.topics[t].(loose := s.topics[t].loose - {b}, tickets := s.topics[t].tickets - {b});
    var s0 := s.(epoch := s.epoch[b := s.epoch[b] + 1]);
    if x.borrowed > 0 then
      var l := Creditor(s.topics, |s.topics|).value;
      var s1 := Put(s0, t, x.(borrowed := x.borrowed - 1));
      var y := s1.topics[l];
      Put(s1, l, y.(stash := [b] + y.stash, lent := y.lent - 1))
    else if |x.stash| + x.lent < x.reserve then
      Put(s0, t, x.(stash := [b] + x.stash))
    else
      Put(s0, t, x).(pool := [b] + s.pool)
  }

  /** free_chain: what give_one does to every block of the chain in turn. */
  ghost function FreeChain(s: State, t: nat, chain: seq<Block>): State
    decreases |chain|
  {
    if chain == [] || !CanGive(s, t, chain[0]) then s
    else FreeChain(GiveOne(s, t, chain[0]), t, chain[1..])
  }

  /** take_head: the oldest message leaves the queue, its blocks are in hand. */
  ghost function HeadTaken(x: Topic): Topic
    requires x.queue != []
  {
    x.(queue := x.queue[1..], loose := x.loose + Elems(x.queue[0].chain))
  }

  ghost function TakeHead(s: State, t: nat): State
    requires t < |s.topics| && s.topics[t].queue != []
  {
    Put(s, t, HeadTaken(s.topics[t]))
  }

  ghost predicate CanEvict(s: State, t: nat) {
    t < |s.topics| && s.topics[t].queue != [] && s.topics[t].queue[0].pins == 0
  }

  /** Readers that had not read message k move on to the next. */
  ghost function SkipPast(subs: seq<Sub>, k: nat): (r: seq<Sub>)
    ensures |r| == |subs|
    ensures forall i :: 0 <= i < |subs| ==> r[i] == if subs[i].cur == k then subs[i].(cur := k + 1) else subs[i]
  {
    seq(|subs|, i requires 0 <= i < |subs| => if subs[i].cur == k then subs[i].(cur := k + 1) else subs[i])
  }

  ghost function Evict(s: State, t: nat): State
    requires CanEvict(s, t)
  {
    FreeChain(Unlinked(s, t), t, s.topics[t].queue[0].chain)
  }

  /** Eviction up to the free_chain call. */
  ghost function Unlinked(s: State, t: nat): State
    requires CanEvict(s, t)
  {
    Put(s, t, HeadTaken(Skipped(s.topics[t])))
  }

  ghost function Skipped(x: Topic): Topic
    requires x.queue != []
  {
    x.(subs := SkipPast(x.subs, x.queue[0].seqno), evicted := x.evicted + {x.queue[0].seqno})
  }

  /** Topic u owes a block and its oldest message is not pinned: it can be made to give one back. */
  ghost predicate CanRecall(s: State, u: nat) { u < |s.topics| && s.topics[u].borrowed > 0 && CanEvict(s, u) }

  /** First such borrower in list order. */
  ghost function Victim(s: State, k: nat): (r: Option<nat>)
    requires k <= |s.topics|
    ensures r.Some? ==> r.value < k && CanRecall(s, r.value) && forall u :: r.value < u < k ==> !CanRecall(s, u)
    ensures r.None? ==> forall u :: 0 <= u < k ==> !CanRecall(s, u)
  {
    if k == 0 then None
    else if s.topics[k - 1].borrowed > 0 && CanEvict(s, k - 1) then Some(k - 1)
    else Victim(s, k - 1)
  }

  /** The eviction alloc_msg tries next for topic t, if any: a borrower's when t has blocks lent
      out, else t's own oldest message when t overwrites. */
  ghost function NextVictim(s: State, t: nat): (r: Option<nat>)
    requires t < |s.topics|
    ensures r.Some? ==> CanEvict(s, r.value)
    ensures r.None? <==> !(s.topics[t].overflow.Overwrite? && CanEvict(s, t)) && (s.topics[t].lent > 0 ==> forall u :: 0 <= u < |s.topics| ==> !CanRecall(s, u))
    ensures forall u :: 0 <= u < |s.topics| && s.topics[t].lent > 0 && CanRecall(s, u) ==> r.Some? && u <= r.value && CanRecall(s, r.value)
    ensures (s.topics[t].lent == 0 || forall u :: 0 <= u < |s.topics| ==> !CanRecall(s, u)) ==> r.None? || r == Some(t)
  {
    if s.topics[t].lent > 0 && Victim(s, |s.topics|).Some? then Victim(s, |s.topics|)
    else if s.topics[t].overflow.Overwrite? && CanEvict(s, t) then Some(t)
    else None
  }

  lemma {:induction false} FreeChainKeepsQueues(s: State, t: nat, chain: seq<Block>)
    ensures var r := FreeChain(s, t, chain);
      && |r.topics| == |s.topics| && |r.epoch| == |s.epoch|
      && forall u :: 0 <= u < |s.topics| ==> r.topics[u].queue == s.topics[u].queue
    decreases |chain|
  {
    if chain == [] || !CanGive(s, t, chain[0]) {
    } else {
      FreeChainKeepsQueues(GiveOne(s, t, chain[0]), t, chain[1..]);
    }
  }

  /** Every eviction takes one message off the bus: the measure that ends alloc_msg's loop. */
  lemma EvictShrinks(s: State, t: nat)
    requires CanEvict(s, t)
    ensures |Evict(s, t).topics| == |s.topics|
    ensures SumQueued(Evict(s, t).topics) + 1 == SumQueued(s.topics)
  {
    var s1 := Unlinked(s, t);
    UpdateSums(s.topics, t, HeadTaken(Skipped(s.topics[t])));
    FreeChainKeepsQueues(s1, t, s.topics[t].queue[0].chain);
    SameQueues(s1.topics, Evict(s, t).topics);
  }

  lemma {:induction false} SameQueues(ts: seq<Topic>, us: seq<Topic>)
    requires |ts| == |us| && forall u :: 0 <= u < |ts| ==> ts[u].queue == us[u].queue
    ensures SumQueued(ts) == SumQueued(us)
  {
    if ts != [] { SameQueues(ts[1..], us[1..]); }
  }

  /** take_one, with the evictions alloc_msg makes until a block turns up. */
  ghost function TakeHard(s: State, t: nat): (r: Taken)
    requires t < |s.topics|
    ensures |r.s.topics| == |s.topics|
    decreases SumQueued(s.topics)
  {
    if TakeOne(s, t).block.Some? then TakeOne(s, t)
    else
      match NextVictim(s, t)
      case None => Taken(s, None)
      case Some(v) =>
        EvictShrinks(s, v);
        TakeHard(Evict(s, v), t)
  }

  datatype Allocated = Allocated(s: State, chain: Option<seq<Block>>)

  /** alloc_msg's loop: n more blocks in front of `chain`, or everything given back. */
  ghost function AllocLoop(s: State, t: nat, n: nat, chain: seq<Block>): Allocated
    requires t < |s.topics|
    decreases n
  {
    if n == 0 then Allocated(s, Some(chain))
    else
      var r := TakeHard(s, t);
      if r.block.None? then Allocated(FreeChain(r.s, t, chain), None)
      else AllocLoop(r.s, t, n - 1, [r.block.value] + chain)
  }

  ghost function SumStash(ts: seq<Topic>): nat {
    if ts == [] then 0 else |ts[0].stash| + SumStash(ts[1..])
  }

  /** The blocks alloc_msg counts on before it starts. */
  ghost function Can(s: State, t: nat): nat
    requires t < |s.topics|
  {
    var x := s.topics[t];
    if x.overflow.Overwrite?
    then SumStash(s.topics) + |s.pool| + x.lent + QueueLen(x.queue)
    else |x.stash| + |s.pool| + x.lent
  }

  ghost function Alloc(s: State, t: nat, n: nat): Allocated
    requires t < |s.topics|
  {
    if |s.topics[t].stash| >= n || Can(s, t) >= n then AllocLoop(s, t, n, []) else Allocated(s, None)
  }

  // --- Declare, subscribe, publish ---------------------------------------------------

  ghost function Reversed<T>(l: seq<T>): (r: seq<T>)
    ensures |r| == |l|
  {
    if l == [] then [] else Reversed(l[1..]) + [l[0]]
  }

  ghost function Declare(s: State, reserve: nat, overflow: Overflow, pipe: bool): State {
    if (pipe && reserve == 0) || reserve > |s.pool| then s
    else
      var mine := s.pool[..reserve];
      var x := Topic(reserve, overflow, pipe, if pipe then [] else Reversed(mine), 0, 0, [], [],
                     {}, {}, if pipe then mine else [], [], {});
      s.(pool := s.pool[reserve..], topics := s.topics + [x])
  }

  ghost function Joined(x: Topic): Topic {
    x.(subs := [Sub(|x.log|, false, |x.log|, |x.log|, [], Idle)] + x.subs)
  }

  ghost function Subscribe(s: State, t: nat): State
    requires t < |s.topics|
  {
    Put(s, t, Joined(s.topics[t]))
  }

  /** The bytes in the blocks of a chain. */
  ghost function Data(s: State, chain: seq<Block>): (r: seq<Bytes>)
    requires forall i :: 0 <= i < |chain| ==> chain[i] < |s.cell|
    ensures |r| == |chain| && forall i :: 0 <= i < |chain| ==> r[i] == s.cell[chain[i]]
  {
    seq(|chain|, i requires 0 <= i < |chain| => s.cell[chain[i]])
  }

  ghost predicate CanLink(s: State, t: nat, chain: seq<Block>) {
    && t < |s.topics| && chain != [] && Distinct(chain)
    && forall i :: 0 <= i < |chain| ==> chain[i] in s.topics[t].loose && chain[i] < |s.cell|
  }

  /** link_msg's critical section. With nobody subscribed it does nothing: the chain stays in
      the publisher's hands, which frees it in a critical section of its own. */
  ghost function Link(s: State, t: nat, chain: seq<Block>, len: nat): State
    requires CanLink(s, t, chain)
  {
    if s.topics[t].subs == [] then s
    else Put(s, t, Linked(s.topics[t], chain, len, Data(s, chain)))
  }

  ghost function Linked(x: Topic, chain: seq<Block>, len: nat, data: seq<Bytes>): Topic {
    x.(queue := x.queue + [Msg(chain, |x.log|, len, |x.subs|, 0)], log := x.log + [data],
       loose := x.loose - Elems(chain), tickets := x.tickets - Elems(chain))
  }

  // --- Readers -------------------------------------------------------------------------

  /** The subscription's message, when it has one. */
  ghost predicate HasNext(x: Topic, i: nat) {
    i < |x.subs| && 0 <= x.subs[i].cur - x.Base() < |x.queue|
  }

  ghost function Next(x: Topic, i: nat): Msg
    requires HasNext(x, i)
  {
    x.queue[x.subs[i].cur - x.Base()]
  }

  /** The reader is done with its message, and `data` is what it got out of it. */
  ghost function ReadOn(u: Sub, seqno: nat, data: seq<Bytes>): Sub {
    u.(cur := seqno + 1, awaits := seqno + 1, peeked := false, pop := Idle,
       got := u.got + [Delivery(seqno, data, if seqno >= u.awaits then seqno - u.awaits else 0)])
  }

  /** A message one reader has finished with. */
  ghost function Unref(m: Msg, unpin: bool): Msg {
    m.(refs := if m.refs > 0 then m.refs - 1 else 0, pins := if unpin && m.pins > 0 then m.pins - 1 else m.pins)
  }

  ghost function Advanced(x: Topic, i: nat, data: seq<Bytes>): Topic
    requires HasNext(x, i)
  {
    var u := x.subs[i];
    var p := u.cur - x.Base();
    x.(subs := x.subs[i := ReadOn(u, x.queue[p].seqno, data)],
       queue := x.queue[p := Unref(x.queue[p], u.peeked)])
  }

  /** consume: drop the reader's reference; the message leaves the queue with the last one. */
  ghost function Consumed(x: Topic, i: nat, data: seq<Bytes>): Topic
    requires HasNext(x, i)
  {
    var y := Advanced(x, i, data);
    if Unref(Next(x, i), false).refs > 0 then y else HeadTaken(y)
  }

  ghost function Consume(s: State, t: nat, i: nat, data: seq<Bytes>): State
    requires t < |s.topics| && HasNext(s.topics[t], i)
  {
    Put(s, t, Consumed(s.topics[t], i, data))
  }

  /** v_bus_pop, first critical section. A message larger than the buffer stays unread. */
  ghost function PopStart(s: State, t: nat, i: nat, cap: nat): State {
    if t < |s.topics| && HasNext(s.topics[t], i) && !s.topics[t].subs[i].peeked
       && Next(s.topics[t], i).chain != [] && Next(s.topics[t], i).chain[0] < |s.epoch|
       && Next(s.topics[t], i).len <= cap then
      var x := s.topics[t];
      var b := Next(x, i).chain[0];
      Put(s, t, x.(subs := x.subs[i := x.subs[i].(pop := Copying(b, s.epoch[b], []))]))
    else s
  }

  /** Whether the message a pop noted is still the one it started on. */
  ghost predicate Intact(s: State, t: nat, i: nat)
    requires t < |s.topics| && i < |s.topics[t].subs| && s.topics[t].subs[i].pop.Copying?
  {
    var p := s.topics[t].subs[i].pop;
    p.msg < |s.epoch| && s.epoch[p.msg] == p.epoch
  }

  /** One block of v_bus_pop's unlocked copy. If the chain was freed meanwhile the copy walks
      blocks that are somebody else's by now: it may get any bytes (`junk`). */
  ghost function PopCopy(s: State, t: nat, i: nat, junk: Bytes): State {
    if t < |s.topics| && i < |s.topics[t].subs| && s.topics[t].subs[i].pop.Copying? then
      var x := s.topics[t];
      var p := x.subs[i].pop;
      if Intact(s, t, i) && HasNext(x, i) then
        var k := |p.buf|;
        var c := Next(x, i).chain;
        if k < |c| && c[k] < |s.cell| then
          Put(s, t, x.(subs := x.subs[i := x.subs[i].(pop := p.(buf := p.buf + [s.cell[c[k]]]))]))
        else s
      else Put(s, t, x.(subs := x.subs[i := x.subs[i].(pop := p.(buf := p.buf + [junk]))]))
    else s
  }

  /** v_bus_pop, second critical section: take the message, or start over if it was evicted. */
  ghost function PopEnd(s: State, t: nat, i: nat): State {
    if t < |s.topics| && i < |s.topics[t].subs| && s.topics[t].subs[i].pop.Copying? then
      var x := s.topics[t];
      if Intact(s, t, i) then
        if HasNext(x, i) && |x.subs[i].pop.buf| == |Next(x, i).chain|
        then Consume(s, t, i, x.subs[i].pop.buf)
        else s
      else Put(s, t, x.(subs := x.subs[i := x.subs[i].(pop := Idle)]))
    else s
  }

  ghost function Pinned(x: Topic, i: nat): Topic
    requires HasNext(x, i)
  {
    var p := x.subs[i].cur - x.Base();
    x.(queue := x.queue[p := x.queue[p].(pins := x.queue[p].pins + 1)],
       subs := x.subs[i := x.subs[i].(peeked := true)])
  }

  /** v_bus_peek of a message of one block: pin it. */
  ghost function Peek(s: State, t: nat, i: nat): State {
    if t < |s.topics| && HasNext(s.topics[t], i) && !s.topics[t].subs[i].peeked
       && s.topics[t].subs[i].pop.Idle? && |Next(s.topics[t], i).chain| == 1
    then Put(s, t, Pinned(s.topics[t], i))
    else s
  }

  /** v_bus_release's critical section; the reader has been looking at the block in place. */
  ghost function Release(s: State, t: nat, i: nat): State {
    if t < |s.topics| && HasNext(s.topics[t], i) && s.topics[t].subs[i].peeked
       && (forall j :: 0 <= j < |Next(s.topics[t], i).chain| ==> Next(s.topics[t], i).chain[j] < |s.cell|)
    then Consume(s, t, i, Data(s, Next(s.topics[t], i).chain))
    else s
  }

  // --- Unsubscribe ------------------------------------------------------------------------

  /** Drop the claim of a reader at `cur` on every message from there on, and its pin. */
  ghost function Disclaim(q: seq<Msg>, cur: nat, peeked: bool): (r: seq<Msg>)
    ensures |r| == |q|
    ensures forall i :: 0 <= i < |q| ==> r[i] == Disclaimed(q[i], cur, peeked)
  {
    seq(|q|, i requires 0 <= i < |q| => Disclaimed(q[i], cur, peeked))
  }

  ghost function Disclaimed(m: Msg, cur: nat, peeked: bool): Msg {
    m.(refs := if m.seqno >= cur && m.refs > 0 then m.refs - 1 else m.refs,
       pins := if peeked && m.seqno == cur && m.pins > 0 then m.pins - 1 else m.pins)
  }

  /** Free the run of messages at the head that nobody is waiting for. */
  ghost function FreeRead(s: State, t: nat): (r: State)
    requires t < |s.topics|
    ensures |r.topics| == |s.topics|
    decreases |s.topics[t].queue|
  {
    if s.topics[t].queue == [] || s.topics[t].queue[0].refs > 0 then s
    else
      var c := s.topics[t].queue[0].chain;
      FreeChainKeepsQueues(TakeHead(s, t), t, c);
      FreeRead(FreeChain(TakeHead(s, t), t, c), t)
  }

  ghost function Without(x: Topic, i: nat): Topic
    requires i < |x.subs|
  {
    x.(subs := x.subs[..i] + x.subs[i + 1..], queue := Disclaim(x.queue, x.subs[i].cur, x.subs[i].peeked))
  }

  ghost function Detached(s: State, t: nat, i: nat): State
    requires t < |s.topics| && i < |s.topics[t].subs|
  {
    Put(s, t, Without(s.topics[t], i))
  }

  ghost function Unsubscribe(s: State, t: nat, i: nat): State
    requires t < |s.topics| && i < |s.topics[t].subs|
  {
    FreeRead(Detached(s, t, i), t)
  }
}
