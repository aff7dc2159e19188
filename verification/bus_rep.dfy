/** How kernel/bus.c stores the bus: one descriptor per block, lists threaded through
    `desc[].next` and `hdr.link`, and counters beside them; and what it means for that memory
    to represent an abstract bus. */
module BusRep {
  import opened Lists
  import opened BusState
  import opened BusOps
  import opened BusLoans

  const NIL: nat := 0xFFFF
  const HDR_SIZE: nat := 12

  const FREE: nat := 0
  const IN_USE: nat := 1
  const RESERVED: nat := 2
  const STASHED: nat := 3
  const PIPE_SLOT: nat := 4

  /** v_bus_desc_t and, for the first block of a message, the header in its first bytes. */
  datatype Desc = Desc(next: nat, used: nat, link: nat, len: nat, refs: nat, pins: nat, seqno: nat)

  datatype Cur = Cur(cursor: nat, peeked: nat, awaits: nat)

  datatype Rec = Rec(
    reserve: nat, overflow: Overflow, pipe: bool, head: nat, tail: nat, blocks: nat,
    stash: nat, stashCount: nat, lent: nat, borrowed: nat, nextSeq: nat, pipeWr: nat, subs: seq<Cur>)

  datatype Mem = Mem(blockSize: nat, desc: seq<Desc>, freeHead: nat, freeCount: nat, topics: seq<Rec>)

  /** Blocks a message of `len` payload bytes needs; the first one also holds the header. */
  function BlocksFor(blockSize: nat, len: nat): (n: nat)
    requires blockSize >= HDR_SIZE
    ensures n >= 1
  {
    var first := blockSize - HDR_SIZE;
    if len <= first then 1 else 1 + (len - first + blockSize - 1) / blockSize
  }

  // --- Lists in memory -------------------------------------------------------------------------

  ghost function HeadOf(l: seq<Block>): nat { if l == [] then NIL else l[0] }

  ghost function NextIn(l: seq<Block>, i: nat): nat { if i + 1 < |l| then l[i + 1] else NIL }

  /** The blocks of l, chained through `next` and ended by NIL, all with the same `used` mark. */
  ghost predicate Chained(desc: seq<Desc>, l: seq<Block>, used: nat) {
    forall i :: 0 <= i < |l| ==>
      && l[i] < |desc| && desc[l[i]].used == used
      && desc[l[i]].next == NextIn(l, i)
  }

  ghost function LinkOf(q: seq<Msg>, i: nat): nat
    requires forall j :: 0 <= j < |q| ==> q[j].chain != []
  {
    if i < |q| then q[i].chain[0] else NIL
  }

  ghost predicate HeaderRep(d: Desc, m: Msg, link: nat) {
    d.seqno == m.seqno && d.len == m.len && d.refs == m.refs && d.pins == m.pins && d.link == link
  }

  ghost predicate MsgRep(desc: seq<Desc>, size: nat, q: seq<Msg>, i: nat)
    requires i < |q| && forall j :: 0 <= j < |q| ==> q[j].chain != []
  {
    var m := q[i];
    && Chained(desc, m.chain, IN_USE)
    && m.chain[0] < |desc|
    && HeaderRep(desc[m.chain[0]], m, LinkOf(q, i + 1))
    && size >= HDR_SIZE && BlocksFor(size, m.len) == |m.chain|
  }

  ghost predicate QueueRep(desc: seq<Desc>, size: nat, q: seq<Msg>) {
    && (forall j :: 0 <= j < |q| ==> q[j].chain != [])
    && forall i :: 0 <= i < |q| ==> MsgRep(desc, size, q, i)
  }

  ghost function CursorOf(x: Topic, u: Sub): nat {
    var p := u.cur - x.Base();
    if 0 <= p < |x.queue| && x.queue[p].chain != [] then x.queue[p].chain[0] else NIL
  }

  ghost predicate SubsRep(r: Rec, x: Topic) {
    && |r.subs| == |x.subs|
    && forall i :: 0 <= i < |x.subs| ==>
         && r.subs[i].cursor == CursorOf(x, x.subs[i])
         && r.subs[i].peeked == (if x.subs[i].peeked then r.subs[i].cursor else NIL)
         && r.subs[i].awaits == x.subs[i].awaits
  }

  ghost predicate FieldsRep(r: Rec, x: Topic) {
    && r.reserve == x.reserve && r.overflow == x.overflow && r.pipe == x.pipe
    && r.lent == x.lent && r.borrowed == x.borrowed
    && r.stash == HeadOf(x.stash) && r.stashCount == |x.stash|
  }

  ghost predicate EndsRep(r: Rec, x: Topic) {
    && (forall j :: 0 <= j < |x.queue| ==> x.queue[j].chain != [])
    && r.head == LinkOf(x.queue, 0)
    && r.tail == (if x.queue == [] then NIL else x.queue[|x.queue| - 1].chain[0])
    && r.nextSeq == |x.log|
  }

  /** The ring of a pipe, and the writer's and reader's places in it. */
  ghost predicate RingRep(desc: seq<Desc>, l: seq<Block>) {
    forall i :: 0 <= i < |l| ==>
      && l[i] < |desc| && desc[l[i]].used == PIPE_SLOT
      && desc[l[i]].next == l[if i + 1 < |l| then i + 1 else 0]
  }

  ghost predicate PipeRep(r: Rec, x: Topic) {
    && x.ring != [] && r.head == NIL && r.tail == NIL && r.blocks == |x.ring| && x.subs == []
    && r.pipeWr == x.ring[r.nextSeq % |x.ring|]
    && |r.subs| <= 1
    && forall i :: 0 <= i < |r.subs| ==>
         && r.subs[i].awaits <= r.nextSeq
         && (x.overflow.Drop? ==> r.nextSeq - r.subs[i].awaits <= |x.ring|)
         && r.subs[i].cursor == x.ring[r.subs[i].awaits % |x.ring|]
  }

  /** The mark of a block in somebody's hands; an open ticket is a chain of its own. */
  ghost predicate HandMark(d: Desc, ticket: bool) {
    if ticket then d.used == RESERVED && d.next == NIL else d.used == IN_USE
  }

  ghost predicate LooseRep(desc: seq<Desc>, x: Topic) {
    forall b :: b in x.loose ==> b < |desc| && HandMark(desc[b], b in x.tickets)
  }

  ghost predicate TopicRep(desc: seq<Desc>, size: nat, r: Rec, x: Topic) {
    && FieldsRep(r, x)
    && Chained(desc, x.stash, STASHED)
    && LooseRep(desc, x)
    && RingRep(desc, x.ring)
    && QueueRep(desc, size, x.queue)
    && (x.pipe ==> PipeRep(r, x))
    && (!x.pipe ==> EndsRep(r, x) && SubsRep(r, x) && r.blocks == QueueLen(x.queue))
  }

  ghost predicate Rep(c: Mem, s: State) {
    && HDR_SIZE <= c.blockSize && |c.desc| == |s.epoch| < NIL
    && c.freeHead == HeadOf(s.pool) && c.freeCount == |s.pool| && Chained(c.desc, s.pool, FREE)
    && |c.topics| == |s.topics|
    && forall t :: 0 <= t < |s.topics| ==> TopicRep(c.desc, c.blockSize, c.topics[t], s.topics[t])
  }

  // --- What a write leaves alone ------------------------------------------------------------------

  /** Only block b's descriptor differs. */
  ghost predicate Agree(c: Mem, d: Mem, b: Block) {
    && |d.desc| == |c.desc| && d.blockSize == c.blockSize
    && forall k :: 0 <= k < |c.desc| && k != b ==> d.desc[k] == c.desc[k]
  }

  /** A list that block b is not on is still there. */
  lemma KeepChained(c: Mem, d: Mem, b: Block, l: seq<Block>, used: nat)
    requires Agree(c, d, b) && Chained(c.desc, l, used) && b !in l
    ensures Chained(d.desc, l, used)
  {
  }

  lemma KeepQueue(c: Mem, d: Mem, b: Block, q: seq<Msg>)
    requires Agree(c, d, b) && QueueRep(c.desc, c.blockSize, q) && InQueue(q, b) == 0
    ensures QueueRep(d.desc, d.blockSize, q)
  {
    forall i | 0 <= i < |q| ensures MsgRep(d.desc, d.blockSize, q, i) {
      assert MsgRep(c.desc, c.blockSize, q, i);
      PartOfQueue(q, i);
      assert Occurs(q[i].chain, b) == 0;
      KeepChained(c, d, b, q[i].chain, IN_USE);
    }
  }

  lemma KeepTopic(c: Mem, d: Mem, b: Block, r: Rec, x: Topic)
    requires Agree(c, d, b) && TopicRep(c.desc, c.blockSize, r, x) && InTopic(x, b) == 0
    ensures TopicRep(d.desc, d.blockSize, r, x)
  {
    assert Occurs(x.stash, b) == 0 && Occurs(x.ring, b) == 0 && InQueue(x.queue, b) == 0;
    KeepChained(c, d, b, x.stash, STASHED);
    KeepQueue(c, d, b, x.queue);
  }

  /** A block in somebody's hands may be written to, made a ticket, or made an ordinary block again. */
  lemma TicketRep(c: Mem, d: Mem, s: State, t: nat, b: Block, tickets: set<Block>)
    requires Rep(c, s) && Books(s) && t < |s.topics| && b in s.topics[t].loose
    requires Agree(c, d, b) && d.freeHead == c.freeHead
    requires d.freeCount == c.freeCount && d.topics == c.topics
    requires b < |d.desc| && HandMark(d.desc[b], b in tickets)
    requires tickets - {b} == s.topics[t].tickets - {b}
    ensures Rep(d, Put(s, t, s.topics[t].(tickets := tickets)))
  {
    hide TopicRep;
    var x := s.topics[t];
    var y := x.(tickets := tickets);
    var s' := Put(s, t, y);
    assert InTopic(x, b) >= 1;
    Apart(s, t, b);
    KeepChained(c, d, b, s.pool, FREE);
    forall u | 0 <= u < |s'.topics| ensures TopicRep(d.desc, d.blockSize, d.topics[u], s'.topics[u]) {
      assert TopicRep(c.desc, c.blockSize, c.topics[u], s.topics[u]);
      if u == t {
        KeepLoose(c, d, b, c.topics[t], x, y);
      } else {
        KeepTopic(c, d, b, c.topics[u], s.topics[u]);
      }
    }
  }

  lemma WriteLoose(c: Mem, d: Mem, s: State, t: nat, b: Block)
    requires Rep(c, s) && Books(s) && t < |s.topics| && b in s.topics[t].loose
    requires Agree(c, d, b) && d.freeHead == c.freeHead
    requires d.freeCount == c.freeCount && d.topics == c.topics
    requires b < |d.desc| && HandMark(d.desc[b], b in s.topics[t].tickets)
    ensures Rep(d, s)
  {
    hide Rep, Books;
    TicketRep(c, d, s, t, b, s.topics[t].tickets);
    assert Put(s, t, s.topics[t]) == s;
  }

  lemma KeepLoose(c: Mem, d: Mem, b: Block, r: Rec, x: Topic, y: Topic)
    requires Agree(c, d, b) && TopicRep(c.desc, c.blockSize, r, x) && b in x.loose && InTopic(x, b) == 1
    requires y == x.(tickets := y.tickets) && y.tickets - {b} == x.tickets - {b}
    requires b < |d.desc| && HandMark(d.desc[b], b in y.tickets)
    ensures TopicRep(d.desc, d.blockSize, r, y)
  {
    hide Chained, QueueRep;
    assert Occurs(x.stash, b) == 0 && Occurs(x.ring, b) == 0 && InQueue(x.queue, b) == 0;
    KeepChained(c, d, b, x.stash, STASHED);
    KeepQueue(c, d, b, x.queue);
    KeepHands(c, d, b, x, y);
    assert RingRep(d.desc, x.ring) by { assert b !in x.ring; }
    assert !x.pipe ==> EndsRep(r, y) && SubsRep(r, y);
  }

  lemma KeepHands(c: Mem, d: Mem, b: Block, x: Topic, y: Topic)
    requires Agree(c, d, b) && LooseRep(c.desc, x) && y.loose == x.loose && y.tickets - {b} == x.tickets - {b}
    requires b < |d.desc| && HandMark(d.desc[b], b in y.tickets)
    ensures LooseRep(d.desc, y)
  {
    forall k | k in y.loose && k != b ensures k in y.tickets <==> k in x.tickets {
      assert k in y.tickets - {b} <==> k in x.tickets - {b};
    }
  }

  /** The blocks of a topic are distinct from one another and from the rest of the pool. */
  lemma StashDistinct(s: State, t: nat)
    requires OnePlace(s) && t < |s.topics|
    ensures Distinct(s.topics[t].stash)
    ensures forall i :: 0 <= i < |s.topics[t].stash| ==> InTopic(s.topics[t], s.topics[t].stash[i]) == 1
  {
    var l := s.topics[t].stash;
    forall i, j | 0 <= i < j < |l| ensures l[i] != l[j] {
      Apart(s, t, l[i]);
      if l[i] == l[j] { OnceOnly(l, i, j); }
    }
    forall i | 0 <= i < |l| ensures InTopic(s.topics[t], l[i]) == 1 {
      assert Occurs(l, l[i]) >= 1;
      Apart(s, t, l[i]);
    }
  }

  lemma PoolDistinct(s: State)
    requires OnePlace(s)
    ensures Distinct(s.pool)
  {
    var l := s.pool;
    forall i, j | 0 <= i < j < |l| ensures l[i] != l[j] {
      PoolApart(s, l[i]);
      if l[i] == l[j] { OnceOnly(l, i, j); }
    }
  }

  // --- Moving one block between lists -----------------------------------------------------------

  ghost predicate Elsewhere<T>(a: seq<T>, b: seq<T>, i: nat) {
    |a| == |b| && forall k :: 0 <= k < |a| && k != i ==> a[k] == b[k]
  }

  /** Topic t changes (r, y) along with block b, which no other topic and the pool know nothing of;
      the pool may change too, as long as it stays a list. */
  lemma MoveBlock(c: Mem, d: Mem, s: State, s': State, t: nat, b: Block)
    requires Rep(c, s) && t < |s.topics|
    requires |s'.topics| == |s.topics| && |s'.epoch| == |s.epoch|
    requires Agree(c, d, b) && |d.topics| == |c.topics|
    requires Elsewhere(s.topics, s'.topics, t) && Elsewhere(c.topics, d.topics, t)
    requires forall u :: 0 <= u < |s.topics| && u != t ==> InTopic(s.topics[u], b) == 0
    requires TopicRep(d.desc, d.blockSize, d.topics[t], s'.topics[t])
    requires d.freeHead == HeadOf(s'.pool) && d.freeCount == |s'.pool| && Chained(d.desc, s'.pool, FREE)
    ensures Rep(d, s')
  {
    forall u | 0 <= u < |s.topics| ensures TopicRep(d.desc, d.blockSize, d.topics[u], s'.topics[u]) {
      if u != t {
        assert TopicRep(c.desc, c.blockSize, c.topics[u], s.topics[u]);
        KeepTopic(c, d, b, c.topics[u], s.topics[u]);
      }
    }
  }

  /** A topic trades block b: its stash, hands and loan counts change, its queue does not. */
  lemma TradeTopic(c: Mem, d: Mem, b: Block, r: Rec, x: Topic, y: Topic)
    requires Agree(c, d, b) && TopicRep(c.desc, c.blockSize, r, x) && !x.pipe && InQueue(x.queue, b) == 0 && x.ring == []
    requires y == x.(stash := y.stash, loose := y.loose, tickets := y.tickets, borrowed := y.borrowed, lent := y.lent)
    requires Chained(d.desc, y.stash, STASHED) && LooseRep(d.desc, y)
    ensures TopicRep(d.desc, d.blockSize, Trade(r, y), y)
  {
    KeepQueue(c, d, b, x.queue);
    assert EndsRep(Trade(r, y), y) && SubsRep(Trade(r, y), y);
  }

  ghost function Trade(r: Rec, y: Topic): Rec {
    r.(stash := HeadOf(y.stash), stashCount := |y.stash|, borrowed := y.borrowed, lent := y.lent)
  }

  lemma ConsChained(d: Mem, b: Block, l: seq<Block>, used: nat)
    requires Chained(d.desc, l, used) && b < |d.desc| && d.desc[b].used == used && d.desc[b].next == HeadOf(l)
    ensures Chained(d.desc, [b] + l, used)
  {
    var k := [b] + l;
    forall i | 0 <= i < |k|
      ensures k[i] < |d.desc| && d.desc[k[i]].used == used
      ensures d.desc[k[i]].next == NextIn(k, i)
    {
      if i > 0 { assert k[i] == l[i - 1]; }
      if i + 1 < |k| { assert k[i + 1] == l[i]; }
    }
  }

  lemma TailChained(desc: seq<Desc>, l: seq<Block>, used: nat)
    requires Chained(desc, l, used) && l != []
    ensures Chained(desc, l[1..], used) && desc[l[0]].next == HeadOf(l[1..])
  {
    var k := l[1..];
    forall i | 0 <= i < |k|
      ensures k[i] < |desc| && desc[k[i]].used == used
      ensures desc[k[i]].next == NextIn(k, i)
    {
      assert k[i] == l[i + 1];
      if i + 1 < |k| { assert k[i + 1] == l[i + 2]; }
    }
  }
}
