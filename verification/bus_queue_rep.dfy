/** The queue operations in memory: take_head, the cursor moves of eviction, linking a message,
    and the header counts. */
module BusQueueRep {
  import opened BusState
  import opened BusOps
  import opened BusLoans
  import opened BusAlloc
  import opened BusReaders
  import opened BusDelivery
  import opened BusRep

  /** Only headers of messages queued on topic x differ. */
  ghost predicate HeadersOnly(c: Mem, d: Mem, x: Topic) {
    && |d.desc| == |c.desc| && d.blockSize == c.blockSize
    && forall k :: 0 <= k < |c.desc| ==>
         && d.desc[k].next == c.desc[k].next && d.desc[k].used == c.desc[k].used
         && (InQueue(x.queue, k) == 0 ==> d.desc[k] == c.desc[k])
  }

  lemma KeepApart(c: Mem, d: Mem, x: Topic, r: Rec, y: Topic)
    requires HeadersOnly(c, d, x) && TopicRep(c.desc, c.blockSize, r, y)
    requires forall i :: 0 <= i < |y.queue| ==> y.queue[i].chain != [] && InQueue(x.queue, y.queue[i].chain[0]) == 0
    ensures TopicRep(d.desc, d.blockSize, r, y)
  {
    forall i | 0 <= i < |y.queue| ensures MsgRep(d.desc, d.blockSize, y.queue, i) { assert MsgRep(c.desc, c.blockSize, y.queue, i); }
  }

  /** A message's blocks are in no other topic's queue. */
  lemma QueuesApart(s: State, t: nat, u: nat, i: nat)
    requires OnePlace(s) && t < |s.topics| && u < |s.topics| && t != u
    requires i < |s.topics[u].queue| && s.topics[u].queue[i].chain != []
    ensures InQueue(s.topics[t].queue, s.topics[u].queue[i].chain[0]) == 0
  {
    var b := s.topics[u].queue[i].chain[0];
    PartOfQueue(s.topics[u].queue, i);
    assert Occurs(s.topics[u].queue[i].chain, b) >= 1;
    Apart(s, u, b);
  }

  /** Topic t changes, along with headers of its own messages. */
  lemma TopicStep(c: Mem, d: Mem, s: State, s': State, t: nat)
    requires Rep(c, s) && Books(s) && t < |s.topics| && HeadersOnly(c, d, s.topics[t])
    requires |s'.topics| == |s.topics| && |s'.epoch| == |s.epoch| && |d.topics| == |c.topics|
    requires Elsewhere(s.topics, s'.topics, t) && Elsewhere(c.topics, d.topics, t)
    requires s'.pool == s.pool && d.freeHead == c.freeHead && d.freeCount == c.freeCount
    requires TopicRep(d.desc, d.blockSize, d.topics[t], s'.topics[t])
    ensures Rep(d, s')
  {
    forall u | 0 <= u < |s.topics| ensures TopicRep(d.desc, d.blockSize, d.topics[u], s'.topics[u]) {
      if u != t {
        assert TopicRep(c.desc, c.blockSize, c.topics[u], s.topics[u]);
        forall i | 0 <= i < |s.topics[u].queue|
          ensures s.topics[u].queue[i].chain != [] && InQueue(s.topics[t].queue, s.topics[u].queue[i].chain[0]) == 0
        {
          QueuesApart(s, t, u, i);
        }
        KeepApart(c, d, s.topics[t], c.topics[u], s.topics[u]);
      }
    }
  }

  /** Two queued messages start at different blocks. */
  lemma HeadsDiffer(s: State, t: nat, i: nat, j: nat)
    requires OnePlace(s) && t < |s.topics| && i < |s.topics[t].queue| && j < |s.topics[t].queue| && i != j
    requires s.topics[t].queue[i].chain != [] && s.topics[t].queue[j].chain != []
    ensures s.topics[t].queue[i].chain[0] != s.topics[t].queue[j].chain[0]
  {
    var q := s.topics[t].queue;
    var b := q[i].chain[0];
    if b == q[j].chain[0] {
      assert Occurs(q[i].chain, b) >= 1 && Occurs(q[j].chain, b) >= 1;
      TwoPartsOfQueue(q, if i < j then i else j, if i < j then j else i, b);
      Apart(s, t, b);
    }
  }

  // --- take_head -----------------------------------------------------------------------------------

  lemma TailQueue(c: Mem, q: seq<Msg>)
    requires QueueRep(c.desc, c.blockSize, q) && q != []
    ensures c.blockSize >= HDR_SIZE && q[0].chain[0] < |c.desc| && Chained(c.desc, q[0].chain, IN_USE)
    ensures QueueRep(c.desc, c.blockSize, q[1..]) && c.desc[q[0].chain[0]].link == LinkOf(q[1..], 0)
    ensures BlocksFor(c.blockSize, c.desc[q[0].chain[0]].len) == |q[0].chain| <= QueueLen(q)
  {
    assert MsgRep(c.desc, c.blockSize, q, 0);
    forall i | 0 <= i < |q[1..]| ensures MsgRep(c.desc, c.blockSize, q[1..], i) {
      assert MsgRep(c.desc, c.blockSize, q, i + 1) && q[1..][i] == q[i + 1];
      assert LinkOf(q[1..], i + 1) == LinkOf(q, i + 2);
    }
  }

  /** The record of a topic after take_head. */
  ghost function HeadOff(c: Mem, r: Rec): Rec
    requires r.head < |c.desc| && c.blockSize >= HDR_SIZE
    requires r.blocks >= BlocksFor(c.blockSize, c.desc[r.head].len)
  {
    r.(head := c.desc[r.head].link, tail := if r.tail == r.head then NIL else r.tail,
       blocks := r.blocks - BlocksFor(c.blockSize, c.desc[r.head].len))
  }

  ghost predicate NobodyAtHead(x: Topic) {
    forall i :: 0 <= i < |x.subs| ==> x.subs[i].cur != x.Base()
  }

  lemma TakeHeadTopic(c: Mem, r: Rec, x: Topic)
    requires TopicRep(c.desc, c.blockSize, r, x) && x.queue != [] && !x.pipe && NobodyAtHead(x)
    requires x.tickets !! Elems(x.queue[0].chain)
    requires |x.queue| > 1 ==> x.queue[0].chain[0] != x.queue[|x.queue| - 1].chain[0]
    ensures r.head == x.queue[0].chain[0] < |c.desc| && c.blockSize >= HDR_SIZE
    ensures r.blocks >= BlocksFor(c.blockSize, c.desc[r.head].len)
    ensures TopicRep(c.desc, c.blockSize, HeadOff(c, r), HeadTaken(x))
  {
    TailQueue(c, x.queue);
    var y, q := HeadTaken(x), HeadOff(c, r);
    assert LooseRep(c.desc, y);
    assert EndsRep(q, y);
    assert SubsRep(q, y);
  }

  lemma TakeHeadRep(c: Mem, s: State, t: nat, d: Mem, s': State)
    requires Rep(c, s) && Books(s) && t < |s.topics| && s.topics[t].queue != [] && !s.topics[t].pipe
    requires NobodyAtHead(s.topics[t])
    requires c.topics[t].head < |c.desc| && c.topics[t].blocks >= BlocksFor(c.blockSize, c.desc[c.topics[t].head].len)
    requires d == c.(topics := c.topics[t := HeadOff(c, c.topics[t])])
    requires s' == TakeHead(s, t)
    ensures Rep(d, s')
  {
    var x := s.topics[t];
    assert TopicRep(c.desc, c.blockSize, c.topics[t], x) && TopicBooks(x);
    HeadApart(s, t);
    if |x.queue| > 1 { HeadsDiffer(s, t, 0, |x.queue| - 1); }
    TakeHeadTopic(c, c.topics[t], x);
    TopicStep(c, d, s, s', t);
  }

  /** What take_head finds at the head of a queue. */
  lemma HeadFacts(c: Mem, s: State, t: nat)
    requires Rep(c, s) && t < |s.topics| && s.topics[t].queue != [] && !s.topics[t].pipe
    ensures var m := s.topics[t].queue[0];
      && m.chain != [] && c.topics[t].head == m.chain[0] < |c.desc|
      && Chained(c.desc, m.chain, IN_USE) && HeaderRep(c.desc[m.chain[0]], m, LinkOf(s.topics[t].queue, 1))
      && c.topics[t].blocks >= BlocksFor(c.blockSize, c.desc[c.topics[t].head].len)
  {
    var x := s.topics[t];
    assert TopicRep(c.desc, c.blockSize, c.topics[t], x) && MsgRep(c.desc, c.blockSize, x.queue, 0);
    TailQueue(c, x.queue);
  }

  // --- Eviction's cursor moves ---------------------------------------------------------------------

  ghost function MoveCursors(subs: seq<Cur>, from: nat, to: nat, n: nat): (r: seq<Cur>)
    requires n <= |subs|
    ensures |r| == |subs|
    ensures forall i :: 0 <= i < |subs| ==> r[i] == if i < n && subs[i].cursor == from then subs[i].(cursor := to) else subs[i]
  {
    seq(|subs|, i requires 0 <= i < |subs| => if i < n && subs[i].cursor == from then subs[i].(cursor := to) else subs[i])
  }

  /** A cursor equals the head block exactly when the reader is at the oldest message. */
  lemma AtHead(s: State, t: nat, u: Sub)
    requires OnePlace(s) && t < |s.topics| && CursorLaw(s.topics[t], u)
    requires s.topics[t].queue != [] && forall j :: 0 <= j < |s.topics[t].queue| ==> s.topics[t].queue[j].chain != []
    requires s.topics[t].queue[0].chain[0] != NIL
    ensures CursorOf(s.topics[t], u) == s.topics[t].queue[0].chain[0] <==> u.cur == s.topics[t].Base()
  {
    var x := s.topics[t];
    var p := u.cur - x.Base();
    if 0 < p < |x.queue| { HeadsDiffer(s, t, 0, p); }
  }

  lemma SkipTopic(c: Mem, s: State, t: nat, r: Rec, x: Topic, q: Rec)
    requires Books(s) && CanEvict(s, t) && x == s.topics[t] && !x.pipe && ReaderLaw(x) && TopicRep(c.desc, c.blockSize, r, x)
    requires r.head < |c.desc| && |c.desc| < NIL
    requires q == r.(subs := MoveCursors(r.subs, r.head, c.desc[r.head].link, |r.subs|))
    ensures TopicRep(c.desc, c.blockSize, q, Skipped(x)) && NobodyAtHead(Skipped(x))
  {
    assert MsgLaw(x, 0);
    TailQueue(c, x.queue);
    var y := Skipped(x);
    forall i | 0 <= i < |x.subs|
      ensures q.subs[i].cursor == CursorOf(y, y.subs[i])
      ensures q.subs[i].peeked == (if y.subs[i].peeked then q.subs[i].cursor else NIL)
      ensures y.subs[i].cur != y.Base()
    {
      SkippedSub(c, s, t, r, x, i);
    }
    assert SubsRep(q, y);
    assert EndsRep(q, y);
  }

  lemma SkippedSub(c: Mem, s: State, t: nat, r: Rec, x: Topic, i: nat)
    requires Books(s) && CanEvict(s, t) && x == s.topics[t] && ReaderLaw(x) && TopicRep(c.desc, c.blockSize, r, x) && !x.pipe
    requires r.head < |c.desc| && |c.desc| < NIL && i < |x.subs|
    ensures var y := Skipped(x); var v := if r.subs[i].cursor == r.head then c.desc[r.head].link else r.subs[i].cursor;
      && v == CursorOf(y, y.subs[i]) && y.subs[i].cur != y.Base()
      && r.subs[i].peeked == if y.subs[i].peeked then v else NIL
  {
    assert MsgLaw(x, 0) && CursorLaw(x, x.subs[i]);
    hide ReaderLaw, MsgLaw, RingRep, LooseRep, Chained, PipeRep, FieldsRep, TopicBooks, InQueue, QueueLen;
    assert r.subs[i].cursor == CursorOf(x, x.subs[i]) && r.subs[i].peeked == if x.subs[i].peeked then r.subs[i].cursor else NIL;
    assert r.head == x.queue[0].chain[0];
    TailQueue(c, x.queue);
    AtHead(s, t, x.subs[i]);
    NotPeeked(x, i);
    hide TopicRep, Books, QueueRep, SubsRep, EndsRep, Skipped;
    SkippedHere(x, i);
    NextCursor(x, i, c.desc[r.head].link);
  }

  /** Where a skipped reader's cursor goes. */
  lemma NextCursor(x: Topic, i: nat, link: nat)
    requires x.queue != [] && i < |x.subs| && x.Base() <= x.subs[i].cur
    requires forall j :: 0 <= j < |x.queue| ==> x.queue[j].chain != []
    requires link == LinkOf(x.queue[1..], 0)
    requires Skipped(x).queue == x.queue && Skipped(x).log == x.log && |Skipped(x).subs| == |x.subs|
    requires Skipped(x).subs[i] == if x.subs[i].cur == x.Base() then x.subs[i].(cur := x.Base() + 1) else x.subs[i]
    ensures CursorOf(Skipped(x), Skipped(x).subs[i]) == if x.subs[i].cur == x.Base() then link else CursorOf(x, x.subs[i])
    ensures Skipped(x).subs[i].cur != Skipped(x).Base()
  {
  }

  /** Nobody peeks at a message without pins. */
  lemma NotPeeked(x: Topic, i: nat)
    requires x.queue != [] && MsgLaw(x, 0) && x.queue[0].pins == 0 && i < |x.subs|
    ensures x.queue[0].seqno == x.Base() && !(x.subs[i].peeked && x.subs[i].cur == x.Base())
  {
    Counted(x.subs, i, x.queue[0].seqno);
  }

  lemma SkippedHere(x: Topic, i: nat)
    requires x.queue != [] && x.queue[0].seqno == x.Base() && i < |x.subs|
    ensures Skipped(x).queue == x.queue && Skipped(x).log == x.log
    ensures Skipped(x).subs[i] == if x.subs[i].cur == x.Base() then x.subs[i].(cur := x.Base() + 1) else x.subs[i]
  {
  }

  lemma SkipRep(c: Mem, s: State, t: nat, d: Mem, s': State)
    requires Rep(c, s) && Books(s) && CanEvict(s, t) && !s.topics[t].pipe && ReaderLaw(s.topics[t])
    requires c.topics[t].head < |c.desc|
    requires d == c.(topics := c.topics[t := c.topics[t].(subs := MoveCursors(c.topics[t].subs, c.topics[t].head,
                                                         c.desc[c.topics[t].head].link, |c.topics[t].subs|))])
    requires s' == Put(s, t, Skipped(s.topics[t]))
    ensures Rep(d, s')
  {
    assert TopicRep(c.desc, c.blockSize, c.topics[t], s.topics[t]);
    SkipTopic(c, s, t, c.topics[t], s.topics[t], d.topics[t]);
    TopicStep(c, d, s, s', t);
  }

  // --- Reference and pin counts ------------------------------------------------------------------

  /** Message p gets new counts, in memory and in the queue. */
  lemma CountQueue(c: Mem, d: Mem, q: seq<Msg>, p: nat, m: Msg)
    requires QueueRep(c.desc, c.blockSize, q) && p < |q| && d.blockSize == c.blockSize
    requires m == q[p].(refs := m.refs, pins := m.pins) && q[p].chain[0] < |c.desc|
    requires d.desc == c.desc[q[p].chain[0] := c.desc[q[p].chain[0]].(refs := m.refs, pins := m.pins)]
    requires forall j :: 0 <= j < |q| && j != p ==> q[j].chain[0] != q[p].chain[0]
    ensures QueueRep(d.desc, d.blockSize, q[p := m])
  {
    var q' := q[p := m];
    forall i | 0 <= i < |q'| ensures MsgRep(d.desc, d.blockSize, q', i) {
      assert MsgRep(c.desc, c.blockSize, q, i);
      assert LinkOf(q', i + 1) == LinkOf(q, i + 1);
    }
  }

  lemma CountTopic(c: Mem, d: Mem, r: Rec, x: Topic, q: Rec, y: Topic, p: nat, m: Msg)
    requires TopicRep(c.desc, c.blockSize, r, x) && !x.pipe && p < |x.queue| && d.blockSize == c.blockSize
    requires m == x.queue[p].(refs := m.refs, pins := m.pins) && x.queue[p].chain[0] < |c.desc|
    requires d.desc == c.desc[x.queue[p].chain[0] := c.desc[x.queue[p].chain[0]].(refs := m.refs, pins := m.pins)]
    requires forall j :: 0 <= j < |x.queue| && j != p ==> x.queue[j].chain[0] != x.queue[p].chain[0]
    requires y == x.(queue := x.queue[p := m], subs := y.subs) && q == r.(subs := q.subs) && SubsRep(q, y)
    ensures TopicRep(d.desc, d.blockSize, q, y)
  {
    CountQueue(c, d, x.queue, p, m);
    SameChains(x.queue, y.queue);
    assert EndsRep(q, y);
  }

  lemma CountRep(c: Mem, s: State, t: nat, p: nat, m: Msg, d: Mem, s': State)
    requires Rep(c, s) && Books(s) && t < |s.topics| && !s.topics[t].pipe && p < |s.topics[t].queue|
    requires s.topics[t].queue[p].chain != [] && s.topics[t].queue[p].chain[0] < |c.desc|
    requires m == s.topics[t].queue[p].(refs := m.refs, pins := m.pins)
    requires d == c.(desc := c.desc[s.topics[t].queue[p].chain[0] := c.desc[s.topics[t].queue[p].chain[0]].(refs := m.refs, pins := m.pins)],
                     topics := d.topics)
    requires Elsewhere(c.topics, d.topics, t) && d.topics[t] == c.topics[t].(subs := d.topics[t].subs)
    requires Elsewhere(s.topics, s'.topics, t) && s'.pool == s.pool && s'.epoch == s.epoch
    requires s'.topics[t] == s.topics[t].(queue := s.topics[t].queue[p := m], subs := s'.topics[t].subs)
    requires SubsRep(d.topics[t], s'.topics[t])
    ensures Rep(d, s')
  {
    var x := s.topics[t];
    var h := x.queue[p].chain[0];
    assert TopicRep(c.desc, c.blockSize, c.topics[t], x);
    forall j | 0 <= j < |x.queue| && j != p ensures x.queue[j].chain[0] != h { HeadsDiffer(s, t, j, p); }
    CountTopic(c, d, c.topics[t], x, d.topics[t], s'.topics[t], p, m);
    assert Occurs(x.queue[p].chain, h) >= 1;
    PartOfQueue(x.queue, p);
    TopicStep(c, d, s, s', t);
  }

  /** Cursors depend on the chains, not on the counts. */
  lemma SameCursor(x: Topic, y: Topic, u: Sub)
    requires |y.queue| == |x.queue| && |y.log| == |x.log|
    requires forall i :: 0 <= i < |x.queue| ==> y.queue[i].chain == x.queue[i].chain
    ensures CursorOf(y, u) == CursorOf(x, u)
  {
  }

  /** The message a cursor points at. */
  lemma CursorFacts(c: Mem, s: State, t: nat, i: nat)
    requires Rep(c, s) && t < |s.topics| && !s.topics[t].pipe && i < |s.topics[t].subs| && ReaderLaw(s.topics[t])
    ensures |c.topics[t].subs| == |s.topics[t].subs|
    ensures c.topics[t].subs[i].cursor != NIL <==> HasNext(s.topics[t], i)
    ensures HasNext(s.topics[t], i) ==>
      var p := s.topics[t].subs[i].cur - s.topics[t].Base(); var m := s.topics[t].queue[p];
      && m.chain != [] && c.topics[t].subs[i].cursor == m.chain[0] < |c.desc|
      && HeaderRep(c.desc[m.chain[0]], m, LinkOf(s.topics[t].queue, p + 1))
      && m.seqno == s.topics[t].subs[i].cur && m.refs > 0
      && BlocksFor(c.blockSize, m.len) == |m.chain|
  {
    var x := s.topics[t];
    assert TopicRep(c.desc, c.blockSize, c.topics[t], x);
    var p := x.subs[i].cur - x.Base();
    if HasNext(x, i) {
      assert MsgRep(c.desc, c.blockSize, x.queue, p) && MsgLaw(x, p);
    }
  }

  // --- Linking a message -------------------------------------------------------------------------

  lemma LinkQueue(c: Mem, d: Mem, q: seq<Msg>, m: Msg)
    requires QueueRep(c.desc, c.blockSize, q) && d.blockSize == c.blockSize >= HDR_SIZE
    requires m.chain != [] && Chained(c.desc, m.chain, IN_USE) && HeaderRep(c.desc[m.chain[0]], m, NIL)
    requires BlocksFor(c.blockSize, m.len) == |m.chain|
    requires q != [] ==> q[|q| - 1].chain[0] < |c.desc|
    requires d.desc == if q == [] then c.desc else
      c.desc[q[|q| - 1].chain[0] := c.desc[q[|q| - 1].chain[0]].(link := m.chain[0])]
    requires forall j :: 0 <= j < |q| - 1 ==> q[j].chain[0] != q[|q| - 1].chain[0]
    requires q != [] ==> m.chain[0] != q[|q| - 1].chain[0]
    ensures QueueRep(d.desc, d.blockSize, q + [m])
  {
    var q' := q + [m];
    forall i | 0 <= i < |q'| ensures MsgRep(d.desc, d.blockSize, q', i) {
      if i < |q| {
        assert MsgRep(c.desc, c.blockSize, q, i) && q'[i] == q[i];
      }
    }
  }

  /** The record of a topic after link_msg. */
  ghost function LinkedRec(r: Rec, msg: nat, n: nat): Rec {
    r.(head := if r.tail != NIL then r.head else msg, tail := msg, blocks := r.blocks + n,
       nextSeq := r.nextSeq + 1, subs := MoveCursors(r.subs, NIL, msg, |r.subs|))
  }

  lemma HeadersKeep(c: Mem, d: Mem, x: Topic, l: seq<Block>, used: nat)
    requires HeadersOnly(c, d, x) && Chained(c.desc, l, used)
    ensures Chained(d.desc, l, used)
  {
  }

  lemma LinkTopic(c: Mem, d: Mem, r: Rec, x: Topic, y: Topic, chain: seq<Block>, len: nat, data: seq<Bytes>)
    requires TopicRep(c.desc, c.blockSize, r, x) && !x.pipe && ReaderLaw(x) && c.blockSize >= HDR_SIZE
    requires y == Linked(x, chain, len, data) && chain != []
    requires QueueRep(d.desc, d.blockSize, y.queue) && HeadersOnly(c, d, x)
    requires forall j :: 0 <= j < |x.queue| ==> x.queue[j].chain[0] != NIL
    requires chain[0] != NIL
    ensures TopicRep(d.desc, d.blockSize, LinkedRec(r, chain[0], |chain|), y)
  {
    hide Chained, QueueRep;
    HeadersKeep(c, d, x, x.stash, STASHED);
    var q := LinkedRec(r, chain[0], |chain|);
    var m := y.queue[|x.queue|];
    AppendQueue(x.queue, m);
    forall i | 0 <= i < |x.subs|
      ensures q.subs[i].cursor == CursorOf(y, y.subs[i])
      ensures q.subs[i].peeked == (if y.subs[i].peeked then q.subs[i].cursor else NIL)
    {
      assert CursorLaw(x, x.subs[i]);
    }
    assert SubsRep(q, y);
    assert EndsRep(q, y);
    assert LooseRep(d.desc, y);
  }

  lemma LinkRep(c: Mem, s: State, t: nat, chain: seq<Block>, len: nat, d: Mem, s': State)
    requires Rep(c, s) && Books(s) && CanLink(s, t, chain) && !s.topics[t].pipe && ReaderLaw(s.topics[t])
    requires s.topics[t].subs != [] && s' == Link(s, t, chain, len)
    requires Chained(c.desc, chain, IN_USE) && BlocksFor(c.blockSize, len) == |chain|
    requires HeaderRep(c.desc[chain[0]], Msg(chain, |s.topics[t].log|, len, |s.topics[t].subs|, 0), NIL)
    requires var r := c.topics[t]; r.tail != NIL ==> r.tail < |c.desc|
    requires d == c.(desc := if c.topics[t].tail != NIL
                             then c.desc[c.topics[t].tail := c.desc[c.topics[t].tail].(link := chain[0])] else c.desc,
                     topics := c.topics[t := LinkedRec(c.topics[t], chain[0], |chain|)])
    ensures Rep(d, s')
  {
    hide OnePlace, TopicBooks, ReaderLaw, Chained;
    var x, r := s.topics[t], c.topics[t];
    var m := Msg(chain, |x.log|, len, |x.subs|, 0);
    assert TopicRep(c.desc, c.blockSize, r, x);
    TailFacts(c, s, t, chain[0]);
    LinkQueue(c, d, x.queue, m);
    LinkTopic(c, d, r, x, s'.topics[t], chain, len, Data(s, chain));
    TopicStep(c, d, s, s', t);
  }

  /** The tail of a queue is its own block, and not the new message. */
  lemma TailFacts(c: Mem, s: State, t: nat, b: Block)
    requires Rep(c, s) && Books(s) && t < |s.topics| && !s.topics[t].pipe && b in s.topics[t].loose
    ensures var q := s.topics[t].queue;
      && b != NIL && (c.topics[t].tail == NIL <==> q == [])
      && (forall j :: 0 <= j < |q| ==> q[j].chain != [] && q[j].chain[0] < |c.desc| && q[j].chain[0] != NIL)
      && (q != [] ==>
            && c.topics[t].tail == q[|q| - 1].chain[0] != b
            && InQueue(q, q[|q| - 1].chain[0]) > 0
            && forall j :: 0 <= j < |q| - 1 ==> q[j].chain[0] != q[|q| - 1].chain[0])
  {
    hide OnePlace, TopicBooks, Chained, LooseRep, SubsRep;
    var x := s.topics[t];
    var q := x.queue;
    assert TopicRep(c.desc, c.blockSize, c.topics[t], x);
    assert InTopic(x, b) >= 1;
    Apart(s, t, b);
    forall j | 0 <= j < |q| ensures q[j].chain[0] < |c.desc| { assert MsgRep(c.desc, c.blockSize, q, j); }
    if q != [] {
      var k := |q| - 1;
      PartOfQueue(q, k);
      assert Occurs(q[k].chain, q[k].chain[0]) >= 1;
      forall j | 0 <= j < k ensures q[j].chain[0] != q[k].chain[0] { HeadsDiffer(s, t, j, k); }
    }
  }
}
