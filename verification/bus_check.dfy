/** v_bus_check and topics_ok: the bus's own consistency check, proved to pass. In every state
    that represents a bus whose invariant holds, it passes exactly when no block is in transit
    between two critical sections. */
module BusCheck {
  import opened Lists
  import opened Modular
  import opened BusState
  import opened BusOps
  import opened BusLoans
  import opened BusReaders
  import opened BusDelivery
  import opened BusRuns
  import opened BusRep
  import opened BusQueueRep
  import opened BusReaderRep
  import opened BusMarks

  /** Nobody is between allocating and linking, or between unlinking and freeing. */
  ghost predicate Quiet(s: State) {
    forall t :: 0 <= t < |s.topics| ==> s.topics[t].loose == s.topics[t].tickets
  }

  // --- Lists --------------------------------------------------------------------------------------

  lemma SuffixChained(desc: seq<Desc>, l: seq<Block>, used: nat, n: nat)
    requires Chained(desc, l, used) && n < |l|
    ensures l[n..] != [] && l[n..][0] == l[n] < |desc| && desc[l[n]].used == used && desc[l[n]].next == HeadOf(l[n + 1..])
  {
    assert desc[l[n]].next == NextIn(l, n);
  }

  /** Follow `next` from `head`, checking range and mark, for at most `limit` blocks. */
  method Walk(c: Mem, head: nat, used: nat, limit: nat, ghost l: seq<Block>) returns (ok: bool, n: nat)
    requires Chained(c.desc, l, used) && head == HeadOf(l) && |l| <= limit && |c.desc| < NIL
    ensures ok && n == |l|
  {
    hide Chained;
    var i := head;
    ok, n := true, 0;
    assert l[0..] == l;
    while i != NIL && ok
      invariant ok && n <= |l| && i == HeadOf(l[n..])
      decreases |l| - n
    {
      SuffixChained(c.desc, l, used, n);
      ok := i < |c.desc| && c.desc[i].used == used && n < limit;
      if ok { n, i := n + 1, c.desc[i].next; }
    }
    if n < |l| {
      SuffixChained(c.desc, l, used, n);
      assert false;
    }
  }

  // --- Marks --------------------------------------------------------------------------------------

  ghost function Marked(desc: seq<Desc>, mark: nat, n: nat): set<nat>
    requires n <= |desc|
  {
    set k: nat | k < n && desc[k].used == mark
  }

  lemma MarkedMore(desc: seq<Desc>, mark: nat, n: nat)
    requires n < |desc|
    ensures |Marked(desc, mark, n + 1)| == |Marked(desc, mark, n)| + if desc[n].used == mark then 1 else 0
  {
    assert Marked(desc, mark, n + 1) == Marked(desc, mark, n) + if desc[n].used == mark then {n} else {};
  }

  ghost function AllTickets(ts: seq<Topic>): set<Block> {
    if ts == [] then {} else ts[0].tickets + AllTickets(ts[1..])
  }

  ghost function SumTickets(ts: seq<Topic>): nat {
    if ts == [] then 0 else |ts[0].tickets| + SumTickets(ts[1..])
  }

  ghost function SumLoose(ts: seq<Topic>): nat {
    if ts == [] then 0 else |ts[0].loose| + SumLoose(ts[1..])
  }

  lemma {:induction false} InTickets(ts: seq<Topic>, b: Block)
    ensures b in AllTickets(ts) <==> exists t :: 0 <= t < |ts| && b in ts[t].tickets
  {
    if ts != [] {
      InTickets(ts[1..], b);
      if exists t :: 0 <= t < |ts| && b in ts[t].tickets {
        var t :| 0 <= t < |ts| && b in ts[t].tickets;
        if t > 0 { assert ts[1..][t - 1] == ts[t]; }
      }
      if u :| 0 <= u < |ts[1..]| && b in ts[1..][u].tickets { assert b in ts[u + 1].tickets; }
    }
  }

  lemma {:induction false} TicketsAdd(ts: seq<Topic>)
    requires forall t, u :: 0 <= t < u < |ts| ==> ts[t].tickets !! ts[u].tickets
    ensures |AllTickets(ts)| == SumTickets(ts)
  {
    if ts != [] {
      TicketsAdd(ts[1..]);
      forall b | b in ts[0].tickets ensures b !in AllTickets(ts[1..]) { InTickets(ts[1..], b); }
    }
  }

  lemma TicketsApart(s: State, t: nat, u: nat)
    requires Books(s) && t < u < |s.topics|
    ensures s.topics[t].tickets !! s.topics[u].tickets
  {
    TicketIsLoose(s, t);
    TicketIsLoose(s, u);
    forall b | b in s.topics[t].tickets ensures b !in s.topics[u].tickets {
      assert b in s.topics[t].loose && InTopic(s.topics[t], b) >= 1;
      Apart(s, t, b);
      assert InTopic(s.topics[u], b) == 0;
    }
  }

  lemma MarksCounted(c: Mem, s: State)
    requires Rep(c, s) && Books(s)
    ensures |Marked(c.desc, FREE, |c.desc|)| == |s.pool|
    ensures |Marked(c.desc, RESERVED, |c.desc|)| == SumTickets(s.topics)
  {
    hide TopicRep, TopicBooks, Chained;
    PoolDistinct(s);
    DistinctSize(s.pool);
    forall b: nat ensures b in Marked(c.desc, FREE, |c.desc|) <==> b in Elems(s.pool) {
      if b < |c.desc| { Marks(c, s, b); } else if b in s.pool { PoolApart(s, b); }
    }
    assert Marked(c.desc, FREE, |c.desc|) == Elems(s.pool);
    forall t, u | 0 <= t < u < |s.topics| ensures s.topics[t].tickets !! s.topics[u].tickets { TicketsApart(s, t, u); }
    TicketsAdd(s.topics);
    forall b: nat ensures b in Marked(c.desc, RESERVED, |c.desc|) <==> b in AllTickets(s.topics) {
      InTickets(s.topics, b);
      if b < |c.desc| {
        Marks(c, s, b);
      } else if exists t :: 0 <= t < |s.topics| && b in s.topics[t].tickets {
        var t :| 0 <= t < |s.topics| && b in s.topics[t].tickets;
        TicketMark(c, s, t, b);
        assert false;
      }
    }
    assert Marked(c.desc, RESERVED, |c.desc|) == AllTickets(s.topics);
  }

  /** The counts over `desc[].used`: blocks not free, and open tickets. */
  method CountMarks(c: Mem, ghost s: State) returns (used: nat, reserved: nat)
    requires Rep(c, s) && Books(s)
    ensures used + |s.pool| == |c.desc| && reserved == SumTickets(s.topics)
  {
    hide Rep, Books, Marked;
    var i := 0;
    used, reserved := 0, 0;
    NothingMarked(c.desc);
    while i < |c.desc|
      invariant i <= |c.desc| && used + |Marked(c.desc, FREE, i)| == i && reserved == |Marked(c.desc, RESERVED, i)|
    {
      MarkedMore(c.desc, FREE, i);
      MarkedMore(c.desc, RESERVED, i);
      if c.desc[i].used != FREE { used := used + 1; }
      if c.desc[i].used == RESERVED { reserved := reserved + 1; }
      i := i + 1;
    }
    MarksCounted(c, s);
  }

  lemma NothingMarked(desc: seq<Desc>)
    ensures Marked(desc, FREE, 0) == {} && Marked(desc, RESERVED, 0) == {}
  {
  }

  // --- Queues -------------------------------------------------------------------------------------

  /** Messages are linked from the oldest to the newest, each owed to a reader, each with exactly
      the blocks its length calls for; together they are what the topic counts. */
  method CheckQueue(c: Mem, r: Rec, ghost x: Topic) returns (ok: bool)
    requires TopicRep(c.desc, c.blockSize, r, x) && !x.pipe && ReaderLaw(x) && |x.queue| <= |c.desc| < NIL && HDR_SIZE <= c.blockSize
    ensures ok
  {
    hide Chained, LooseRep, SubsRep, QueueRep, MsgRep, ReaderLaw, RingRep, BlocksFor;
    ghost var q := x.queue;
    var m, last, n, blocks := r.head, NIL, 0, 0;
    ok := true;
    while m != NIL && ok
      invariant ok && n <= |q| && m == LinkOf(q, n) && blocks + QueueLen(q[n..]) == QueueLen(q)
      invariant last == if n == 0 then NIL else q[n - 1].chain[0]
      decreases |q| - n
    {
      if n == |q| { assert false; }
      MsgAt(c, x, n);
      ok := m < |c.desc| && c.desc[m].used != FREE && c.desc[m].refs != 0 && n < |c.desc|;
      if ok {
        var want := BlocksFor(c.blockSize, c.desc[m].len);
        var got;
        ok, got := Walk(c, m, IN_USE, want, q[n].chain);
        ok := ok && got == want;
        blocks := blocks + want;
        last := m;
        m := c.desc[m].link;
        n := n + 1;
      }
    }
    if n < |q| {
      MsgAt(c, x, n);
      assert false;
    }
    assert q[n..] == [];
    if n > 0 {
      MsgAt(c, x, 0);
      MsgAt(c, x, n - 1);
    }
    ok := (r.head == NIL) == (r.tail == NIL) && last == r.tail && blocks == r.blocks;
  }

  lemma MsgAt(c: Mem, x: Topic, n: nat)
    requires QueueRep(c.desc, c.blockSize, x.queue) && ReaderLaw(x) && n < |x.queue| && |c.desc| < NIL && HDR_SIZE <= c.blockSize
    ensures var q := x.queue; var m := q[n];
      && m.chain != [] && Chained(c.desc, m.chain, IN_USE) && LinkOf(q, n) == m.chain[0] < |c.desc| && LinkOf(q, n) != NIL
      && c.desc[m.chain[0]].used == IN_USE && c.desc[m.chain[0]].refs > 0 && c.desc[m.chain[0]].pins == m.pins
      && c.desc[m.chain[0]].link == LinkOf(q, n + 1) && BlocksFor(c.blockSize, c.desc[m.chain[0]].len) == |m.chain|
      && QueueLen(q[n..]) == |m.chain| + QueueLen(q[n + 1..])
  {
    assert MsgRep(c.desc, c.blockSize, x.queue, n) && MsgLaw(x, n);
    assert x.queue[n..][1..] == x.queue[n + 1..];
  }

  // --- Readers and pins ---------------------------------------------------------------------------

  ghost function SumPins(q: seq<Msg>): nat {
    if q == [] then 0 else SumPins(q[..|q| - 1]) + q[|q| - 1].pins
  }

  ghost function Peeks(subs: seq<Sub>): nat {
    if subs == [] then 0 else Peeks(subs[..|subs| - 1]) + if subs[|subs| - 1].peeked then 1 else 0
  }

  /** Readers that peek at one of the n messages from number k on. */
  ghost function PeekingIn(subs: seq<Sub>, k: int, n: nat): nat {
    if n == 0 then 0 else PeekingIn(subs, k, n - 1) + Peeking(subs, k + n - 1)
  }

  lemma {:induction false} PinsArePeeks(x: Topic, n: nat)
    requires ReaderLaw(x) && n <= |x.queue|
    ensures SumPins(x.queue[..n]) == PeekingIn(x.subs, x.Base(), n)
  {
    if n > 0 {
      PinsArePeeks(x, n - 1);
      assert x.queue[..n][..n - 1] == x.queue[..n - 1];
      assert MsgLaw(x, n - 1);
    }
  }

  lemma {:induction false} PeekingSnoc(subs: seq<Sub>, u: Sub, k: int)
    ensures Peeking(subs + [u], k) == Peeking(subs, k) + if u.peeked && u.cur == k then 1 else 0
  {
    if subs == [] {
      assert subs + [u] == [u];
    } else {
      PeekingSnoc(subs[1..], u, k);
      assert (subs + [u])[1..] == subs[1..] + [u];
    }
  }

  lemma {:induction false} PeekingInSnoc(subs: seq<Sub>, u: Sub, k: int, n: nat)
    ensures PeekingIn(subs + [u], k, n) == PeekingIn(subs, k, n) + if u.peeked && k <= u.cur < k + n then 1 else 0
  {
    if n > 0 {
      PeekingInSnoc(subs, u, k, n - 1);
      PeekingSnoc(subs, u, k + n - 1);
    }
  }

  lemma {:induction false} NoneIn(k: int, n: nat)
    ensures PeekingIn([], k, n) == 0
  {
    if n > 0 { NoneIn(k, n - 1); }
  }

  /** Counting peeks message by message or reader by reader is the same. */
  lemma {:induction false} CountBothWays(x: Topic, n: nat)
    requires ReaderLaw(x) && n <= |x.subs|
    ensures PeekingIn(x.subs[..n], x.Base(), |x.queue|) == Peeks(x.subs[..n])
  {
    if n == 0 {
      NoneIn(x.Base(), |x.queue|);
    } else {
      CountBothWays(x, n - 1);
      assert x.subs[..n][..n - 1] == x.subs[..n - 1] && x.subs[..n] == x.subs[..n - 1] + [x.subs[n - 1]];
      PeekingInSnoc(x.subs[..n - 1], x.subs[n - 1], x.Base(), |x.queue|);
      assert CursorLaw(x, x.subs[n - 1]);
    }
  }

  lemma PinsMatch(x: Topic)
    requires ReaderLaw(x)
    ensures SumPins(x.queue) == Peeks(x.subs)
  {
    PinsArePeeks(x, |x.queue|);
    CountBothWays(x, |x.subs|);
    assert x.queue[..|x.queue|] == x.queue && x.subs[..|x.subs|] == x.subs;
  }

  /** Is block `cursor` one of the messages linked from `head` (or NIL, the end of them)? */
  method OnChain(c: Mem, r: Rec, cursor: nat, ghost x: Topic, ghost p: nat) returns (ok: bool)
    requires TopicRep(c.desc, c.blockSize, r, x) && !x.pipe && ReaderLaw(x) && |c.desc| < NIL && HDR_SIZE <= c.blockSize
    requires p <= |x.queue| && cursor == LinkOf(x.queue, p)
    ensures ok
  {
    hide Chained, LooseRep, SubsRep, QueueRep, MsgRep, ReaderLaw, RingRep, BlocksFor;
    var m := r.head;
    ghost var n := 0;
    while m != NIL && m != cursor
      invariant n <= p && m == LinkOf(x.queue, n)
      decreases |x.queue| - n
    {
      MsgAt(c, x, n);
      m := c.desc[m].link;
      n := n + 1;
    }
    if n < |x.queue| { MsgAt(c, x, n); }
    ok := m == cursor;
  }

  lemma SubAt(c: Mem, r: Rec, x: Topic, i: nat)
    requires TopicRep(c.desc, c.blockSize, r, x) && !x.pipe && ReaderLaw(x) && i < |x.subs| && |c.desc| < NIL && HDR_SIZE <= c.blockSize
    ensures |r.subs| == |x.subs|
    ensures var p := x.subs[i].cur - x.Base(); var u := r.subs[i];
      && 0 <= p <= |x.queue| && (forall j :: 0 <= j < |x.queue| ==> x.queue[j].chain != []) && u.cursor == LinkOf(x.queue, p)
      && (x.subs[i].peeked ==> u.peeked == u.cursor != NIL && u.peeked < |c.desc| && c.desc[u.peeked].pins > 0)
      && (!x.subs[i].peeked ==> u.peeked == NIL)
  {
    hide Chained, LooseRep, QueueRep, MsgRep, RingRep, BlocksFor;
    assert CursorLaw(x, x.subs[i]);
    var p := x.subs[i].cur - x.Base();
    assert EndsRep(r, x) && SubsRep(r, x);
    if p < |x.queue| {
      MsgAt(c, x, p);
      assert MsgLaw(x, p);
      Counted(x.subs, i, x.queue[p].seqno);
    }
  }

  /** Every cursor points into the queue, every peek sits on its cursor, and pins are peeks. */
  method CheckReaders(c: Mem, r: Rec, ghost x: Topic) returns (ok: bool)
    requires TopicRep(c.desc, c.blockSize, r, x) && !x.pipe && ReaderLaw(x) && |c.desc| < NIL && HDR_SIZE <= c.blockSize
    ensures ok
  {
    hide Chained, LooseRep, SubsRep, QueueRep, MsgRep, ReaderLaw, RingRep, BlocksFor;
    var i, peeks, pins, m := 0, 0, 0, r.head;
    ok := true;
    assert |r.subs| == |x.subs| by { SubCount(r, x); }
    assert x.subs[..0] == [];
    while i < |r.subs| && ok
      invariant ok && i <= |r.subs| && peeks == Peeks(x.subs[..i])
    {
      SubAt(c, r, x, i);
      assert x.subs[..i + 1][..i] == x.subs[..i];
      var u := r.subs[i];
      ok := OnChain(c, r, u.cursor, x, x.subs[i].cur - x.Base());
      if u.peeked != NIL {
        ok := ok && u.peeked == u.cursor && c.desc[u.peeked].pins != 0;
        peeks := peeks + 1;
      }
      i := i + 1;
    }
    assert x.subs[..i] == x.subs;
    ghost var n := 0;
    assert x.queue[..0] == [];
    while m != NIL
      invariant n <= |x.queue| && m == LinkOf(x.queue, n) && pins == SumPins(x.queue[..n])
      decreases |x.queue| - n
    {
      MsgAt(c, x, n);
      assert x.queue[..n + 1][..n] == x.queue[..n];
      pins := pins + c.desc[m].pins;
      m := c.desc[m].link;
      n := n + 1;
    }
    if n < |x.queue| {
      MsgAt(c, x, n);
      assert false;
    }
    assert x.queue[..n] == x.queue;
    PinsMatch(x);
    ok := pins == peeks;
  }

  lemma SubCount(r: Rec, x: Topic)
    requires SubsRep(r, x)
    ensures |r.subs| == |x.subs|
  {
  }

  // --- Rings --------------------------------------------------------------------------------------

  /** Position k slots after position i on a ring of n. */
  ghost function Ahead(n: nat, i: nat, k: nat): (r: nat)
    requires i < n && k <= n
    ensures r < n
  {
    if i + k < n then i + k else i + k - n
  }

  /** A reader e - w behind the writer is that far ahead of it going round the ring. */
  lemma RoundTheRing(n: nat, w: nat, e: nat)
    requires n > 0 && e <= w
    ensures var d := (n - (w - e) % n) % n; d < n && Ahead(n, w % n, d) == e % n
  {
    var a, b := w / n, e / n;
    var w0, e0 := w % n, e % n;
    assert w == n * a + w0 && e == n * b + e0;
    if w0 >= e0 {
      assert w - e == n * (a - b) + (w0 - e0);
      DivMod(w - e, n, a - b, w0 - e0);
      if w0 == e0 { DivMod(n, n, 1, 0); } else { DivMod(n - (w0 - e0), n, 0, n - (w0 - e0)); }
    } else {
      assert w - e == n * (a - b - 1) + (w0 - e0 + n);
      DivMod(w - e, n, a - b - 1, w0 - e0 + n);
      DivMod(e0 - w0, n, 0, e0 - w0);
    }
  }

  lemma RingAt(desc: seq<Desc>, l: seq<Block>, i: nat, k: nat)
    requires RingRep(desc, l) && i < |l| && k < |l|
    ensures var b := l[Ahead(|l|, i, k)];
      b < |desc| && desc[b].used == PIPE_SLOT && desc[b].next == l[Ahead(|l|, i, k + 1)]
  {
    var j := Ahead(|l|, i, k);
    assert l[j] < |desc|;
  }

  /** The ring is closed after exactly `reserve` slots. */
  method CheckRing(c: Mem, r: Rec, ghost x: Topic) returns (ok: bool, n: nat)
    requires TopicRep(c.desc, c.blockSize, r, x) && x.pipe && Distinct(x.ring) && |x.ring| == x.reserve > 0
    ensures ok && n == |x.ring|
  {
    hide Chained, LooseRep, QueueRep, RingRep;
    ghost var l := x.ring;
    ghost var w := r.nextSeq % |l|;
    var i := r.pipeWr;
    RingAt(c.desc, l, w, 0);
    ok := i < |c.desc| && c.desc[i].used == PIPE_SLOT && 1 <= r.reserve;
    i, n := c.desc[i].next, 1;
    while i != r.pipeWr && ok
      invariant ok && 1 <= n <= |l| && i == l[Ahead(|l|, w, n)]
      decreases |l| - n
    {
      RingAt(c.desc, l, w, n);
      ok := i < |c.desc| && c.desc[i].used == PIPE_SLOT && n + 1 <= r.reserve;
      if ok { i, n := c.desc[i].next, n + 1; }
    }
  }

  /** The reader is never ahead of the writer, at most a ring behind it on a pipe that drops, and
      its cursor is exactly as far round the ring as its number says. */
  method CheckPipeReader(c: Mem, r: Rec, n: nat, ghost x: Topic) returns (ok: bool)
    requires TopicRep(c.desc, c.blockSize, r, x) && x.pipe && Distinct(x.ring) && |x.ring| == x.reserve == n > 0 && r.subs != []
    ensures ok
  {
    hide Chained, LooseRep, QueueRep, RingRep;
    ghost var l := x.ring;
    var u := r.subs[0];
    ghost var w, d := r.nextSeq % n, (n - (r.nextSeq - u.awaits) % n) % n;
    RoundTheRing(n, r.nextSeq, u.awaits);
    ok := u.awaits <= r.nextSeq && (r.overflow == Overwrite || r.nextSeq - u.awaits <= n);
    var behind := r.nextSeq - u.awaits;
    var i, m := r.pipeWr, 0;
    while i != u.cursor && m + 1 < n
      invariant m <= d && i == l[Ahead(n, w, m)]
      decreases n - m
    {
      RingAt(c.desc, l, w, m);
      i, m := c.desc[i].next, m + 1;
    }
    ok := ok && i == u.cursor && m == (n - behind % n) % n;
  }

  lemma RingDistinct(s: State, t: nat)
    requires OnePlace(s) && t < |s.topics|
    ensures Distinct(s.topics[t].ring)
  {
    var l := s.topics[t].ring;
    forall i, j | 0 <= i < j < |l| ensures l[i] != l[j] {
      Apart(s, t, l[i]);
      if l[i] == l[j] { OnceOnly(l, i, j); }
    }
  }

  method CheckPipe(c: Mem, r: Rec, ghost x: Topic) returns (ok: bool)
    requires TopicRep(c.desc, c.blockSize, r, x) && x.pipe && TopicBooks(x) && Distinct(x.ring)
    ensures ok && r.reserve == |x.ring|
  {
    hide Chained, LooseRep, QueueRep, RingRep, Distinct;
    var n;
    ok, n := CheckRing(c, r, x);
    ok := ok && n == r.reserve && r.blocks == n && r.stashCount == 0 && r.lent == 0 && r.borrowed == 0
       && |r.subs| <= 1 && r.head == NIL;
    if r.subs != [] {
      var also := CheckPipeReader(c, r, n, x);
      ok := ok && also;
    }
  }

  method CheckTopic(c: Mem, r: Rec, ghost x: Topic) returns (ok: bool)
    requires TopicRep(c.desc, c.blockSize, r, x) && TopicBooks(x) && !x.pipe && ReaderLaw(x)
    requires |x.queue| <= |c.desc| < NIL && HDR_SIZE <= c.blockSize
    ensures ok && r.stashCount + r.blocks == |x.stash| + QueueLen(x.queue)
  {
    hide Chained, LooseRep, QueueRep, RingRep, Distinct, ReaderLaw, EndsRep, SubsRep;
    var k;
    ok, k := Walk(c, r.stash, STASHED, r.stashCount, x.stash);
    ok := ok && k == r.stashCount && r.stashCount + r.lent <= r.reserve;
    var queueOk := CheckQueue(c, r, x);
    var readersOk := CheckReaders(c, r, x);
    ok := ok && queueOk && readersOk;
  }

  // --- Everything is somewhere --------------------------------------------------------------------

  /** Blocks of a topic that the check finds on its lists. */
  ghost function Listed(x: Topic): nat { |x.stash| + QueueLen(x.queue) + |x.ring| }

  ghost function SumListed(ts: seq<Topic>): nat {
    if ts == [] then 0 else Listed(ts[0]) + SumListed(ts[1..])
  }

  lemma {:induction false} SizeSplits(ts: seq<Topic>)
    ensures SumSize(ts) == SumListed(ts) + SumLoose(ts)
  {
    if ts != [] { SizeSplits(ts[1..]); }
  }

  lemma {:induction false} TicketsWithin(ts: seq<Topic>)
    requires forall t :: 0 <= t < |ts| ==> ts[t].tickets <= ts[t].loose
    ensures SumTickets(ts) <= SumLoose(ts)
    ensures SumTickets(ts) == SumLoose(ts) <==> forall t :: 0 <= t < |ts| ==> ts[t].loose == ts[t].tickets
  {
    if ts != [] {
      var x := ts[0];
      TicketsWithin(ts[1..]);
      assert x.loose == x.tickets + (x.loose - x.tickets);
      if x.loose == x.tickets && SumTickets(ts) == SumLoose(ts) {
        forall t | 0 <= t < |ts| ensures ts[t].loose == ts[t].tickets {
          if t > 0 { assert ts[t] == ts[1..][t - 1]; }
        }
      }
      if forall t :: 0 <= t < |ts| ==> ts[t].loose == ts[t].tickets {
        forall t | 0 <= t < |ts[1..]| ensures ts[1..][t].loose == ts[1..][t].tickets { assert ts[1..][t] == ts[t + 1]; }
      }
    }
  }

  lemma AllAccounted(s: State)
    requires Books(s)
    ensures |s.pool| + SumTickets(s.topics) + SumListed(s.topics) == |s.epoch| <==> Quiet(s)
  {
    SizeSplits(s.topics);
    forall t | 0 <= t < |s.topics| ensures s.topics[t].tickets <= s.topics[t].loose { TicketIsLoose(s, t); }
    TicketsWithin(s.topics);
  }

  /** A topic's queue is no longer than the pool. */
  lemma QueueFits(c: Mem, s: State, t: nat)
    requires Rep(c, s) && Inv(s) && t < |s.topics|
    ensures |c.topics| == |s.topics| && |s.topics[t].queue| <= |c.desc| < NIL && HDR_SIZE <= c.blockSize
    ensures TopicRep(c.desc, c.blockSize, c.topics[t], s.topics[t]) && TopicBooks(s.topics[t]) && Distinct(s.topics[t].ring)
    ensures ReaderLaw(s.topics[t])
  {
    hide TopicRep, OnePlace, TopicBooks;
    RingDistinct(s, t);
    assert TopicLaw(s, s.topics[t]);
    forall i | 0 <= i < |s.topics[t].queue| ensures s.topics[t].queue[i].chain != [] { assert MsgLaw(s.topics[t], i); }
    LongQueue(s.topics[t].queue);
    PartOfTotal(s.topics, t);
  }

  lemma {:induction false} LongQueue(q: seq<Msg>)
    requires forall i :: 0 <= i < |q| ==> q[i].chain != []
    ensures |q| <= QueueLen(q)
  {
    if q != [] { LongQueue(q[1..]); }
  }

  lemma {:induction false} PartOfTotal(ts: seq<Topic>, t: nat)
    requires t < |ts|
    ensures QueueLen(ts[t].queue) <= SumSize(ts)
  {
    if t > 0 { PartOfTotal(ts[1..], t - 1); }
  }

  /** topics_ok: every topic passes, the loans balance, and, unless something is in transit,
      every block is accounted for. */
  method TopicsOk(c: Mem, reserved: nat, ghost s: State) returns (ok: bool)
    requires Rep(c, s) && Inv(s) && reserved == SumTickets(s.topics)
    ensures ok <==> Quiet(s)
  {
    hide Rep, Books, Laws, TopicRep, TopicBooks, ReaderLaw, Distinct, Quiet;
    RepCounts(c, s);
    var lent, borrowed, accounted := 0, 0, c.freeCount + reserved;
    var k := |c.topics|;
    ok := true;
    assert s.topics[k..] == [];
    while k > 0 && ok
      invariant ok && 0 <= k <= |c.topics| == |s.topics|
      invariant lent == SumLent(s.topics[k..]) && borrowed == SumBorrowed(s.topics[k..])
      invariant accounted == |s.pool| + reserved + SumListed(s.topics[k..])
      decreases k
    {
      k := k - 1;
      QueueFits(c, s, k);
      TopicCounts(c, s, k);
      assert s.topics[k..][1..] == s.topics[k + 1..];
      var r := c.topics[k];
      if r.pipe {
        ok := CheckPipe(c, r, s.topics[k]);
        accounted := accounted + r.reserve;
      } else {
        ok := CheckTopic(c, r, s.topics[k]);
        lent, borrowed := lent + r.lent, borrowed + r.borrowed;
        accounted := accounted + r.stashCount + r.blocks;
      }
    }
    assert s.topics[0..] == s.topics;
    AllAccounted(s);
    ok := lent == borrowed && accounted == |c.desc|;
  }

  lemma RepCounts(c: Mem, s: State)
    requires Rep(c, s) && Books(s)
    ensures |c.topics| == |s.topics| && c.freeCount == |s.pool| && |c.desc| == |s.epoch| && SumLent(s.topics) == SumBorrowed(s.topics)
  {
  }

  lemma TopicCounts(c: Mem, s: State, t: nat)
    requires Rep(c, s) && Books(s) && t < |s.topics|
    ensures |c.topics| == |s.topics|
    ensures var r, x := c.topics[t], s.topics[t];
      && r.pipe == x.pipe && r.lent == x.lent && r.borrowed == x.borrowed
      && (x.pipe ==> x.stash == [] && x.queue == [] && x.lent == 0 && x.borrowed == 0)
      && (!x.pipe ==> x.ring == [])
  {
    RepOf(c, s, t);
    assert TopicBooks(s.topics[t]);
  }

  /** v_bus_check. */
  method Check(c: Mem, ghost s: State) returns (ok: bool)
    requires Rep(c, s) && Inv(s)
    ensures ok <==> Quiet(s)
  {
    hide Rep, Books, Laws, Quiet, Chained;
    RepPool(c, s);
    var onList;
    ok, onList := Walk(c, c.freeHead, FREE, |c.desc|, s.pool);
    var used, reserved := CountMarks(c, s);
    ok := ok && onList == c.freeCount && used == |c.desc| - c.freeCount;
    if ok { ok := TopicsOk(c, reserved, s); }
  }

  lemma RepPool(c: Mem, s: State)
    requires Rep(c, s) && Books(s)
    ensures c.freeCount == |s.pool| <= |c.desc| < NIL && Chained(c.desc, s.pool, FREE) && c.freeHead == HeadOf(s.pool)
  {
  }
}
