/** The steps between the linked-list code and the abstract operations: what the code may rely on when
    it reads a field, and why each write leaves a represented bus behind. */
module BusFacts {
  import opened Lists
  import opened Modular
  import opened BusState
  import opened BusOps
  import opened BusLoans
  import opened BusAlloc
  import opened BusReaders
  import opened BusDelivery
  import opened BusRuns
  import opened BusRep
  import opened BusRouteRep
  import opened BusQueueRep
  import opened BusReaderRep
  import opened BusMarks
  import opened BusDeclareRep
  import opened BusAnswers
  import opened BusEffects
  import BusCheck

  /** A block that is in a topic's hands before and after is not written to in between. */
  ghost predicate HandsOff(desc: seq<Desc>, desc': seq<Desc>, s: State, s': State) {
    && |desc'| == |desc| && |s'.topics| == |s.topics|
    && forall t, k :: 0 <= t < |s.topics| && k in s.topics[t].loose && k in s'.topics[t].loose && k < |desc|
         ==> desc'[k] == desc[k]
  }

  lemma OneWrite(s: State, s': State, desc: seq<Desc>, b: Block, d: Desc)
    requires b < |desc| && |s'.topics| == |s.topics|
    requires forall t :: 0 <= t < |s.topics| ==> b !in s.topics[t].loose || b !in s'.topics[t].loose
    ensures HandsOff(desc, desc[b := d], s, s')
  {
  }

  lemma FreshHands(s: State, t: nat)
    requires Books(s) && t < |s.topics| && !s.topics[t].pipe && TakeOne(s, t).block.Some?
    ensures forall u :: 0 <= u < |s.topics| ==> TakeOne(s, t).block.value !in s.topics[u].loose
  {
    var x := s.topics[t];
    var b := TakeOne(s, t).block.value;
    if x.stash != [] {
      assert Occurs(x.stash, b) >= 1;
      Apart(s, t, b);
      TakeOneBooks(s, t);
    } else if s.pool != [] {
      PoolApart(s, b);
    } else {
      var l := Lender(s.topics, t, |s.topics|).value;
      assert Occurs(s.topics[l].stash, b) >= 1;
      Apart(s, l, b);
    }
  }

  /** What the code reads off a topic's record, in terms of the abstract topic. */
  lemma RecFacts(c: Mem, s: State, t: nat)
    requires Rep(c, s) && t < |c.topics|
    ensures |c.topics| == |s.topics| && FieldsRep(c.topics[t], s.topics[t])
    ensures c.freeCount == |s.pool| && |c.desc| == |s.epoch| < NIL
    ensures s.topics[t].stash != [] ==> c.topics[t].stash == s.topics[t].stash[0] < |c.desc|
    ensures s.pool != [] ==> c.freeHead == s.pool[0] < |c.desc|
  {
    assert TopicRep(c.desc, c.blockSize, c.topics[t], s.topics[t]);
  }

  /** take_one in full: which branch the code takes, and what it leaves behind. */
  lemma TakeOneFacts(c: Mem, s: State, t: nat)
    requires Rep(c, s) && Books(s) && t < |s.topics| && !s.topics[t].pipe
    ensures Books(BusOps.TakeOne(s, t).s) && BusOps.TakeOne(s, t).s.epoch == s.epoch && BusOps.TakeOne(s, t).s.cell == s.cell
    ensures |BusOps.TakeOne(s, t).s.topics| == |s.topics|
    ensures var b := BusOps.TakeOne(s, t).block;
      b.Some? ==> b.value < |c.desc| && forall u :: 0 <= u < |s.topics| ==> b.value !in s.topics[u].loose
    ensures s.topics[t].stash == [] && s.pool == [] && (s.topics[t].overflow.Drop? || Lender(s.topics, t, |s.topics|).None?)
            ==> BusOps.TakeOne(s, t) == Taken(s, None)
  {
    TakeOneBooks(s, t);
    TakeOneFrame(s, t);
    if BusOps.TakeOne(s, t).block.Some? { FreshHands(s, t); }
  }

  /** Whatever is in hand in s is still in hand in r. */
  ghost predicate Holding(s: State, r: State) {
    |r.topics| == |s.topics| && forall u :: 0 <= u < |s.topics| ==> s.topics[u].loose <= r.topics[u].loose
  }

  lemma HandsTrans(c: seq<Desc>, s: State, d: seq<Desc>, s1: State, e: seq<Desc>, s2: State)
    requires HandsOff(c, d, s, s1) && HandsOff(d, e, s1, s2) && Holding(s, s1)
    ensures HandsOff(c, e, s, s2)
  {
  }

  /** take_one keeps the reader laws and everybody's hands. */
  lemma TookOne(c: Mem, s: State, t: nat)
    requires Rep(c, s) && Books(s) && Laws(s) && t < |s.topics| && !s.topics[t].pipe
    ensures var r := BusOps.TakeOne(s, t);
      && Laws(r.s) && Holding(s, r.s) && r.s.topics[t].pipe == s.topics[t].pipe
      && (r.block.None? ==> r.s == s)
      && (r.block.Some? ==> TakeHard(s, t) == r)
  {
    TakeOneFrame(s, t);
    RoutedLaws(s, BusOps.TakeOne(s, t).s);
  }

  /** One more eviction in alloc_msg's loop: progress, and the same block in the end. */
  lemma EvictedOne(s: State, r: State, v: nat, t: nat)
    requires Books(s) && t < |s.topics| && NextVictim(s, t) == Some(v) && r == BusOps.Evict(s, v)
    requires BusOps.TakeOne(s, t) == Taken(s, None)
    ensures Holding(s, r) && r.topics[t].pipe == s.topics[t].pipe
    ensures SumQueued(r.topics) < SumQueued(s.topics) && TakeHard(s, t) == TakeHard(r, t)
  {
    hide Books, BusOps.Evict, Routed, Unlinked, BusOps.TakeOne, NextVictim;
    EvictShrinks(s, v);
    EvictBooks(s, v);
    EvictPipe(s, v, t);
  }

  lemma NoVictim(s: State, t: nat)
    requires t < |s.topics| && NextVictim(s, t).None? && BusOps.TakeOne(s, t) == Taken(s, None)
    ensures TakeHard(s, t) == Taken(s, None)
  {
  }

  /** A chain of blocks in use, threaded from its head. */
  ghost predicate Filled(desc: seq<Desc>, l: seq<Block>) {
    Threaded(desc, l) && forall i :: 0 <= i < |l| ==> desc[l[i]].used == IN_USE
  }

  lemma BlocksFact(c: Mem, s: State, t: nat)
    requires Rep(c, s) && t < |c.topics|
    ensures s.topics[t].overflow.Overwrite? && !s.topics[t].pipe ==> c.topics[t].blocks == QueueLen(s.topics[t].queue)
  {
    assert TopicRep(c.desc, c.blockSize, c.topics[t], s.topics[t]);
  }

  lemma StartBuilding(desc: seq<Desc>, s: State, t: nat)
    requires Books(s) && t < |s.topics|
    ensures Building(s.topics[t], [], s.topics[t].loose) && Holding(s, s) && Filled(desc, [])
  {
    assert Elems<Block>([]) == {};
    assert TopicBooks(s.topics[t]);
  }

  lemma AllDone(desc: seq<Desc>, s: State, t: nat, chain: seq<Block>)
    requires t < |s.topics| && chain != [] && Filled(desc, chain)
    ensures AllocLoop(s, t, 0, chain) == Allocated(s, Some(chain)) && HeadOf(chain) != NIL
  {
  }

  /** What the next round of the allocation loop will do. */
  lemma HardFacts(c: Mem, s: State, t: nat, chain: seq<Block>, mine: set<Block>, n: nat)
    requires Rep(c, s) && Books(s) && t < |s.topics| && !s.topics[t].pipe && n > 0
    requires Building(s.topics[t], chain, mine)
    ensures var r := TakeHard(s, t);
      && GotOne(s, r, t) && Holding(s, r.s) && Books(r.s) && !r.s.topics[t].pipe
      && (r.block.Some? ==> AllocLoop(s, t, n, chain) == AllocLoop(r.s, t, n - 1, [r.block.value] + chain))
      && (r.block.None? ==> AllocLoop(s, t, n, chain) == Allocated(BusOps.FreeChain(r.s, t, chain), None))
  {
    TakeHardBooks(s, t);
  }

  /** The chain built so far survives taking one more block. */
  lemma KeptChain(s: State, r: State, t: nat, chain: seq<Block>, mine: set<Block>, desc: seq<Desc>, desc': seq<Desc>, b: Block)
    requires t < |s.topics| && GotOne(s, Taken(r, Some(b)), t) && Building(s.topics[t], chain, mine)
    requires HandsOff(desc, desc', s, r) && Filled(desc, chain)
    ensures Filled(desc', chain) && b !in chain && b !in mine && b in r.topics[t].loose && b !in r.topics[t].tickets
    ensures Building(r.topics[t], [b] + chain, mine)
  {
    BuildOn(s, Taken(r, Some(b)), t, chain, mine);
    forall i | 0 <= i < |chain| ensures desc'[chain[i]] == desc[chain[i]] {
      assert chain[i] in s.topics[t].loose && chain[i] in r.topics[t].loose;
    }
  }

  lemma GaveBack(s: State, r: State, t: nat, chain: seq<Block>, mine: set<Block>, desc: seq<Desc>, desc': seq<Desc>)
    requires t < |s.topics| && GotOne(s, Taken(r, None), t) && Building(s.topics[t], chain, mine)
    requires HandsOff(desc, desc', s, r) && Filled(desc, chain)
    ensures Threaded(desc', chain) && InHand(r.topics[t], chain)
  {
    forall i | 0 <= i < |chain| ensures desc'[chain[i]] == desc[chain[i]] {
      assert chain[i] in s.topics[t].loose && chain[i] in r.topics[t].loose;
    }
  }

  lemma HoldingTrans(s: State, r: State, q: State)
    requires Holding(s, r) && Holding(r, q)
    ensures Holding(s, q)
  {
  }

  lemma FreedLaws(s: State, t: nat, chain: seq<Block>)
    requires Books(s) && Laws(s) && t < |s.topics| && InHand(s.topics[t], chain)
    ensures Laws(BusOps.FreeChain(s, t, chain))
  {
    FreeChainBooks(s, t, chain);
    RoutedLaws(s, BusOps.FreeChain(s, t, chain));
  }

  /** Writing to a block that only just came into hand. */
  lemma OwnWrite(c: seq<Desc>, s: State, d: seq<Desc>, r: State, t: nat, b: Block, v: Desc)
    requires HandsOff(c, d, s, r) && Books(r) && t < |r.topics| && b in r.topics[t].loose && b !in s.topics[t].loose && b < |d|
    ensures HandsOff(c, d[b := v], s, r)
  {
    LooseApart(r, t, b);
    forall u | 0 <= u < |r.topics| && u != t ensures b !in r.topics[u].loose {
      assert InTopic(r.topics[u], b) == 0;
    }
  }

  lemma FilledMore(desc: seq<Desc>, desc': seq<Desc>, chain: seq<Block>, b: Block)
    requires Filled(desc, chain) && b < |desc| && b != NIL && b !in chain
    requires desc' == desc[b := desc[b].(next := HeadOf(chain))] && desc[b].used == IN_USE
    ensures Filled(desc', [b] + chain)
  {
    var l := [b] + chain;
    forall i | 0 <= i < |l|
      ensures l[i] < |desc'| && l[i] != NIL && desc'[l[i]].next == NextIn(l, i) && desc'[l[i]].used == IN_USE
    {
      if i > 0 { assert l[i] == chain[i - 1]; }
      if i + 1 < |l| { assert l[i + 1] == chain[i]; }
    }
  }

  /** What link_msg reads and relies on. */
  lemma LinkFacts(c: Mem, s: State, t: nat, chain: seq<Block>)
    requires Rep(c, s) && Books(s) && t < |c.topics| && !s.topics[t].pipe && CanLink(s, t, chain)
    ensures |c.topics| == |s.topics| && c.topics[t].nextSeq == |s.topics[t].log| && |c.topics[t].subs| == |s.topics[t].subs|
    ensures chain != [] && chain[0] in s.topics[t].loose && chain[0] < |c.desc|
    ensures chain[0] in s.topics[t].tickets ==> chain[0] in Elems(chain)
    ensures c.topics[t].tail != NIL ==> c.topics[t].tail < |c.desc| && c.topics[t].tail != chain[0]
  {
    assert TopicRep(c.desc, c.blockSize, c.topics[t], s.topics[t]);
    LooseApart(s, t, chain[0]);
    TailFacts(c, s, t, chain[0]);
  }

  lemma FilledHeader(desc: seq<Desc>, desc': seq<Desc>, chain: seq<Block>, b: Block)
    requires Filled(desc, chain) && b < |desc| == |desc'|
    requires desc' == desc[b := desc'[b]] && desc'[b].next == desc[b].next && desc'[b].used == desc[b].used
    ensures Filled(desc', chain) && Chained(desc', chain, IN_USE)
  {
  }

  lemma FilledHead(desc: seq<Desc>, chain: seq<Block>)
    requires Filled(desc, chain) && chain != []
    ensures chain[0] < |desc| && desc[chain[0]].used == IN_USE
  {
  }

  lemma NobodyThere(s: State, t: nat, chain: seq<Block>, len: nat)
    requires CanLink(s, t, chain) && s.topics[t].subs == []
    ensures BusOps.Link(s, t, chain, len) == s
  {
  }

  lemma LinkedFacts(s: State, t: nat, chain: seq<Block>, len: nat)
    requires CanLink(s, t, chain)
    ensures var r := BusOps.Link(s, t, chain, len); |r.topics| == |s.topics| && r.epoch == s.epoch && r.cell == s.cell
  {
  }

  lemma LawOf(s: State, t: nat)
    requires Laws(s) && t < |s.topics|
    ensures TopicLaw(s, s.topics[t])
  {
  }

  lemma TakenHead(s: State, t: nat)
    requires t < |s.topics| && s.topics[t].queue != []
    ensures var r := BusOps.TakeHead(s, t);
      |r.topics| == |s.topics| && r.epoch == s.epoch && r.cell == s.cell && r.topics[t] == HeadTaken(s.topics[t])
  {
  }

  /** What evict_oldest reads before it acts. */
  lemma QueueFacts(c: Mem, s: State, t: nat)
    requires Rep(c, s) && t < |c.topics| && !s.topics[t].pipe
    ensures c.topics[t].head == NIL <==> s.topics[t].queue == []
    ensures s.topics[t].queue != [] ==> c.topics[t].head < |c.desc| && c.desc[c.topics[t].head].pins == s.topics[t].queue[0].pins
  {
    assert TopicRep(c.desc, c.blockSize, c.topics[t], s.topics[t]);
    if s.topics[t].queue != [] { assert MsgRep(c.desc, c.blockSize, s.topics[t].queue, 0); }
  }

  lemma SkipFacts(s: State, t: nat)
    requires Books(s) && CanEvict(s, t) && ReaderLaw(s.topics[t])
    ensures var s1 := Put(s, t, Skipped(s.topics[t]));
      && Books(s1) && s1.topics[t].queue == s.topics[t].queue && NobodyAtHead(s1.topics[t])
      && BusOps.TakeHead(s1, t) == Unlinked(s, t)
  {
    var x := s.topics[t];
    SameBlocks(s, Put(s, t, Skipped(x)), t);
    assert MsgLaw(x, 0);
  }

  lemma EvictHands(desc: seq<Desc>, desc': seq<Desc>, s: State, t: nat)
    requires Books(s) && CanEvict(s, t) && HandsOff(desc, desc', Unlinked(s, t), BusOps.Evict(s, t))
    ensures HandsOff(desc, desc', s, BusOps.Evict(s, t))
  {
  }

  /** The chain's `next` links, ended by NIL. */
  ghost predicate Threaded(desc: seq<Desc>, l: seq<Block>) {
    forall i :: 0 <= i < |l| ==> l[i] < |desc| && l[i] != NIL && desc[l[i]].next == NextIn(l, i)
  }

  /** Giving block h back writes to no block that stays in hand. */
  lemma GivenHands(s: State, t: nat, h: Block, desc: seq<Desc>, desc': seq<Desc>)
    requires Books(s) && CanGive(s, t, h) && h < |desc| == |desc'| && desc' == desc[h := desc'[h]]
    ensures HandsOff(desc, desc', s, BusOps.GiveOne(s, t, h))
    ensures BusOps.GiveOne(s, t, h).topics[t].loose == s.topics[t].loose - {h}
    ensures forall u :: 0 <= u < |s.topics| ==> BusOps.GiveOne(s, t, h).topics[u].loose <= s.topics[u].loose
    ensures |BusOps.GiveOne(s, t, h).topics| == |s.topics|
  {
    GiveOneFrame(s, t, h);
    LooseApart(s, t, h);
    OneWrite(s, BusOps.GiveOne(s, t, h), desc, h, desc'[h]);
  }

  lemma MoreHands(c: seq<Desc>, s: State, d: seq<Desc>, s1: State, e: seq<Desc>, s2: State, t: nat, h: Block)
    requires HandsOff(c, d, s, s1) && HandsOff(d, e, s1, s2)
    requires forall u :: 0 <= u < |s1.topics| ==> s2.topics[u].loose <= s1.topics[u].loose
    ensures HandsOff(c, e, s, s2)
  {
  }

  lemma BooksOf(s: State, t: nat)
    requires Books(s) && t < |s.topics|
    ensures TopicBooks(s.topics[t])
  {
  }

  lemma SameHands(desc: seq<Desc>, s: State)
    ensures HandsOff(desc, desc, s, s)
  {
  }

  lemma GiveOneFacts(c: Mem, s: State, t: nat, b: Block)
    requires Rep(c, s) && Books(s) && t < |s.topics| && b in s.topics[t].loose
    ensures CanGive(s, t, b) && b < |c.desc| && b < |s.epoch|
    ensures var g := BusOps.GiveOne(s, t, b);
      Books(g) && g.epoch == s.epoch[b := s.epoch[b] + 1] && g.cell == s.cell && |g.topics| == |s.topics|
  {
    CanGiveLoose(s, t, b);
    GiveOneBooks(s, t, b);
    GiveOneFrame(s, t, b);
  }

  lemma RepaidState(c: Mem, s: State, t: nat, b: Block, l: nat, s1: State)
    requires CanGive(s, t, b) && s.topics[t].borrowed > 0 && Creditor(s.topics, |s.topics|) == Some(l)
    requires s1 == Put(s, t, s.topics[t].(loose := s.topics[t].loose - {b}, tickets := s.topics[t].tickets - {b},
                                          borrowed := s.topics[t].borrowed - 1))
    requires s1.topics[l].lent > 0
    requires Rep(c, Put(s1, l, s1.topics[l].(stash := [b] + s1.topics[l].stash, lent := s1.topics[l].lent - 1)))
    ensures Rep(c, BusOps.GiveOne(s, t, b))
  {
    hide TopicRep;
    var s2 := Put(s1, l, s1.topics[l].(stash := [b] + s1.topics[l].stash, lent := s1.topics[l].lent - 1));
    var g := BusOps.GiveOne(s, t, b);
    assert g.topics == s2.topics;
    forall u | 0 <= u < |g.topics| ensures TopicRep(c.desc, c.blockSize, c.topics[u], g.topics[u]) {
      assert TopicRep(c.desc, c.blockSize, c.topics[u], s2.topics[u]);
    }
  }

  lemma ReaderFacts(c: Mem, s: State, t: nat, i: nat, data: seq<Bytes>)
    requires Rep(c, s) && Books(s) && Laws(s) && t < |s.topics| && !s.topics[t].pipe && HasNext(s.topics[t], i)
    requires s.topics[t].subs[i].cur < |s.topics[t].log| && data == s.topics[t].log[s.topics[t].subs[i].cur]
    ensures |c.topics| == |s.topics| && |c.topics[t].subs| == |s.topics[t].subs| && ReaderLaw(s.topics[t])
    ensures var b := c.topics[t].subs[i].cursor;
      b < |c.desc| && c.desc[b].refs == Next(s.topics[t], i).refs > 0 && b == Next(s.topics[t], i).chain[0]
    ensures Inv(BusOps.Consume(s, t, i, data))
    ensures var r := BusOps.Consume(s, t, i, data); r.epoch == s.epoch && r.cell == s.cell && |r.topics| == |s.topics|
  {
    hide Rep, Books, Laws, TopicLaw, TopicRep, Consumed;
    RepOf(c, s, t);
    ReadersOf(s, t);
    CursorFacts(c, s, t, i);
    ConsumeInv(s, t, i, data);
  }

  lemma ReadersOf(s: State, t: nat)
    requires Laws(s) && t < |s.topics|
    ensures ReaderLaw(s.topics[t])
  {
    assert TopicLaw(s, s.topics[t]);
  }

  lemma NotLast(s: State, t: nat, i: nat, data: seq<Bytes>)
    requires t < |s.topics| && HasNext(s.topics[t], i) && Next(s.topics[t], i).refs > 1
    ensures BusOps.Consume(s, t, i, data) == Put(s, t, Advanced(s.topics[t], i, data))
    ensures InHand(BusOps.Consume(s, t, i, data).topics[t], []) && forall d :: Threaded(d, [])
  {
  }

  lemma AdvancedFacts(x: Topic, i: nat, data: seq<Bytes>)
    requires HasNext(x, i)
    ensures Advanced(x, i, data).pipe == x.pipe
  {
  }

  lemma PeekFacts(c: Mem, s: State, t: nat, i: nat)
    requires Rep(c, s) && Laws(s) && t < |s.topics| && !s.topics[t].pipe && i < |s.topics[t].subs|
    ensures |c.topics| == |s.topics| && |c.topics[t].subs| == |s.topics[t].subs|
    ensures var u, x := c.topics[t].subs[i], s.topics[t];
      && (u.peeked != NIL <==> x.subs[i].peeked)
      && (x.subs[i].peeked ==> HasNext(x, i) && u.peeked == u.cursor)
      && u.awaits == x.subs[i].awaits
  {
    hide QueueRep, Chained, RingRep, LooseRep, BytesLaw, CopyLaw, MsgLaw;
    RepOf(c, s, t);
    LawOf(s, t);
    var x := s.topics[t];
    assert CursorLaw(x, x.subs[i]);
    CursorFacts(c, s, t, i);
  }

  lemma CopyFacts(c: Mem, s: State, t: nat, i: nat, b: nat)
    requires Rep(c, s) && Books(s) && t < |s.topics| && !s.topics[t].pipe && i < |s.topics[t].subs| && s.topics[t].subs[i].pop.Copying?
    requires Intact(s, t, i) && HasNext(s.topics[t], i)
    requires |s.topics[t].subs[i].pop.buf| < |Next(s.topics[t], i).chain| && b == Next(s.topics[t], i).chain[|s.topics[t].subs[i].pop.buf|]
    ensures b < |c.desc| == |s.cell| && c.desc[b].next == NextIn(Next(s.topics[t], i).chain, |s.topics[t].subs[i].pop.buf|)
  {
    hide Chained, RingRep, LooseRep, OnePlace, TopicBooks;
    RepOf(c, s, t);
    var x := s.topics[t];
    assert MsgRep(c.desc, c.blockSize, x.queue, x.subs[i].cur - x.Base());
    ChainedAt(c.desc, Next(x, i).chain, IN_USE, |x.subs[i].pop.buf|);
  }

  lemma CellSize(s: State)
    requires Books(s)
    ensures |s.cell| == |s.epoch|
  {
  }

  lemma ChainedAt(desc: seq<Desc>, l: seq<Block>, used: nat, i: nat)
    requires Chained(desc, l, used) && i < |l|
    ensures l[i] < |desc| && desc[l[i]].used == used && desc[l[i]].next == NextIn(l, i)
  {
  }

  /** What a pop in progress may rely on when it comes back. */
  lemma PopLaws(s: State, t: nat, i: nat)
    requires Laws(s) && t < |s.topics| && i < |s.topics[t].subs| && s.topics[t].subs[i].pop.Copying?
    ensures ReaderLaw(s.topics[t]) && !s.topics[t].subs[i].peeked && s.topics[t].subs[i].pop.msg < |s.epoch|
    ensures var x := s.topics[t]; var u := x.subs[i]; Intact(s, t, i) ==>
      && HasNext(x, i) && Next(x, i).chain != [] && Next(x, i).chain[0] == u.pop.msg && u.awaits <= u.cur < |x.log|
      && |x.log[u.cur]| == |Next(x, i).chain|
      && (|u.pop.buf| == |Next(x, i).chain| ==> u.pop.buf == x.log[u.cur])
  {
    LawOf(s, t);
    var x := s.topics[t];
    var u := x.subs[i];
    assert CursorLaw(x, u) && SubLaw(x, u) && CopyLaw(s.epoch, x, u);
    if Intact(s, t, i) {
      assert BytesLaw(s.cell, x, u.cur - x.Base()) && MsgLaw(x, u.cur - x.Base());
    }
  }

  lemma EmptyChain(desc: seq<Desc>, x: Topic)
    ensures Threaded(desc, []) && InHand(x, [])
  {
  }

  lemma AwaitsFact(s: State, t: nat, i: nat)
    requires Laws(s) && t < |s.topics| && i < |s.topics[t].subs|
    ensures s.topics[t].subs[i].awaits <= s.topics[t].subs[i].cur
  {
    LawOf(s, t);
    assert SubLaw(s.topics[t], s.topics[t].subs[i]);
  }

  /** The message under an open peek is pinned. */
  lemma PinnedMsg(c: Mem, s: State, t: nat, i: nat)
    requires Rep(c, s) && Laws(s) && t < |s.topics| && !s.topics[t].pipe && HasNext(s.topics[t], i) && s.topics[t].subs[i].peeked
    ensures |c.topics| == |s.topics| && |c.topics[t].subs| == |s.topics[t].subs|
    ensures var b := c.topics[t].subs[i].cursor; b < |c.desc| && c.desc[b].pins == Next(s.topics[t], i).pins > 0
  {
    hide Rep, Laws;
    RepOf(c, s, t);
    ReadersOf(s, t);
    CursorFacts(c, s, t, i);
    var x := s.topics[t];
    assert MsgLaw(x, x.subs[i].cur - x.Base());
    Counted(x.subs, i, x.subs[i].cur);
  }

  /** A peeked message is still the reader's next, with the bytes that were published. */
  lemma ReleaseFacts(s: State, t: nat, i: nat)
    requires Laws(s) && t < |s.topics| && i < |s.topics[t].subs|
    ensures !s.topics[t].subs[i].peeked ==> BusOps.Release(s, t, i) == s
    ensures var x := s.topics[t]; x.subs[i].peeked ==>
      && HasNext(x, i) && x.subs[i].cur < |x.log| && ReaderLaw(x)
      && BusOps.Release(s, t, i) == BusOps.Consume(s, t, i, x.log[x.subs[i].cur])
      && !Unpinned(x, i).subs[i].peeked && Unpinned(x, i).subs[i].cur == x.subs[i].cur && Unpinned(x, i).log == x.log
      && Unpinned(x, i).pipe == x.pipe
  {
    LawOf(s, t);
    var x := s.topics[t];
    var p := x.subs[i].cur - x.Base();
    assert CursorLaw(x, x.subs[i]);
    if x.subs[i].peeked {
      assert BytesLaw(s.cell, x, p) && MsgLaw(x, p);
      assert Data(s, Next(x, i).chain) == x.log[x.subs[i].cur];
    }
  }

  lemma PutTwice(s: State, t: nat, i: nat, data: seq<Bytes>)
    requires t < |s.topics| && ReaderLaw(s.topics[t]) && HasNext(s.topics[t], i) && s.topics[t].subs[i].peeked
    ensures HasNext(Unpinned(s.topics[t], i), i)
    ensures BusOps.Consume(Put(s, t, Unpinned(s.topics[t], i)), t, i, data) == BusOps.Consume(s, t, i, data)
  {
    UnpinThenConsume(s.topics[t], i, data);
  }

  lemma GotTicket(s: State, r: State, t: nat, chain: seq<Block>, desc: seq<Desc>)
    requires Books(s) && t < |s.topics| && !s.topics[t].pipe && Alloc(s, t, 1) == Allocated(r, Some(chain))
    requires Filled(desc, chain)
    ensures |r.topics| == |s.topics| && |chain| == 1 && chain == [chain[0]] && chain[0] < |desc| && chain[0] in r.topics[t].loose
    ensures chain[0] !in r.topics[t].tickets && desc[chain[0]].next == NIL && r.topics[t].tickets == s.topics[t].tickets
  {
    AllocBooks(s, t, 1);
    assert chain[0] in Elems(chain);
    TicketIsLoose(s, t);
  }

  lemma TicketNext(c: Mem, s: State, t: nat, b: Block)
    requires Rep(c, s) && Books(s) && t < |s.topics| && b in s.topics[t].tickets
    ensures b < |c.desc| && c.desc[b].next == NIL && b < |s.cell| && b != NIL
  {
    hide Chained, QueueRep, EndsRep, SubsRep, PipeRep, RingRep, FieldsRep, OnePlace;
    TicketIsLoose(s, t);
    RepOf(c, s, t);
    assert LooseRep(c.desc, s.topics[t]);
    assert b in s.topics[t].loose;
  }

  lemma RedeemRep(c: Mem, d: Mem, s: State, t: nat, b: Block)
    requires Rep(c, s) && Books(s) && t < |s.topics| && b in s.topics[t].tickets && b in s.topics[t].loose && b < |c.desc|
    requires d == c.(desc := c.desc[b := c.desc[b].(used := IN_USE)])
    ensures Rep(d, Redeem(s, t, b))
  {
    hide Rep, Books;
    TicketRep(c, d, s, t, b, s.topics[t].tickets - {b});
  }

  lemma OneInHand(x: Topic, b: Block)
    requires b in x.loose
    ensures InHand(x, [b])
  {
  }

  /** Taking the ticket back first makes no difference to what linking or freeing does. */
  lemma RedeemFacts(s: State, t: nat, b: Block, len: nat, desc: seq<Desc>)
    requires Books(s) && t < |s.topics| && b in s.topics[t].loose && b < |s.cell| && b < |desc| && b != NIL
    requires desc[b].used == IN_USE && desc[b].next == NIL
    ensures var r := Redeem(s, t, b);
      && |r.topics| == |s.topics| && r.topics[t].pipe == s.topics[t].pipe && r.topics[t].subs == s.topics[t].subs
      && CanLink(s, t, [b]) && CanLink(r, t, [b]) && r.epoch == s.epoch && r.cell == s.cell
      && r.topics[t].tickets !! Elems([b]) && InHand(r.topics[t], [b]) && Filled(desc, [b]) && Threaded(desc, [b])
      && (s.topics[t].subs != [] ==> BusOps.Link(r, t, [b], len) == BusOps.Link(s, t, [b], len))
      && (s.topics[t].subs == [] ==> BusOps.Link(r, t, [b], len) == r)
      && BusOps.FreeChain(r, t, [b]) == BusOps.FreeChain(s, t, [b])
  {
    hide OnePlace, BusOps.GiveOne;
    var r := Redeem(s, t, b);
    assert Elems([b]) == {b};
    assert Data(r, [b]) == Data(s, [b]);
    assert r.topics[t].tickets - {b} == s.topics[t].tickets - {b};
    assert [b][1..] == [];
    SameCreditor(s, t, b, |s.topics|);
    CanGiveLoose(s, t, b);
    RedeemGive(s, t, b);
  }

  lemma {:induction false} SameCreditor(s: State, t: nat, b: Block, k: nat)
    requires t < |s.topics| && k <= |s.topics|
    ensures Creditor(Redeem(s, t, b).topics, k) == Creditor(s.topics, k)
  {
    if k > 0 { SameCreditor(s, t, b, k - 1); }
  }

  lemma RedeemGive(s: State, t: nat, b: Block)
    requires CanGive(s, t, b) && CanGive(Redeem(s, t, b), t, b)
    ensures BusOps.GiveOne(Redeem(s, t, b), t, b) == BusOps.GiveOne(s, t, b)
  {
    var r := Redeem(s, t, b);
    SameCreditor(s, t, b, |s.topics|);
    assert r.topics[t].tickets - {b} == s.topics[t].tickets - {b};
    var g, h := BusOps.GiveOne(r, t, b), BusOps.GiveOne(s, t, b);
    assert forall u :: 0 <= u < |s.topics| ==> g.topics[u] == h.topics[u];
  }

  lemma JoinInv(s: State, t: nat)
    requires Inv(s) && t < |s.topics| && !s.topics[t].pipe
    ensures Inv(BusOps.Subscribe(s, t))
  {
    hide Books, Laws, TopicLaw;
    StepInv(s, SubscribeOp(t));
  }

  lemma LeaveLaw(s: State, t: nat, i: nat)
    requires Laws(s) && t < |s.topics| && i < |s.topics[t].subs|
    ensures LooseLaw(Detached(s, t, i).topics[t]) && Detached(s, t, i).topics[t].pipe == s.topics[t].pipe
    ensures |Detached(s, t, i).topics| == |s.topics|
  {
    ReadersOf(s, t);
    WithoutLaw(s.topics[t], i);
  }

  lemma RefsFact(c: Mem, s: State, t: nat)
    requires Rep(c, s) && t < |c.topics| && !s.topics[t].pipe && s.topics[t].queue != []
    ensures c.topics[t].head < |c.desc| && c.desc[c.topics[t].head].refs == s.topics[t].queue[0].refs
  {
    HeadFacts(c, s, t);
  }

  lemma AllWanted(s: State, t: nat)
    requires t < |s.topics| && (s.topics[t].queue == [] || s.topics[t].queue[0].refs > 0)
    ensures FreeRead(s, t) == s
  {
  }

  /** Where a leaving reader is. */
  lemma LeaveFacts(c: Mem, s: State, t: nat, i: nat)
    requires Rep(c, s) && Laws(s) && t < |s.topics| && !s.topics[t].pipe && i < |s.topics[t].subs|
    ensures |c.topics| == |s.topics| && |c.topics[t].subs| == |s.topics[t].subs| && SubsRep(c.topics[t], s.topics[t])
    ensures var x, u := s.topics[t], c.topics[t].subs[i]; var p := x.subs[i].cur - x.Base();
      && 0 <= p <= |x.queue| && (forall j :: 0 <= j < |x.queue| ==> x.queue[j].chain != [])
      && u.cursor == LinkOf(x.queue, p) && (u.peeked != NIL <==> x.subs[i].peeked)
      && (x.subs[i].peeked ==> p < |x.queue| && u.peeked == x.queue[p].chain[0])
  {
    hide QueueRep, Chained, RingRep, LooseRep, BytesLaw, CopyLaw, MsgLaw, Laws;
    RepOf(c, s, t);
    LawOf(s, t);
    PeekFacts(c, s, t, i);
    var x := s.topics[t];
    assert CursorLaw(x, x.subs[i]);
    QueuedFacts(c, s, t, x.subs[i].cur - x.Base());
  }

  /** The message a leaving reader has come to. */
  lemma LeavingMsg(c: Mem, s: State, t: nat, i: nat, k: nat)
    requires t < |s.topics| && i < |s.topics[t].subs| && k < |s.topics[t].queue|
    requires Rep(c, Put(s, t, Leaving(s.topics[t], i, k)))
    requires forall j :: 0 <= j < |s.topics[t].queue| ==> s.topics[t].queue[j].chain != []
    ensures var b := s.topics[t].queue[k].chain[0];
      && LinkOf(s.topics[t].queue, k) == b < |c.desc| && b != NIL
      && c.desc[b].link == LinkOf(s.topics[t].queue, k + 1)
    ensures Leaving(s.topics[t], i, k).queue[k].chain == s.topics[t].queue[k].chain
    ensures |Leaving(s.topics[t], i, k).queue| == |s.topics[t].queue| && Leaving(s.topics[t], i, k).pipe == s.topics[t].pipe
  {
    hide Rep;
    QueuedFacts(c, Put(s, t, Leaving(s.topics[t], i, k)), t, k);
  }

  lemma NilEnds(c: Mem, s: State, t: nat, k: nat)
    requires Rep(c, s) && t < |s.topics| && k <= |s.topics[t].queue|
    requires forall j :: 0 <= j < |s.topics[t].queue| ==> s.topics[t].queue[j].chain != []
    requires LinkOf(s.topics[t].queue, k) == NIL
    ensures k == |s.topics[t].queue|
  {
    QueuedFacts(c, s, t, k);
  }

  lemma RepPool(c: Mem, s: State)
    requires Rep(c, s)
    ensures c.freeCount == |s.pool| && |c.desc| == |s.epoch| < NIL && |c.topics| == |s.topics|
    ensures TopicsRep(c.desc, c.blockSize, c.topics, s.topics) && Chained(c.desc, s.pool, FREE) && c.freeHead == HeadOf(s.pool)
  {
  }

  lemma DeclareFacts(s: State, reserve: nat, overflow: Overflow, pipe: bool)
    ensures var r := BusOps.Declare(s, reserve, overflow, pipe);
      && r.epoch == s.epoch && r.cell == s.cell
      && ((pipe && reserve == 0) || reserve > |s.pool| ==> r == s)
      && (!(pipe && reserve == 0) && reserve <= |s.pool| ==> |r.topics| == |s.topics| + 1)
  {
  }

  lemma StartStash(c: Mem, s: State)
    requires Rep(c, s)
    ensures Stashing(c, s, 0, NIL)
  {
    RepPool(c, s);
    assert s.pool[0..] == s.pool && s.pool[..0] == [];
  }

  lemma StartRing(c: Mem, s: State)
    requires Rep(c, s)
    ensures Ringing(c, s, 0)
  {
    RepPool(c, s);
    assert s.pool[0..] == s.pool && s.pool[..0] == [];
  }

  lemma StashHead(c: Mem, s: State, k: nat, stash: nat)
    requires Stashing(c, s, k, stash) && k < |s.pool|
    ensures c.freeHead < |c.desc|
  {
    assert s.pool[k..][0] == s.pool[k];
  }

  lemma RingHead(c: Mem, s: State, k: nat)
    requires Ringing(c, s, k) && k < |s.pool|
    ensures c.freeHead == s.pool[k] < |c.desc|
  {
    assert s.pool[k..][0] == s.pool[k];
  }

  lemma InitRep(c: Mem, n: nat)
    requires HDR_SIZE <= c.blockSize && 0 < n == |c.desc| < NIL && c.freeHead == 0 && c.freeCount == n && c.topics == []
    requires forall k :: 0 <= k < n ==> c.desc[k].used == FREE && c.desc[k].next == if k + 1 < n then k + 1 else NIL
    ensures Rep(c, Init(n))
  {
    var l := Init(n).pool;
    forall i | 0 <= i < |l|
      ensures l[i] < |c.desc| && c.desc[l[i]].used == FREE && c.desc[l[i]].next == NextIn(l, i)
    {
      assert l[i] == i;
      assert c.desc[i].used == FREE;
    }
  }

  lemma InRange(s: State, t: nat, b: Block)
    requires Books(s) && t < |s.topics| && b in s.topics[t].loose
    ensures b < |s.epoch|
  {
    assert InTopic(s.topics[t], b) >= 1;
    Apart(s, t, b);
  }

  lemma CellsOnly(c: Mem, s: State, s': State)
    requires Rep(c, s) && s' == s.(cell := s'.cell)
    ensures Rep(c, s')
  {
  }

  lemma PipeFacts(c: Mem, s: State, t: nat)
    requires Rep(c, s) && Books(s) && t < |s.topics| && s.topics[t].pipe
    ensures |c.topics| == |s.topics| && PipeRep(c.topics[t], s.topics[t]) && FieldsRep(c.topics[t], s.topics[t])
    ensures c.topics[t].pipeWr < |c.desc| && c.topics[t].pipeWr in s.topics[t].ring && |s.topics[t].ring| == c.topics[t].reserve
  {
    hide Chained, QueueRep, OnePlace;
    RepOf(c, s, t);
    BooksOf(s, t);
    var k := c.topics[t].nextSeq % |s.topics[t].ring|;
    assert s.topics[t].ring[k] < |c.desc|;
  }

  lemma RingStep(c: Mem, s: State, t: nat, k: nat)
    requires Rep(c, s) && t < |s.topics| && s.topics[t].pipe && s.topics[t].ring != []
    ensures var l := s.topics[t].ring; l[k % |l|] < |c.desc| && c.desc[l[k % |l|]].next == l[(k + 1) % |l|]
  {
    hide Chained, QueueRep, PipeRep;
    RepOf(c, s, t);
    var l := s.topics[t].ring;
    var i := k % |l|;
    assert l[i] < |c.desc|;
    NextMod(k, |l|);
  }

  lemma NextMod(k: nat, n: nat)
    requires n > 0
    ensures (k + 1) % n == if k % n + 1 < n then k % n + 1 else 0
  {
    var q := k / n;
    assert k == n * q + k % n;
    if k % n + 1 < n {
      DivMod(k + 1, n, q, k % n + 1);
    } else {
      assert k + 1 == n * (q + 1) + 0;
      DivMod(k + 1, n, q + 1, 0);
    }
  }

  lemma PublishedPipe(c: Mem, s: State, t: nat)
    requires Rep(c, s) && Books(s) && t < |s.topics| && s.topics[t].pipe && |c.topics| == |s.topics| && |c.topics[t].subs| == 1
    requires c.topics[t].overflow.Drop? ==> c.topics[t].nextSeq - c.topics[t].subs[0].awaits < c.topics[t].reserve
    ensures c.topics[t].pipeWr < |c.desc|
    ensures var o := c.topics[t]; PipeRep(o.(nextSeq := o.nextSeq + 1, pipeWr := c.desc[o.pipeWr].next), s.topics[t])
  {
    hide Rep, Books;
    PipeFacts(c, s, t);
    RingStep(c, s, t, c.topics[t].nextSeq);
  }

  /** A pipe's record moves on, along with the header of one of its own slots. */
  lemma PipeStep(c: Mem, s: State, t: nat, b: Block, d: Mem)
    requires Rep(c, s) && Books(s) && t < |s.topics| && s.topics[t].pipe && b in s.topics[t].ring
    requires Agree(c, d, b) && b < |c.desc| && d.desc[b].used == c.desc[b].used && d.desc[b].next == c.desc[b].next
    requires |d.topics| == |c.topics| == |s.topics| && Elsewhere(c.topics, d.topics, t)
    requires d.freeHead == c.freeHead && d.freeCount == c.freeCount
    requires PipeRep(d.topics[t], s.topics[t]) && FieldsRep(d.topics[t], s.topics[t])
    ensures Rep(d, s)
  {
    hide TopicRep, OnePlace, TopicBooks;
    var x := s.topics[t];
    assert Occurs(x.ring, b) >= 1 && InTopic(x, b) >= 1;
    Apart(s, t, b);
    KeepChained(c, d, b, s.pool, FREE);
    BooksOf(s, t);
    forall u | 0 <= u < |s.topics| ensures TopicRep(d.desc, d.blockSize, d.topics[u], s.topics[u]) {
      if u == t {
        KeepPipe(c, d, b, c.topics[t], d.topics[t], x);
      } else {
        KeepTopic(c, d, b, c.topics[u], s.topics[u]);
      }
    }
  }

  lemma KeepPipe(c: Mem, d: Mem, b: Block, r: Rec, q: Rec, x: Topic)
    requires TopicRep(c.desc, c.blockSize, r, x) && x.pipe && TopicBooks(x) && PipeRep(q, x) && FieldsRep(q, x)
    requires Agree(c, d, b) && b < |c.desc| && d.desc[b].used == c.desc[b].used && d.desc[b].next == c.desc[b].next
    ensures TopicRep(d.desc, d.blockSize, q, x)
  {
    assert RingRep(d.desc, x.ring) by {
      forall i | 0 <= i < |x.ring|
        ensures x.ring[i] < |d.desc| && d.desc[x.ring[i]].used == PIPE_SLOT
        ensures d.desc[x.ring[i]].next == x.ring[if i + 1 < |x.ring| then i + 1 else 0]
      {
        assert x.ring[i] < |c.desc|;
      }
    }
  }

  lemma SubsCount(c: Mem, s: State, t: nat)
    requires Rep(c, s) && t < |s.topics| && !s.topics[t].pipe
    ensures |c.topics| == |s.topics| && |c.topics[t].subs| == |s.topics[t].subs|
  {
    RepOf(c, s, t);
  }

  /** Every topic has the history and the readers it had, if perhaps fewer messages. */
  ghost predicate SameLogs(s: State, r: State) {
    |r.topics| == |s.topics| && forall u :: 0 <= u < |s.topics| ==>
      r.topics[u].log == s.topics[u].log && |r.topics[u].subs| == |s.topics[u].subs| && r.topics[u].pipe == s.topics[u].pipe
  }

  lemma RoutedLogs(s: State, r: State)
    requires Routed(s, r)
    ensures SameLogs(s, r)
  {
    forall u | 0 <= u < |s.topics| ensures r.topics[u].log == s.topics[u].log { assert SameReaders(s.topics[u], r.topics[u]); }
  }

  lemma EvictLogs(s: State, v: nat)
    requires Books(s) && CanEvict(s, v)
    ensures SameLogs(s, BusOps.Evict(s, v)) && Books(BusOps.Evict(s, v))
  {
    hide Books, BusOps.Evict, Routed;
    EvictBooks(s, v);
    RoutedLogs(Unlinked(s, v), BusOps.Evict(s, v));
  }

  lemma {:induction false} TakeHardLogs(s: State, t: nat)
    requires Books(s) && t < |s.topics|
    ensures SameLogs(s, TakeHard(s, t).s)
    decreases SumQueued(s.topics)
  {
    hide Books, BusOps.Evict, Routed, NextVictim, BusOps.TakeOne;
    if BusOps.TakeOne(s, t).block.Some? || NextVictim(s, t).None? {
      TakeOneFrame(s, t);
      RoutedLogs(s, BusOps.TakeOne(s, t).s);
    } else {
      var v := NextVictim(s, t).value;
      EvictShrinks(s, v);
      EvictLogs(s, v);
      TakeHardLogs(BusOps.Evict(s, v), t);
    }
  }

  lemma {:induction false} AllocLoopLogs(s: State, t: nat, n: nat, chain: seq<Block>, mine: set<Block>)
    requires Books(s) && t < |s.topics| && !s.topics[t].pipe && Building(s.topics[t], chain, mine)
    ensures SameLogs(s, AllocLoop(s, t, n, chain).s)
    decreases n
  {
    hide Books, TakeHard, Routed, SameReaders;
    if n > 0 {
      var r := TakeHard(s, t);
      TakeHardBooks(s, t);
      TakeHardLogs(s, t);
      if r.block.None? {
        HandBack(r.s, t, chain, mine);
      } else {
        BuildOn(s, r, t, chain, mine);
        AllocLoopLogs(r.s, t, n - 1, [r.block.value] + chain, mine);
      }
    }
  }

  lemma HandBack(s: State, t: nat, chain: seq<Block>, mine: set<Block>)
    requires Books(s) && t < |s.topics| && Building(s.topics[t], chain, mine)
    ensures SameLogs(s, BusOps.FreeChain(s, t, chain))
  {
    hide Books, BusOps.FreeChain;
    FreeChainBooks(s, t, chain);
    RoutedLogs(s, BusOps.FreeChain(s, t, chain));
  }

  lemma AllocKeeps(s: State, t: nat, n: nat)
    requires Books(s) && t < |s.topics| && !s.topics[t].pipe
    ensures SameLogs(s, Alloc(s, t, n).s)
  {
    hide AllocLoop, Can, OnePlace;
    assert Elems<Block>([]) == {};
    assert TopicBooks(s.topics[t]);
    AllocLoopLogs(s, t, n, [], s.topics[t].loose);
  }

  /** The chain alloc_msg returned is new, and may be linked. */
  lemma FreshChain(s: State, r: State, t: nat, chain: seq<Block>, n: nat)
    requires Books(s) && t < |s.topics| && !s.topics[t].pipe && chain != [] && Books(r)
    requires Alloc(s, t, n) == Allocated(r, Some(chain))
    ensures |r.topics| == |s.topics| && CanLink(r, t, chain) && r.topics[t].tickets !! Elems(chain) && |chain| == n
  {
    hide Alloc, OnePlace;
    AllocBooks(s, t, n);
    forall i | 0 <= i < |chain| ensures chain[i] in r.topics[t].loose && chain[i] < |r.cell| {
      assert chain[i] in Elems(chain);
      InRange(r, t, chain[i]);
    }
    TicketIsLoose(s, t);
  }

  lemma LogsOf(s: State, r: State, t: nat)
    requires SameLogs(s, r) && t < |s.topics|
    ensures |r.topics| == |s.topics| && r.topics[t].log == s.topics[t].log && r.topics[t].pipe == s.topics[t].pipe
    ensures r.topics[t].subs == [] <==> s.topics[t].subs == []
  {
  }

  lemma ChainThere(chain: seq<Block>, msg: nat)
    requires msg == HeadOf(chain) && msg != NIL
    ensures chain != []
  {
  }

  lemma LinkedData(s: State, t: nat, chain: seq<Block>, len: nat, data: seq<Bytes>)
    requires CanLink(s, t, chain) && |data| == |chain| && s.topics[t].subs != []
    requires forall i :: 0 <= i < |chain| ==> s.cell[chain[i]] == data[i]
    ensures var r := BusOps.Link(s, t, chain, len);
      && |r.topics| == |s.topics| && r.topics[t].log == s.topics[t].log + [data]
      && |r.topics[t].queue| > 0 && r.topics[t].queue[|r.topics[t].queue| - 1].len == len
  {
    assert Data(s, chain) == data;
  }

  lemma LawsHaveBlocks(s: State)
    requires Laws(s)
    ensures HasBlocks(s)
  {
    forall u, j | 0 <= u < |s.topics| && 0 <= j < |s.topics[u].queue| ensures s.topics[u].queue[j].chain != [] {
      assert TopicLaw(s, s.topics[u]) && MsgLaw(s.topics[u], j);
    }
  }

  lemma ConsumeReads(s: State, t: nat, i: nat, data: seq<Bytes>)
    requires Laws(s) && t < |s.topics| && HasNext(s.topics[t], i)
    ensures ReadBy(s.topics[t], BusOps.Consume(s, t, i, data).topics[t], i, data)
  {
    var x := s.topics[t];
    assert TopicLaw(s, x) && SubLaw(x, x.subs[i]);
    ReadsOn(x, i, data);
  }

  lemma LeavesFacts(s: State, t: nat, i: nat)
    requires Books(s) && Laws(s) && t < |s.topics| && i < |s.topics[t].subs|
    ensures LeftBy(s.topics[t], BusOps.Unsubscribe(s, t, i).topics[t], i)
  {
    assert TopicLaw(s, s.topics[t]);
    hide Books, Laws;
    Leaves(s, t, i);
  }

  lemma PeekStep(s: State, t: nat, i: nat)
    requires t < |s.topics| && !s.topics[t].pipe
    ensures Apply(s, PeekOp(t, i)) == BusOps.Peek(s, t, i)
    ensures HasNext(s.topics[t], i) ==> PinnedBy(s.topics[t], Pinned(s.topics[t], i), i)
  {
    hide BusOps.Peek, PinnedBy;
    if HasNext(s.topics[t], i) { Pins(s.topics[t], i); }
  }
}
