/** take_one and give_one in memory: each case of the C code represents the abstract step. */
module BusRouteRep {
  import opened Lists
  import opened BusState
  import opened BusOps
  import opened BusLoans
  import opened BusRep

  /** The block just taken: in use, chained to nothing. */
  ghost function Claimed(c: Mem, b: Block): Mem
    requires b < |c.desc|
  {
    c.(desc := c.desc[b := c.desc[b].(used := IN_USE, next := NIL)])
  }

  lemma TakeStashRep(c: Mem, s: State, t: nat, d: Mem)
    requires Rep(c, s) && Books(s) && t < |s.topics| && !s.topics[t].pipe && s.topics[t].stash != []
    requires c.topics[t].stash < |c.desc|
    requires var b := c.topics[t].stash; var r := c.topics[t];
      d == Claimed(c.(topics := c.topics[t := r.(stash := c.desc[b].next, stashCount := |s.topics[t].stash| - 1)]), b)
    ensures Rep(d, TakeOne(s, t).s) && TakeOne(s, t).block == Some(c.topics[t].stash)
  {
    hide TopicRep, OnePlace, Chained;
    var x := s.topics[t];
    var b := x.stash[0];
    StashDistinct(s, t);
    Apart(s, t, b);
    assert TopicRep(c.desc, c.blockSize, c.topics[t], x) && TopicBooks(x);
    StashTaken(c, d, b, c.topics[t], x, d.topics[t], TakeOne(s, t).s.topics[t]);
    KeepChained(c, d, b, s.pool, FREE);
    MoveBlock(c, d, s, TakeOne(s, t).s, t, b);
  }

  lemma StashTaken(c: Mem, d: Mem, b: Block, r: Rec, x: Topic, q: Rec, y: Topic)
    requires TopicRep(c.desc, c.blockSize, r, x) && !x.pipe && x.ring == [] && x.tickets <= x.loose
    requires x.stash != [] && b == x.stash[0] && Distinct(x.stash) && InTopic(x, b) == 1 && r.stash < |c.desc|
    requires d.desc == c.desc[r.stash := c.desc[r.stash].(used := IN_USE, next := NIL)] && d.blockSize == c.blockSize
    requires q == r.(stash := c.desc[r.stash].next, stashCount := |x.stash| - 1)
    requires y == x.(stash := x.stash[1..], loose := x.loose + {b})
    ensures r.stash == b && TopicRep(d.desc, d.blockSize, q, y)
  {
    hide Chained, QueueRep;
    TailChained(c.desc, x.stash, STASHED);
    KeepChained(c, d, b, y.stash, STASHED);
    assert Occurs(x.stash, b) >= 1;
    assert LooseRep(d.desc, y);
    TradeTopic(c, d, b, r, x, y);
  }

  lemma TakePoolRep(c: Mem, s: State, t: nat, d: Mem)
    requires Rep(c, s) && Books(s) && t < |s.topics| && !s.topics[t].pipe && s.topics[t].stash == [] && s.pool != []
    requires c.freeHead < |c.desc|
    requires var b := c.freeHead;
      d == Claimed(c.(freeHead := c.desc[b].next, freeCount := |s.pool| - 1), b)
    ensures Rep(d, TakeOne(s, t).s) && TakeOne(s, t).block == Some(c.freeHead)
  {
    var x := s.topics[t];
    var b := s.pool[0];
    var y := TakeOne(s, t).s.topics[t];
    PoolApart(s, b);
    PoolDistinct(s);
    assert InTopic(x, b) == 0;
    assert TopicRep(c.desc, c.blockSize, c.topics[t], x) && TopicBooks(x);
    KeepChained(c, d, b, y.stash, STASHED);
    assert LooseRep(d.desc, y);
    TradeTopic(c, d, b, c.topics[t], x, y);
    TailChained(c.desc, s.pool, FREE);
    KeepChained(c, d, b, s.pool[1..], FREE);
    assert d.topics[t] == Trade(c.topics[t], y);
    MoveBlock(c, d, s, TakeOne(s, t).s, t, b);
  }

  /** Lending: block b leaves the lender's stash ... */
  lemma LendRep(c: Mem, s: State, l: nat, b: Block, d: Mem, s': State)
    requires Rep(c, s) && Books(s) && l < |s.topics| && s.topics[l].stash != [] && b == s.topics[l].stash[0] < |c.desc|
    requires c.topics[l].stashCount > 0
    requires d == c.(topics := c.topics[l := c.topics[l].(stash := c.desc[b].next, stashCount := c.topics[l].stashCount - 1,
                                                         lent := c.topics[l].lent + 1)])
    requires s' == Put(s, l, s.topics[l].(stash := s.topics[l].stash[1..], lent := s.topics[l].lent + 1))
    ensures Rep(d, s')
  {
    hide OnePlace, Chained, QueueRep, EndsRep, SubsRep, LooseRep;
    var z, r := s.topics[l], c.topics[l];
    assert Occurs(z.stash, b) >= 1;
    assert TopicRep(c.desc, c.blockSize, r, z) && TopicBooks(z);
    Apart(s, l, b);
    StashDistinct(s, l);
    LenderRep(c, d, b, r, z, d.topics[l], s'.topics[l]);
    MoveBlock(c, d, s, s', l, b);
  }

  lemma LendNowhere(s: State, l: nat, b: Block, s': State)
    requires Books(s) && l < |s.topics| && s.topics[l].stash != [] && b == s.topics[l].stash[0]
    requires s' == Put(s, l, s.topics[l].(stash := s.topics[l].stash[1..], lent := s.topics[l].lent + 1))
    ensures Nowhere(s', b) && b < |s.epoch|
  {
    var z := s.topics[l];
    assert Occurs(z.stash, b) >= 1;
    Apart(s, l, b);
    LoseStash(z, s'.topics[l]);
  }

  /** No list of any topic has block b, and nobody holds it. */
  ghost predicate Nowhere(s: State, b: Block) {
    b !in s.pool && forall u :: 0 <= u < |s.topics| ==> InTopic(s.topics[u], b) == 0
  }

  /** ... and comes into the borrower's hands. */
  lemma BorrowRep(c: Mem, s: State, t: nat, b: Block, d: Mem, s': State)
    requires Rep(c, s) && t < |s.topics| && !s.topics[t].pipe && s.topics[t].ring == []
    requires s.topics[t].tickets <= s.topics[t].loose && Nowhere(s, b) && b < |c.desc|
    requires d == Claimed(c.(topics := c.topics[t := c.topics[t].(borrowed := c.topics[t].borrowed + 1)]), b)
    requires s' == Put(s, t, s.topics[t].(loose := s.topics[t].loose + {b}, borrowed := s.topics[t].borrowed + 1))
    ensures Rep(d, s')
  {
    var x, r := s.topics[t], c.topics[t];
    assert TopicRep(c.desc, c.blockSize, r, x);
    BorrowerRep(c, d, b, r, x, d.topics[t], s'.topics[t]);
    KeepChained(c, d, b, s.pool, FREE);
    MoveBlock(c, d, s, s', t, b);
  }

  lemma BorrowerRep(c: Mem, d: Mem, b: Block, r: Rec, x: Topic, q: Rec, y: Topic)
    requires TopicRep(c.desc, c.blockSize, r, x) && !x.pipe && x.ring == [] && x.tickets <= x.loose
    requires Agree(c, d, b) && InTopic(x, b) == 0 && b < |d.desc| && d.desc[b].used == IN_USE
    requires y == x.(loose := x.loose + {b}, borrowed := x.borrowed + 1) && q == r.(borrowed := r.borrowed + 1)
    ensures TopicRep(d.desc, d.blockSize, q, y)
  {
    assert Occurs(x.stash, b) == 0;
    KeepChained(c, d, b, x.stash, STASHED);
    assert LooseRep(d.desc, y);
    TradeTopic(c, d, b, r, x, y);
    assert q == Trade(r, y);
  }

  lemma LenderRep(c: Mem, d: Mem, b: Block, r: Rec, x: Topic, q: Rec, y: Topic)
    requires TopicRep(c.desc, c.blockSize, r, x) && !x.pipe && x.ring == []
    requires x.stash != [] && b == x.stash[0] < |c.desc| && Distinct(x.stash) && r.stashCount > 0
    requires Agree(c, d, b) && InTopic(x, b) == 1
    requires y == x.(stash := x.stash[1..], lent := x.lent + 1)
    requires q == r.(stash := c.desc[b].next, stashCount := r.stashCount - 1, lent := r.lent + 1)
    ensures TopicRep(d.desc, d.blockSize, q, y)
  {
    assert Occurs(x.stash, b) >= 1;
    TailChained(c.desc, x.stash, STASHED);
    KeepChained(c, d, b, y.stash, STASHED);
    assert LooseRep(d.desc, y);
    TradeTopic(c, d, b, r, x, y);
    assert q == Trade(r, y);
  }

  // --- give_one ---------------------------------------------------------------------------------

  lemma LooseApart(s: State, t: nat, b: Block)
    requires Books(s) && t < |s.topics| && b in s.topics[t].loose
    ensures InTopic(s.topics[t], b) == 1 && b < |s.epoch| && b !in s.pool && !s.topics[t].pipe
    ensures b !in s.topics[t].stash && InQueue(s.topics[t].queue, b) == 0 && s.topics[t].ring == []
    ensures forall u :: 0 <= u < |s.topics| && u != t ==> InTopic(s.topics[u], b) == 0
  {
    var x := s.topics[t];
    assert InTopic(x, b) >= 1;
    Apart(s, t, b);
    assert Occurs(x.stash, b) == 0 && TopicBooks(x);
  }

  /** stash_push. */
  ghost function Pushed(c: Mem, l: nat, b: Block): Mem
    requires l < |c.topics| && b < |c.desc|
  {
    var r := c.topics[l];
    c.(desc := c.desc[b := c.desc[b].(used := STASHED, next := r.stash)],
       topics := c.topics[l := r.(stash := b, stashCount := r.stashCount + 1)])
  }

  /** Topic x puts block b on its own stash. */
  lemma OwnStashRep(c: Mem, d: Mem, b: Block, r: Rec, x: Topic, y: Topic)
    requires TopicRep(c.desc, c.blockSize, r, x) && Agree(c, d, b) && !x.pipe && x.ring == []
    requires b !in x.stash && InQueue(x.queue, b) == 0
    requires b < |d.desc| && d.desc[b].used == STASHED && d.desc[b].next == r.stash
    requires y == x.(loose := x.loose - {b}, tickets := x.tickets - {b}, stash := [b] + x.stash, borrowed := y.borrowed, lent := y.lent)
    ensures TopicRep(d.desc, d.blockSize, Trade(r, y), y)
  {
    KeepChained(c, d, b, x.stash, STASHED);
    ConsChained(d, b, x.stash, STASHED);
    assert LooseRep(d.desc, y);
    TradeTopic(c, d, b, r, x, y);
  }

  lemma GiveStashRep(c: Mem, s: State, t: nat, b: Block)
    requires Rep(c, s) && Books(s) && CanGive(s, t, b) && s.topics[t].borrowed == 0
    requires |s.topics[t].stash| + s.topics[t].lent < s.topics[t].reserve
    ensures Rep(Pushed(c, t, b), GiveOne(s, t, b))
  {
    var x, r := s.topics[t], c.topics[t];
    var d := Pushed(c, t, b);
    var y := x.(loose := x.loose - {b}, tickets := x.tickets - {b}, stash := [b] + x.stash);
    LooseApart(s, t, b);
    assert TopicRep(c.desc, c.blockSize, r, x);
    OwnStashRep(c, d, b, r, x, y);
    KeepChained(c, d, b, s.pool, FREE);
    assert d.topics == c.topics[t := Trade(r, y)];
    assert GiveOne(s, t, b).topics == s.topics[t := y];
    MoveBlock(c, d, s, GiveOne(s, t, b), t, b);
  }

  lemma GivePoolRep(c: Mem, s: State, t: nat, b: Block)
    requires Rep(c, s) && Books(s) && CanGive(s, t, b) && s.topics[t].borrowed == 0
    requires |s.topics[t].stash| + s.topics[t].lent >= s.topics[t].reserve
    ensures Rep(c.(desc := c.desc[b := c.desc[b].(used := FREE, next := c.freeHead)],
                              freeHead := b, freeCount := c.freeCount + 1),
                GiveOne(s, t, b))
  {
    var x, r := s.topics[t], c.topics[t];
    var d := c.(desc := c.desc[b := c.desc[b].(used := FREE, next := c.freeHead)],
                           freeHead := b, freeCount := c.freeCount + 1);
    var y := x.(loose := x.loose - {b}, tickets := x.tickets - {b});
    LooseApart(s, t, b);
    assert TopicRep(c.desc, c.blockSize, r, x);
    GiverRep(c, d, b, r, x, y);
    KeepChained(c, d, b, s.pool, FREE);
    ConsChained(d, b, s.pool, FREE);
    assert d.topics == c.topics[t := Trade(r, y)];
    assert GiveOne(s, t, b).topics == s.topics[t := y];
    MoveBlock(c, d, s, GiveOne(s, t, b), t, b);
  }

  /** Repaying: block b leaves the borrower's hands ... */
  lemma RepayRep(c: Mem, s: State, t: nat, b: Block)
    requires Rep(c, s) && Books(s) && t < |s.topics| && b in s.topics[t].loose && s.topics[t].borrowed > 0
    ensures var r := c.topics[t]; var x := s.topics[t];
      var y := x.(loose := x.loose - {b}, tickets := x.tickets - {b}, borrowed := x.borrowed - 1);
      && r.borrowed > 0 && b < |c.desc|
      && Rep(c.(topics := c.topics[t := r.(borrowed := r.borrowed - 1)]), Put(s, t, y))
      && Nowhere(Put(s, t, y), b)
  {
    var x, r := s.topics[t], c.topics[t];
    var y := x.(loose := x.loose - {b}, tickets := x.tickets - {b}, borrowed := x.borrowed - 1);
    assert TopicRep(c.desc, c.blockSize, r, x);
    var d := c.(topics := c.topics[t := r.(borrowed := r.borrowed - 1)]);
    LooseApart(s, t, b);
    GiverRep(c, d, b, r, x, y);
    LoseLoose(x, b, y);
    MoveBlock(c, d, s, Put(s, t, y), t, b);
  }

  /** ... and goes on the creditor's stash. */
  lemma CreditRep(c: Mem, s: State, l: nat, b: Block)
    requires Rep(c, s) && l < |s.topics| && !s.topics[l].pipe && s.topics[l].ring == [] && s.topics[l].lent > 0
    requires Nowhere(s, b) && b < |c.desc|
    ensures var r := c.topics[l]; var x := s.topics[l];
      && r.lent > 0
      && Rep(c.(desc := c.desc[b := c.desc[b].(used := STASHED, next := r.stash)],
                topics := c.topics[l := r.(stash := b, stashCount := r.stashCount + 1, lent := r.lent - 1)]),
             Put(s, l, x.(stash := [b] + x.stash, lent := x.lent - 1)))
  {
    var x, r := s.topics[l], c.topics[l];
    var y := x.(stash := [b] + x.stash, lent := x.lent - 1);
    assert TopicRep(c.desc, c.blockSize, r, x);
    var d := c.(desc := c.desc[b := c.desc[b].(used := STASHED, next := r.stash)],
                topics := c.topics[l := r.(stash := b, stashCount := r.stashCount + 1, lent := r.lent - 1)]);
    CreditorRep(c, d, b, r, x);
    KeepChained(c, d, b, s.pool, FREE);
    MoveBlock(c, d, s, Put(s, l, y), l, b);
  }

  lemma GiverRep(c: Mem, d: Mem, b: Block, r: Rec, x: Topic, y: Topic)
    requires TopicRep(c.desc, c.blockSize, r, x) && Agree(c, d, b) && !x.pipe && x.ring == []
    requires b !in x.stash && InQueue(x.queue, b) == 0
    requires y == x.(loose := x.loose - {b}, tickets := x.tickets - {b}, borrowed := y.borrowed)
    ensures TopicRep(d.desc, d.blockSize, Trade(r, y), y)
  {
    KeepChained(c, d, b, x.stash, STASHED);
    assert LooseRep(d.desc, y);
    TradeTopic(c, d, b, r, x, y);
  }

  lemma CreditorRep(c: Mem, d: Mem, b: Block, r: Rec, x: Topic)
    requires TopicRep(c.desc, c.blockSize, r, x) && Agree(c, d, b) && !x.pipe && x.ring == [] && x.lent > 0
    requires InTopic(x, b) == 0 && b < |d.desc| && d.desc[b].used == STASHED && d.desc[b].next == r.stash
    ensures var y := x.(stash := [b] + x.stash, lent := x.lent - 1); TopicRep(d.desc, d.blockSize, Trade(r, y), y)
  {
    var y := x.(stash := [b] + x.stash, lent := x.lent - 1);
    assert Occurs(x.stash, b) == 0;
    KeepChained(c, d, b, x.stash, STASHED);
    ConsChained(d, b, x.stash, STASHED);
    assert LooseRep(d.desc, y);
    TradeTopic(c, d, b, r, x, y);
  }
}
