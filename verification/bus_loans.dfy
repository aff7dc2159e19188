/** Block accounting: every block is always in exactly one place, loans balance, and every topic
    can count on its reservation. */
module BusLoans {
  import opened Lists
  import opened BusState
  import opened BusOps

  /** A topic's books. Its reservation is covered by what is in its stash, what it has lent out,
      and what it holds beyond what it owes. */
  ghost predicate TopicBooks(x: Topic) {
    && x.tickets <= x.loose
    && (!x.pipe ==>
          && x.ring == []
          && |x.stash| + x.lent <= x.reserve
          && x.borrowed <= Held(x)
          && x.reserve + x.borrowed <= |x.stash| + x.lent + Held(x)
          && (x.overflow.Drop? ==> x.borrowed == 0))
    && (x.pipe ==>
          && x.stash == [] && x.lent == 0 && x.borrowed == 0 && x.queue == [] && x.loose == {}
          && |x.ring| == x.reserve > 0)
  }

  ghost predicate Books(s: State) {
    && |s.cell| == |s.epoch|
    && OnePlace(s)
    && Total(s) == |s.epoch|
    && SumLent(s.topics) == SumBorrowed(s.topics)
    && forall t :: 0 <= t < |s.topics| ==> TopicBooks(s.topics[t])
  }

  /** Routing moves blocks between the pool, stashes and hands; it leaves queues, readers, bytes
      and history alone, and an epoch never goes back. */
  ghost predicate SameReaders(x: Topic, y: Topic) {
    && x.queue == y.queue && x.subs == y.subs && x.log == y.log && x.evicted == y.evicted
    && x.reserve == y.reserve && x.overflow == y.overflow && x.pipe == y.pipe && x.ring == y.ring
  }

  ghost predicate Routed(s: State, r: State) {
    && |r.topics| == |s.topics| && r.cell == s.cell && |r.epoch| == |s.epoch|
    && (forall u :: 0 <= u < |s.topics| ==> SameReaders(s.topics[u], r.topics[u]))
    && (forall b :: 0 <= b < |s.epoch| ==> s.epoch[b] <= r.epoch[b])
  }

  // --- One or two topics change --------------------------------------------------------------

  /** The books stay in order when the pool and one topic change by amounts that cancel out. */
  lemma Rebook(s: State, r: State, t: nat)
    requires Books(s) && t < |s.topics| && t < |r.topics| && r.topics == s.topics[t := r.topics[t]]
    requires |r.epoch| == |s.epoch| && |r.cell| == |s.cell|
    requires forall b: Block :: Occurs(r.pool, b) + InTopic(r.topics[t], b) == Occurs(s.pool, b) + InTopic(s.topics[t], b)
    requires |r.pool| + Size(r.topics[t]) == |s.pool| + Size(s.topics[t])
    requires r.topics[t].lent + s.topics[t].borrowed == s.topics[t].lent + r.topics[t].borrowed
    requires TopicBooks(r.topics[t])
    ensures Books(r)
  {
    forall b: Block ensures Places(r, b) == Places(s, b) {
      UpdateIn(s.topics, t, r.topics[t], b);
    }
    UpdateSums(s.topics, t, r.topics[t]);
  }

  /** The same for two topics. */
  lemma Rebook2(s: State, r: State, t: nat, l: nat)
    requires Books(s) && t < |s.topics| && l < |s.topics| && t != l && |r.topics| == |s.topics|
    requires r.topics == s.topics[t := r.topics[t]][l := r.topics[l]]
    requires |r.epoch| == |s.epoch| && |r.cell| == |s.cell| && r.pool == s.pool
    requires forall b: Block :: InTopic(r.topics[t], b) + InTopic(r.topics[l], b) == InTopic(s.topics[t], b) + InTopic(s.topics[l], b)
    requires Size(r.topics[t]) + Size(r.topics[l]) == Size(s.topics[t]) + Size(s.topics[l])
    requires r.topics[t].lent + r.topics[l].lent + s.topics[t].borrowed + s.topics[l].borrowed
          == s.topics[t].lent + s.topics[l].lent + r.topics[t].borrowed + r.topics[l].borrowed
    requires TopicBooks(r.topics[t]) && TopicBooks(r.topics[l])
    ensures Books(r)
  {
    hide InTopic, Size, TopicBooks, InTopics, SumSize, SumLent, SumBorrowed;
    var ts := s.topics[t := r.topics[t]];
    forall b: Block ensures Places(r, b) == Places(s, b) {
      UpdateIn(s.topics, t, r.topics[t], b);
      UpdateIn(ts, l, r.topics[l], b);
    }
    UpdateSums(s.topics, t, r.topics[t]);
    UpdateSums(ts, l, r.topics[l]);
  }

  /** A block in one list of a topic is in no other place. */
  lemma Apart(s: State, t: nat, b: Block)
    requires OnePlace(s) && t < |s.topics|
    ensures InTopic(s.topics[t], b) <= 1
    ensures InTopic(s.topics[t], b) == 1 ==> b < |s.epoch| && b !in s.pool
    ensures InTopic(s.topics[t], b) == 1 ==> forall u :: 0 <= u < |s.topics| && u != t ==> InTopic(s.topics[u], b) == 0
  {
    PartOfSums(s.topics, t);
    assert Places(s, b) == Occurs(s.pool, b) + InTopics(s.topics, b);
    forall u | 0 <= u < |s.topics| && u != t
      ensures InTopic(s.topics[t], b) == 1 ==> InTopic(s.topics[u], b) == 0
    {
      if t < u { TwoParts(s.topics, t, u, b); } else { TwoParts(s.topics, u, t, b); }
    }
  }

  lemma PoolApart(s: State, b: Block)
    requires OnePlace(s) && b in s.pool
    ensures b < |s.epoch| && Occurs(s.pool, b) == 1
    ensures forall u :: 0 <= u < |s.topics| ==> InTopic(s.topics[u], b) == 0
  {
    assert Occurs(s.pool, b) >= 1;
    assert Places(s, b) == Occurs(s.pool, b) + InTopics(s.topics, b);
    forall u | 0 <= u < |s.topics| ensures InTopic(s.topics[u], b) == 0 {
      PartOfSums(s.topics, u);
    }
  }

  // --- One topic gains or loses a block --------------------------------------------------------

  lemma GainLoose(x: Topic, b: Block, y: Topic)
    requires b !in x.loose && y.loose == x.loose + {b}
    requires y.stash == x.stash && y.queue == x.queue && y.ring == x.ring
    ensures Held(y) == Held(x) + 1 && Size(y) == Size(x) + 1
    ensures forall c :: InTopic(y, c) == InTopic(x, c) + if c == b then 1 else 0
  {
  }

  lemma LoseLoose(x: Topic, b: Block, y: Topic)
    requires b in x.loose && y.loose == x.loose - {b}
    requires y.stash == x.stash && y.queue == x.queue && y.ring == x.ring
    ensures Held(y) + 1 == Held(x) && Size(y) + 1 == Size(x)
    ensures forall c :: InTopic(y, c) + (if c == b then 1 else 0) == InTopic(x, c)
  {
  }

  lemma GainStash(x: Topic, b: Block, y: Topic)
    requires y.stash == [b] + x.stash
    requires y.loose == x.loose && y.queue == x.queue && y.ring == x.ring
    ensures Held(y) == Held(x) && Size(y) == Size(x) + 1
    ensures forall c :: InTopic(y, c) == InTopic(x, c) + if c == b then 1 else 0
  {
    forall c ensures InTopic(y, c) == InTopic(x, c) + if c == b then 1 else 0 {
      OccursCons(b, x.stash, c);
    }
  }

  lemma LoseStash(x: Topic, y: Topic)
    requires x.stash != [] && y.stash == x.stash[1..]
    requires y.loose == x.loose && y.queue == x.queue && y.ring == x.ring
    ensures Held(y) == Held(x) && Size(y) + 1 == Size(x)
    ensures forall c :: InTopic(y, c) + (if c == x.stash[0] then 1 else 0) == InTopic(x, c)
  {
    forall c ensures InTopic(y, c) + (if c == x.stash[0] then 1 else 0) == InTopic(x, c) {
      OccursHead(x.stash, c);
    }
  }

  // --- take_one ----------------------------------------------------------------------------------

  /** What take_one leaves alone, whatever the books say. */
  lemma TakeOneFrame(s: State, t: nat)
    requires t < |s.topics|
    ensures var r := TakeOne(s, t);
      && Routed(s, r.s) && r.s.epoch == s.epoch
      && (r.block.Some? ==>
            && r.s.topics[t].loose == s.topics[t].loose + {r.block.value}
            && r.s.topics[t].tickets == s.topics[t].tickets)
      && (r.block.None? ==> r.s == s)
      && (forall u :: 0 <= u < |s.topics| && u != t ==>
            r.s.topics[u].loose == s.topics[u].loose && r.s.topics[u].tickets == s.topics[u].tickets)
  {
  }

  lemma TakeOneBooks(s: State, t: nat)
    requires Books(s) && t < |s.topics| && !s.topics[t].pipe
    ensures var r := TakeOne(s, t);
      && Books(r.s)
      && (r.block.Some? ==> r.block.value < |s.epoch| && r.block.value !in s.topics[t].loose)
  {
    var x := s.topics[t];
    if x.stash != [] {
      TakeStash(s, t);
    } else if s.pool != [] {
      TakePool(s, t);
    } else if x.overflow.Overwrite? && Lender(s.topics, t, |s.topics|).Some? {
      Borrow(s, t);
    }
  }

  lemma TakeStash(s: State, t: nat)
    requires Books(s) && t < |s.topics| && !s.topics[t].pipe && s.topics[t].stash != []
    ensures var r := TakeOne(s, t);
      && Books(r.s)
      && r.block.Some? && r.block.value < |s.epoch| && r.block.value !in s.topics[t].loose
  {
    var x := s.topics[t];
    var b := x.stash[0];
    var w := x.(stash := x.stash[1..]);
    LoseStash(x, w);
    assert InTopic(x, b) >= 1;
    Apart(s, t, b);
    assert InTopic(w, b) == 0;
    var y := w.(loose := x.loose + {b});
    GainLoose(w, b, y);
    Rebook(s, TakeOne(s, t).s, t);
  }

  lemma TakePool(s: State, t: nat)
    requires Books(s) && t < |s.topics| && !s.topics[t].pipe
    requires s.topics[t].stash == [] && s.pool != []
    ensures var r := TakeOne(s, t);
      && Books(r.s)
      && r.block.Some? && r.block.value < |s.epoch| && r.block.value !in s.topics[t].loose
  {
    var x := s.topics[t];
    var b := s.pool[0];
    PoolApart(s, b);
    assert InTopic(x, b) == 0;
    GainLoose(x, b, x.(loose := x.loose + {b}));
    forall c ensures Occurs(s.pool, c) == (if c == b then 1 else 0) + Occurs(s.pool[1..], c) {
      OccursHead(s.pool, c);
    }
    Rebook(s, TakeOne(s, t).s, t);
  }

  lemma Borrow(s: State, t: nat)
    requires Books(s) && t < |s.topics| && !s.topics[t].pipe
    requires s.topics[t].stash == [] && s.pool == [] && s.topics[t].overflow.Overwrite?
    requires Lender(s.topics, t, |s.topics|).Some?
    ensures var r := TakeOne(s, t);
      && Books(r.s)
      && r.block.Some? && r.block.value < |s.epoch| && r.block.value !in s.topics[t].loose
  {
    var x := s.topics[t];
    var l := Lender(s.topics, t, |s.topics|).value;
    var y := s.topics[l];
    StashApart(s, l, t);
    assert TopicBooks(x) && TopicBooks(y);
    Borrowed(s, t, l, y.(stash := y.stash[1..], lent := y.lent + 1), x.(loose := x.loose + {y.stash[0]}, borrowed := x.borrowed + 1));
  }

  /** An idle block is in nobody else's hands. */
  lemma StashApart(s: State, l: nat, t: nat)
    requires OnePlace(s) && l < |s.topics| && t < |s.topics| && l != t && s.topics[l].stash != []
    ensures var b := s.topics[l].stash[0]; b < |s.epoch| && b !in s.topics[t].loose
  {
    var b := s.topics[l].stash[0];
    assert InTopic(s.topics[l], b) >= 1;
    Apart(s, l, b);
    assert InTopic(s.topics[t], b) == 0;
  }

  lemma Borrowed(s: State, t: nat, l: nat, y: Topic, x: Topic)
    requires Books(s) && t < |s.topics| && l < |s.topics| && t != l && s.topics[l].stash != [] && s.topics[l].stash[0] !in s.topics[t].loose
    requires y == s.topics[l].(stash := s.topics[l].stash[1..], lent := s.topics[l].lent + 1)
    requires x == s.topics[t].(loose := s.topics[t].loose + {s.topics[l].stash[0]}, borrowed := s.topics[t].borrowed + 1)
    requires TopicBooks(s.topics[t]) && TopicBooks(s.topics[l]) && !s.topics[t].pipe && s.topics[t].overflow.Overwrite?
    ensures Books(Put(Put(s, l, y), t, x))
  {
    LoseStash(s.topics[l], y);
    GainLoose(s.topics[t], s.topics[l].stash[0], x);
    hide InTopic, InTopics, Size, Held, OnePlace;
    Rebook2(s, Put(Put(s, l, y), t, x), l, t);
  }

  // --- give_one ----------------------------------------------------------------------------------

  lemma GiveOneFrame(s: State, t: nat, b: Block)
    requires CanGive(s, t, b)
    ensures var r := GiveOne(s, t, b);
      && Routed(s, r) && r.epoch == s.epoch[b := s.epoch[b] + 1]
      && r.topics[t].loose == s.topics[t].loose - {b} && r.topics[t].tickets == s.topics[t].tickets - {b}
      && (forall u :: 0 <= u < |s.topics| && u != t ==>
            r.topics[u].loose == s.topics[u].loose && r.topics[u].tickets == s.topics[u].tickets)
  {
  }

  lemma CanGiveLoose(s: State, t: nat, b: Block)
    requires Books(s) && t < |s.topics| && b in s.topics[t].loose
    ensures CanGive(s, t, b)
  {
    assert InTopic(s.topics[t], b) >= 1;
    Apart(s, t, b);
    PartOfSums(s.topics, t);
    if s.topics[t].borrowed > 0 {
      var u := SomeLender(s.topics);
    }
  }

  lemma GiveOneBooks(s: State, t: nat, b: Block)
    requires Books(s) && CanGive(s, t, b)
    ensures Books(GiveOne(s, t, b))
  {
    var x := s.topics[t];
    var l := Creditor(s.topics, |s.topics|);
    if x.borrowed > 0 && l == Some(t) {
      RepaySelf(s, t, b);
    } else if x.borrowed > 0 {
      Repay(s, t, b);
    } else if |x.stash| + x.lent < x.reserve {
      GiveStash(s, t, b);
    } else {
      GivePool(s, t, b);
    }
  }

  lemma GiveStash(s: State, t: nat, b: Block)
    requires Books(s) && CanGive(s, t, b) && s.topics[t].borrowed == 0
    requires |s.topics[t].stash| + s.topics[t].lent < s.topics[t].reserve
    ensures Books(GiveOne(s, t, b))
  {
    var x := s.topics[t];
    var w := x.(loose := x.loose - {b}, tickets := x.tickets - {b});
    LoseLoose(x, b, w);
    GainStash(w, b, w.(stash := [b] + w.stash));
    Rebook(s, GiveOne(s, t, b), t);
  }

  lemma GivePool(s: State, t: nat, b: Block)
    requires Books(s) && CanGive(s, t, b) && s.topics[t].borrowed == 0
    requires |s.topics[t].stash| + s.topics[t].lent >= s.topics[t].reserve
    ensures Books(GiveOne(s, t, b))
  {
    var x := s.topics[t];
    LoseLoose(x, b, x.(loose := x.loose - {b}, tickets := x.tickets - {b}));
    forall c ensures Occurs([b] + s.pool, c) == (if c == b then 1 else 0) + Occurs(s.pool, c) {
      OccursCons(b, s.pool, c);
    }
    Rebook(s, GiveOne(s, t, b), t);
  }

  lemma RepaySelf(s: State, t: nat, b: Block)
    requires Books(s) && CanGive(s, t, b) && s.topics[t].borrowed > 0
    requires Creditor(s.topics, |s.topics|) == Some(t)
    ensures Books(GiveOne(s, t, b))
  {
    var x := s.topics[t];
    var w := x.(loose := x.loose - {b}, tickets := x.tickets - {b}, borrowed := x.borrowed - 1);
    LoseLoose(x, b, w);
    var y := w.(stash := [b] + w.stash, lent := w.lent - 1);
    GainStash(w, b, y);
    assert GiveOne(s, t, b).topics == s.topics[t := y];
    Rebook(s, GiveOne(s, t, b), t);
  }

  lemma Repay(s: State, t: nat, b: Block)
    requires Books(s) && CanGive(s, t, b) && s.topics[t].borrowed > 0
    requires Creditor(s.topics, |s.topics|) != Some(t)
    ensures Books(GiveOne(s, t, b))
  {
    var x := s.topics[t];
    var l := Creditor(s.topics, |s.topics|).value;
    var y := s.topics[l];
    LoseLoose(x, b, x.(loose := x.loose - {b}, tickets := x.tickets - {b}, borrowed := x.borrowed - 1));
    GainStash(y, b, y.(stash := [b] + y.stash, lent := y.lent - 1));
    Rebook2(s, GiveOne(s, t, b), t, l);
  }
}
