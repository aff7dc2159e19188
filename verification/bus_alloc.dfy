/** Chains of blocks: freeing, evicting, and alloc_msg with its recall of lent blocks. */
module BusAlloc {
  import opened Lists
  import opened BusState
  import opened BusOps
  import opened BusLoans

  /** Nobody but topic t had blocks put into or taken out of its hands. */
  ghost predicate OtherHands(s: State, r: State, t: nat) {
    |r.topics| == |s.topics| && forall u :: 0 <= u < |s.topics| && u != t ==>
      r.topics[u].loose == s.topics[u].loose && r.topics[u].tickets == s.topics[u].tickets
  }

  ghost predicate InHand(x: Topic, chain: seq<Block>) {
    Distinct(chain) && forall i :: 0 <= i < |chain| ==> chain[i] in x.loose
  }

  /** free_chain: each block of the chain leaves the topic's hands and is marked as reused. */
  ghost predicate Freed(s: State, r: State, t: nat, chain: seq<Block>)
    requires t < |s.topics|
  {
    && Routed(s, r) && OtherHands(s, r, t)
    && r.topics[t].loose == s.topics[t].loose - Elems(chain)
    && r.topics[t].tickets == s.topics[t].tickets - Elems(chain)
    && (forall b :: 0 <= b < |s.epoch| ==> r.epoch[b] == s.epoch[b] + if b in chain then 1 else 0)
  }

  lemma {:induction false} FreeChainBooks(s: State, t: nat, chain: seq<Block>)
    requires Books(s) && t < |s.topics| && InHand(s.topics[t], chain)
    ensures var r := FreeChain(s, t, chain); Books(r) && Freed(s, r, t, chain)
    decreases |chain|
  {
    hide Books, GiveOne, CanGive;
    if chain != [] {
      var b, rest := chain[0], chain[1..];
      assert chain == [b] + rest;
      CanGiveLoose(s, t, b);
      GiveOneBooks(s, t, b);
      var s1 := GiveOne(s, t, b);
      assert InHand(s1.topics[t], rest) by {
        GiveOneFrame(s, t, b);
        assert b !in rest;
      }
      FreeChainBooks(s1, t, rest);
      FreedStep(s, t, b, rest, FreeChain(s1, t, rest));
    }
  }

  lemma FreedStep(s: State, t: nat, b: Block, rest: seq<Block>, r: State)
    requires CanGive(s, t, b) && b !in rest && Freed(GiveOne(s, t, b), r, t, rest)
    ensures Freed(s, r, t, [b] + rest)
  {
    GiveOneFrame(s, t, b);
    var s1 := GiveOne(s, t, b);
    assert Elems([b] + rest) == {b} + Elems(rest);
    forall u | 0 <= u < |s.topics| ensures SameReaders(s.topics[u], r.topics[u]) {
      assert SameReaders(s.topics[u], s1.topics[u]) && SameReaders(s1.topics[u], r.topics[u]);
    }
  }

  lemma TakeHeadBooks(s: State, t: nat)
    requires Books(s) && t < |s.topics| && s.topics[t].queue != []
    ensures Books(TakeHead(s, t))
    ensures InHand(TakeHead(s, t).topics[t], s.topics[t].queue[0].chain)
    ensures s.topics[t].loose !! Elems(s.topics[t].queue[0].chain)
    ensures forall b :: b in s.topics[t].queue[0].chain ==> b < |s.epoch|
  {
    var x := s.topics[t];
    var m := x.queue[0];
    HeadApart(s, t);
    var y := TakeHead(s, t).topics[t];
    DistinctSize(m.chain);
    assert |y.loose| == |x.loose| + |m.chain|;
    forall b: Block ensures InTopic(y, b) == InTopic(x, b) {
      OccursOnce(m.chain, b);
      assert InQueue(x.queue, b) == Occurs(m.chain, b) + InQueue(x.queue[1..], b);
      assert b in Elems(m.chain) <==> b in m.chain;
    }
    Rebook(s, TakeHead(s, t), t);
  }

  lemma HeadApart(s: State, t: nat)
    requires Books(s) && t < |s.topics| && s.topics[t].queue != []
    ensures Distinct(s.topics[t].queue[0].chain)
    ensures s.topics[t].loose !! Elems(s.topics[t].queue[0].chain)
    ensures forall b :: b in s.topics[t].queue[0].chain ==> b < |s.epoch|
  {
    var x := s.topics[t];
    var c := x.queue[0].chain;
    forall b | b in c ensures Occurs(c, b) == 1 && b !in x.loose && b < |s.epoch| {
      assert Occurs(c, b) >= 1;
      assert InQueue(x.queue, b) >= Occurs(c, b);
      Apart(s, t, b);
    }
    forall i, j | 0 <= i < j < |c| ensures c[i] != c[j] {
      if c[i] == c[j] { OnceOnly(c, i, j); }
    }
  }

  /** Readers and history are not part of the books. */
  lemma SameBlocks(s: State, r: State, t: nat)
    requires Books(s) && t < |s.topics| && t < |r.topics| && r.topics == s.topics[t := r.topics[t]]
    requires r.pool == s.pool && |r.epoch| == |s.epoch| && |r.cell| == |s.cell|
    requires var x, y := s.topics[t], r.topics[t];
      && y.stash == x.stash && y.loose == x.loose && y.tickets <= y.loose && y.ring == x.ring
      && y.reserve == x.reserve && y.overflow == x.overflow && y.pipe == x.pipe
      && y.lent == x.lent && y.borrowed == x.borrowed
      && |y.queue| == |x.queue| && forall i :: 0 <= i < |x.queue| ==> y.queue[i].chain == x.queue[i].chain
    ensures Books(r)
  {
    SameChains(s.topics[t].queue, r.topics[t].queue);
    Rebook(s, r, t);
  }

  /** What an eviction does: topic v loses its oldest message, whose blocks all change hands. */
  lemma EvictBooks(s: State, v: nat)
    requires Books(s) && CanEvict(s, v)
    ensures var r := Evict(s, v); var m := s.topics[v].queue[0];
      && Books(r) && OtherHands(s, r, v) && Routed(Unlinked(s, v), r)
      && r.topics[v].pipe == s.topics[v].pipe
      && r.topics[v].loose == s.topics[v].loose && r.topics[v].tickets == s.topics[v].tickets
      && (forall b :: 0 <= b < |s.epoch| ==> r.epoch[b] == s.epoch[b] + if b in m.chain then 1 else 0)
  {
    hide OnePlace, FreeChain;
    var x := s.topics[v];
    var m := x.queue[0];
    var s1 := Put(s, v, Skipped(x));
    SameBlocks(s, s1, v);
    TakeHeadBooks(s1, v);
    assert Unlinked(s, v) == TakeHead(s1, v);
    FreeChainBooks(Unlinked(s, v), v, m.chain);
    assert x.loose + Elems(m.chain) - Elems(m.chain) == x.loose;
    forall b | b in x.tickets ensures b !in Elems(m.chain) {
      assert b in x.loose;
    }
    assert x.tickets - Elems(m.chain) == x.tickets;
  }

  // --- alloc_msg ------------------------------------------------------------------------------

  /** Block b, fresh, came into topic t's hands; or nothing did. */
  ghost predicate GotOne(s: State, r: Taken, t: nat)
    requires t < |s.topics|
  {
    && OtherHands(s, r.s, t) && |r.s.epoch| == |s.epoch|
    && r.s.topics[t].pipe == s.topics[t].pipe && r.s.topics[t].tickets == s.topics[t].tickets
    && (r.block.Some? ==>
          && r.block.value < |s.epoch| && r.block.value !in s.topics[t].loose
          && r.s.topics[t].loose == s.topics[t].loose + {r.block.value})
    && (r.block.None? ==> r.s.topics[t].loose == s.topics[t].loose)
  }

  lemma {:induction false} TakeHardBooks(s: State, t: nat)
    requires Books(s) && t < |s.topics| && !s.topics[t].pipe
    ensures var r := TakeHard(s, t); Books(r.s) && GotOne(s, r, t)
    decreases SumQueued(s.topics)
  {
    hide Books, Evict, TakeOne, NextVictim, Unlinked;
    if TakeOne(s, t).block.Some? || NextVictim(s, t).None? {
      TakeOneBooks(s, t);
      TakeOneFrame(s, t);
    } else {
      var v := NextVictim(s, t).value;
      EvictShrinks(s, v);
      EvictBooks(s, v);
      var s1 := Evict(s, v);
      EvictPipe(s, v, t);
      TakeHardBooks(s1, t);
      assert OtherHands(s, TakeHard(s, t).s, t);
    }
  }

  lemma EvictPipe(s: State, v: nat, t: nat)
    requires Books(s) && CanEvict(s, v) && t < |s.topics|
    ensures |Evict(s, v).topics| == |s.topics| && |Evict(s, v).epoch| == |s.epoch|
    ensures Evict(s, v).topics[t].pipe == s.topics[t].pipe
    ensures Evict(s, v).topics[t].loose == s.topics[t].loose
    ensures Evict(s, v).topics[t].tickets == s.topics[t].tickets
  {
    EvictBooks(s, v);
    assert SameReaders(Unlinked(s, v).topics[t], Evict(s, v).topics[t]);
  }

  /** n fresh blocks came into topic t's hands in front of `chain`, or `chain` was given back too. */
  ghost predicate GotAll(s: State, r: Allocated, t: nat, n: nat, mine: set<Block>)
    requires t < |s.topics|
  {
    && OtherHands(s, r.s, t) && |r.s.epoch| == |s.epoch|
    && r.s.topics[t].tickets == s.topics[t].tickets
    && (r.chain.Some? ==>
          && |r.chain.value| == n && Distinct(r.chain.value)
          && mine !! Elems(r.chain.value) && r.s.topics[t].loose == mine + Elems(r.chain.value))
    && (r.chain.None? ==> r.s.topics[t].loose == mine)
  }

  lemma {:induction false} AllocLoopBooks(s: State, t: nat, n: nat, chain: seq<Block>, mine: set<Block>)
    requires Books(s) && t < |s.topics| && !s.topics[t].pipe && Building(s.topics[t], chain, mine)
    ensures Books(AllocLoop(s, t, n, chain).s)
    ensures GotAll(s, AllocLoop(s, t, n, chain), t, |chain| + n, mine)
    decreases n
  {
    hide Books, TakeHard, Building, GotOne, GotAll, FreeChain;
    if n == 0 {
      BuiltAll(s, t, chain, mine);
    } else {
      var r := TakeHard(s, t);
      TakeHardBooks(s, t);
      StillPipe(s, r, t, chain, mine);
      if r.block.None? {
        NoneGot(s, r.s, t, chain, mine, |chain| + n);
      } else {
        var c := [r.block.value] + chain;
        AllocLoopBooks(r.s, t, n - 1, c, mine);
        GotMore(s, r, AllocLoop(r.s, t, n - 1, c), t, |chain| + n, mine);
      }
    }
  }

  lemma BuiltAll(s: State, t: nat, chain: seq<Block>, mine: set<Block>)
    requires t < |s.topics| && Building(s.topics[t], chain, mine)
    ensures GotAll(s, Allocated(s, Some(chain)), t, |chain|, mine)
  {
  }

  /** With one block more, or none, the chain is still being built. */
  lemma StillPipe(s: State, r: Taken, t: nat, chain: seq<Block>, mine: set<Block>)
    requires t < |s.topics| && !s.topics[t].pipe && Building(s.topics[t], chain, mine) && GotOne(s, r, t)
    ensures |r.s.topics| == |s.topics| && !r.s.topics[t].pipe
    ensures r.block.Some? ==> Building(r.s.topics[t], [r.block.value] + chain, mine)
    ensures r.block.None? ==> Building(r.s.topics[t], chain, mine)
  {
    if r.block.Some? { BuildOn(s, r, t, chain, mine); }
  }

  lemma NoneGot(s: State, r: State, t: nat, chain: seq<Block>, mine: set<Block>, n: nat)
    requires t < |s.topics| && Books(r) && |r.topics| == |s.topics| && Building(r.topics[t], chain, mine) && GotOne(s, Taken(r, None), t)
    ensures Books(FreeChain(r, t, chain)) && GotAll(s, Allocated(FreeChain(r, t, chain), None), t, n, mine)
  {
    hide Books, FreeChain;
    GiveBack(r, t, chain, mine);
  }

  /** `chain` is in the topic's hands, on top of what it held before. */
  ghost predicate Building(x: Topic, chain: seq<Block>, mine: set<Block>) {
    Distinct(chain) && x.loose == mine + Elems(chain) && mine !! Elems(chain) && x.tickets <= mine
  }

  lemma BuildOn(s: State, r: Taken, t: nat, chain: seq<Block>, mine: set<Block>)
    requires t < |s.topics| && Building(s.topics[t], chain, mine) && GotOne(s, r, t) && r.block.Some?
    ensures Building(r.s.topics[t], [r.block.value] + chain, mine)
  {
    assert Elems([r.block.value] + chain) == {r.block.value} + Elems(chain);
  }

  lemma GotMore(s: State, q: Taken, r: Allocated, t: nat, n: nat, mine: set<Block>)
    requires t < |s.topics| && GotOne(s, q, t) && GotAll(q.s, r, t, n, mine)
    ensures GotAll(s, r, t, n, mine)
  {
  }

  lemma GiveBack(s: State, t: nat, chain: seq<Block>, mine: set<Block>)
    requires Books(s) && t < |s.topics| && Building(s.topics[t], chain, mine)
    ensures var r := FreeChain(s, t, chain);
      && Books(r) && OtherHands(s, r, t) && |r.epoch| == |s.epoch|
      && r.topics[t].tickets == s.topics[t].tickets && r.topics[t].loose == mine
  {
    FreeChainBooks(s, t, chain);
    assert mine + Elems(chain) - Elems(chain) == mine;
    assert s.topics[t].tickets - Elems(chain) == s.topics[t].tickets;
  }

  /** All or nothing: n fresh blocks end up in the topic's hands, or none does. */
  lemma AllocBooks(s: State, t: nat, n: nat)
    requires Books(s) && t < |s.topics| && !s.topics[t].pipe
    ensures var r := Alloc(s, t, n);
      Books(r.s) && GotAll(s, r, t, n, s.topics[t].loose)
  {
    assert Elems<Block>([]) == {};
    AllocLoopBooks(s, t, n, [], s.topics[t].loose);
  }

  // --- The reservation guarantee -------------------------------------------------------------

  /** What a topic that never borrows can count on: its stash, the pool, and what it has lent. */
  ghost function Avail(s: State, t: nat): nat
    requires t < |s.topics|
  {
    |s.topics[t].stash| + |s.pool| + s.topics[t].lent
  }

  /** Every block on loan sits in a queued message that may be evicted. */
  ghost predicate Recallable(s: State) {
    forall u :: 0 <= u < |s.topics| && s.topics[u].borrowed > 0 ==>
      s.topics[u].loose == {} && forall i :: 0 <= i < |s.topics[u].queue| ==> s.topics[u].queue[i].pins == 0
  }

  lemma GiveOneAvail(s: State, v: nat, b: Block, t: nat)
    requires CanGive(s, v, b) && t < |s.topics| && t != v
    ensures Avail(GiveOne(s, v, b), t) >= Avail(s, t)
    ensures forall u :: 0 <= u < |s.topics| ==> GiveOne(s, v, b).topics[u].borrowed <= s.topics[u].borrowed
  {
  }

  lemma {:induction false} FreeChainAvail(s: State, v: nat, chain: seq<Block>, t: nat)
    requires t < |s.topics| && t != v
    ensures var r := FreeChain(s, v, chain);
      && |r.topics| == |s.topics| && Avail(r, t) >= Avail(s, t)
      && forall u :: 0 <= u < |s.topics| ==> r.topics[u].borrowed <= s.topics[u].borrowed
    decreases |chain|
  {
    if chain != [] && CanGive(s, v, chain[0]) {
      GiveOneAvail(s, v, chain[0], t);
      FreeChainAvail(GiveOne(s, v, chain[0]), v, chain[1..], t);
    }
  }

  /** Evicting somebody else's message never costs topic t anything. */
  lemma EvictAvail(s: State, v: nat, t: nat)
    requires Books(s) && CanEvict(s, v) && t < |s.topics| && t != v && Recallable(s)
    ensures |Evict(s, v).topics| == |s.topics|
    ensures Avail(Evict(s, v), t) >= Avail(s, t) && Recallable(Evict(s, v))
    ensures SameReaders(s.topics[t], Evict(s, v).topics[t])
  {
    var m := s.topics[v].queue[0];
    var s1 := Unlinked(s, v);
    FreeChainAvail(s1, v, m.chain, t);
    EvictBooks(s, v);
    var r := Evict(s, v);
    hide Books, FreeChain;
    forall u | 0 <= u < |r.topics| && r.topics[u].borrowed > 0
      ensures r.topics[u].loose == {}
      ensures forall i :: 0 <= i < |r.topics[u].queue| ==> r.topics[u].queue[i].pins == 0
    {
      assert s.topics[u].borrowed > 0;
      assert SameReaders(s1.topics[u], r.topics[u]);
    }
  }

  /** Somebody who owes a block can be made to give it back. */
  lemma VictimExists(s: State)
    requires Books(s) && Recallable(s) && SumLent(s.topics) > 0
    ensures Victim(s, |s.topics|).Some?
  {
    var u := SomeBorrower(s.topics);
    assert TopicBooks(s.topics[u]);
    assert s.topics[u].queue != [];
    assert CanRecall(s, u);
  }

  lemma {:induction false} TakeHardDrop(s: State, t: nat)
    requires Books(s) && t < |s.topics| && !s.topics[t].pipe && s.topics[t].overflow.Drop?
    requires Recallable(s) && Avail(s, t) > 0
    ensures var r := TakeHard(s, t);
      && r.block.Some? && Avail(r.s, t) >= Avail(s, t) - 1 && Recallable(r.s)
      && r.s.topics[t].overflow.Drop? && !r.s.topics[t].pipe
    decreases SumQueued(s.topics)
  {
    hide Books, Recallable, Evict;
    TakeOneFrame(s, t);
    if TakeOne(s, t).block.None? {
      DropVictim(s, t);
      hide TakeOne;
      var v := NextVictim(s, t).value;
      EvictShrinks(s, v);
      EvictBooks(s, v);
      EvictAvail(s, v, t);
      TakeHardDrop(Evict(s, v), t);
    } else {
      TakeOneBorrows(s, t);
      assert SameReaders(s.topics[t], TakeOne(s, t).s.topics[t]);
    }
  }

  /** With nothing left but what it has lent, there is somebody to recall it from. */
  lemma DropVictim(s: State, t: nat)
    requires Books(s) && t < |s.topics| && !s.topics[t].pipe && s.topics[t].overflow.Drop?
    requires Recallable(s) && Avail(s, t) > 0 && TakeOne(s, t).block.None?
    ensures NextVictim(s, t).Some? && NextVictim(s, t).value != t
  {
    PartOfSums(s.topics, t);
    VictimExists(s);
    assert TopicBooks(s.topics[t]);
  }

  lemma TakeOneBorrows(s: State, t: nat)
    requires Books(s) && t < |s.topics| && s.topics[t].overflow.Drop? && !s.topics[t].pipe && Recallable(s)
    ensures Avail(TakeOne(s, t).s, t) >= Avail(s, t) - 1 && Recallable(TakeOne(s, t).s)
  {
    assert TopicBooks(s.topics[t]);
    var r := TakeOne(s, t).s;
    forall u | 0 <= u < |r.topics| && r.topics[u].borrowed > 0
      ensures r.topics[u].loose == {}
      ensures forall i :: 0 <= i < |r.topics[u].queue| ==> r.topics[u].queue[i].pins == 0
    {
      assert u != t && r.topics[u] == s.topics[u];
    }
  }

  lemma {:induction false} AllocLoopDrop(s: State, t: nat, n: nat, chain: seq<Block>)
    requires Books(s) && t < |s.topics| && !s.topics[t].pipe && s.topics[t].overflow.Drop?
    requires Recallable(s) && Avail(s, t) >= n
    ensures AllocLoop(s, t, n, chain).chain.Some?
    decreases n
  {
    if n > 0 {
      TakeHardDrop(s, t);
      TakeHardBooks(s, t);
      var r := TakeHard(s, t);
      AllocLoopDrop(r.s, t, n - 1, [r.block.value] + chain);
    }
  }

  /** A topic that never borrows gets its n blocks exactly when its stash, the pool and its lent
      blocks add up to n, whatever the other topics did with what they borrowed. */
  lemma AdmissionIsExact(s: State, t: nat, n: nat)
    requires Books(s) && t < |s.topics| && !s.topics[t].pipe && s.topics[t].overflow.Drop?
    requires Recallable(s)
    ensures Alloc(s, t, n).chain.Some? <==> n <= Avail(s, t)
  {
    if n <= Avail(s, t) { AllocLoopDrop(s, t, n, []); }
  }

  /** The promise of cfg.reserve: while it holds no more than its reservation, a topic always
      gets the blocks it asks for. */
  lemma ReservationGuarantee(s: State, t: nat, n: nat)
    requires Books(s) && t < |s.topics| && !s.topics[t].pipe && s.topics[t].overflow.Drop?
    requires Recallable(s)
    requires Held(s.topics[t]) + n <= s.topics[t].reserve
    ensures Alloc(s, t, n).chain.Some? && |Alloc(s, t, n).chain.value| == n
  {
    assert TopicBooks(s.topics[t]);
    AdmissionIsExact(s, t, n);
    AllocBooks(s, t, n);
  }
}
