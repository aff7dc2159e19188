/** alloc_msg counts blocks before it evicts anything, so as not to evict for a message that will not fit
    after all. What an overwriting topic can be sure of is every free or idle block and those of its own
    messages up to the first pinned one; as long as it has lent nothing that is all it gets. What it has
    lent is counted on top, and may not come back to it (BusLostInVain has the runs). */
module BusAdmission {
  import opened Lists
  import opened BusState
  import opened BusOps
  import opened BusLoans
  import opened BusAlloc

  // --- What there is ------------------------------------------------------------------------------------

  lemma {:induction false} UpdateStash(ts: seq<Topic>, t: nat, x: Topic)
    requires t < |ts|
    ensures SumStash(ts[t := x]) + |ts[t].stash| == SumStash(ts) + |x.stash|
  {
    if t == 0 {
      assert ts[t := x][1..] == ts[1..];
    } else {
      UpdateStash(ts[1..], t - 1, x);
      assert ts[t := x][1..] == ts[1..][t - 1 := x];
    }
  }

  lemma {:induction false} NoStash(ts: seq<Topic>)
    requires forall u :: 0 <= u < |ts| ==> ts[u].stash == []
    ensures SumStash(ts) == 0
  {
    if ts != [] { NoStash(ts[1..]); }
  }

  lemma {:induction false} StashCounts(ts: seq<Topic>, t: nat)
    requires t < |ts|
    ensures |ts[t].stash| <= SumStash(ts)
  {
    if t > 0 { StashCounts(ts[1..], t - 1); }
  }

  /** Blocks that are free in the pool or idle in some stash. */
  ghost function Supply(s: State): nat { |s.pool| + SumStash(s.topics) }

  /** Messages at the front of a queue that nobody has pinned: what eviction can get at. */
  ghost function Loosened(q: seq<Msg>): (k: nat)
    ensures k <= |q| && (k < |q| ==> q[k].pins > 0) && forall i :: 0 <= i < k ==> q[i].pins == 0
  {
    if q == [] || q[0].pins > 0 then 0 else 1 + Loosened(q[1..])
  }

  /** What an overwriting topic can get for sure. */
  ghost function Reach(s: State, t: nat): nat
    requires t < |s.topics|
  {
    Supply(s) + QueueLen(s.topics[t].queue[..Loosened(s.topics[t].queue)])
  }

  // --- Giving and taking --------------------------------------------------------------------------------

  /** A block given back is free or idle somewhere. */
  lemma GiveOneSupply(s: State, t: nat, b: Block)
    requires CanGive(s, t, b)
    ensures Supply(GiveOne(s, t, b)) == Supply(s) + 1
    ensures s.topics[t].lent == 0 ==> GiveOne(s, t, b).topics[t].lent == 0
  {
    var x := s.topics[t].(loose := s.topics[t].loose - {b}, tickets := s.topics[t].tickets - {b});
    if x.borrowed > 0 {
      var l := Creditor(s.topics, |s.topics|).value;
      var ts := s.topics[t := x.(borrowed := x.borrowed - 1)];
      UpdateStash(s.topics, t, x.(borrowed := x.borrowed - 1));
      UpdateStash(ts, l, ts[l].(stash := [b] + ts[l].stash, lent := ts[l].lent - 1));
    } else if |x.stash| + x.lent < x.reserve {
      UpdateStash(s.topics, t, x.(stash := [b] + x.stash));
    } else {
      UpdateStash(s.topics, t, x);
    }
  }

  lemma {:induction false} FreeChainSupply(s: State, t: nat, chain: seq<Block>)
    requires Books(s) && t < |s.topics| && InHand(s.topics[t], chain)
    ensures var r := FreeChain(s, t, chain);
      && |r.topics| == |s.topics| && Supply(r) == Supply(s) + |chain|
      && (s.topics[t].lent == 0 ==> r.topics[t].lent == 0)
    decreases |chain|
  {
    hide Books, GiveOne, CanGive, Supply;
    FreeChainKeepsQueues(s, t, chain);
    if chain != [] {
      var b, rest := chain[0], chain[1..];
      assert chain == [b] + rest;
      CanGiveLoose(s, t, b);
      GiveOneBooks(s, t, b);
      GiveOneSupply(s, t, b);
      GiveOneFrame(s, t, b);
      assert InHand(GiveOne(s, t, b).topics[t], rest) by { assert b !in rest; }
      FreeChainSupply(GiveOne(s, t, b), t, rest);
    }
  }

  /** A block is taken exactly when there is one anywhere. */
  lemma TakeOneSupply(s: State, t: nat)
    requires t < |s.topics| && s.topics[t].overflow.Overwrite?
    ensures var r := TakeOne(s, t);
      && (r.block.Some? <==> Supply(s) > 0)
      && (r.block.Some? ==> Supply(r.s) == Supply(s) - 1)
      && (r.block.Some? && s.topics[t].lent == 0 ==> r.s.topics[t].lent == 0)
  {
    var x := s.topics[t];
    if x.stash != [] {
      UpdateStash(s.topics, t, x.(stash := x.stash[1..], loose := x.loose + {x.stash[0]}));
      StashCounts(s.topics, t);
    } else if s.pool != [] {
      UpdateStash(s.topics, t, x.(loose := x.loose + {s.pool[0]}));
    } else if Lender(s.topics, t, |s.topics|).Some? {
      var l := Lender(s.topics, t, |s.topics|).value;
      var y := s.topics[l];
      var z := y.(stash := y.stash[1..], lent := y.lent + 1);
      StashCounts(s.topics, l);
      UpdateStash(s.topics, l, z);
      UpdateStash(s.topics[l := z], t, x.(loose := x.loose + {y.stash[0]}, borrowed := x.borrowed + 1));
    } else {
      NoStash(s.topics);
    }
  }

  // --- Evicting -----------------------------------------------------------------------------------------

  lemma LoosenedTail(q: seq<Msg>)
    requires q != [] && q[0].pins == 0
    ensures Loosened(q) == 1 + Loosened(q[1..])
    ensures QueueLen(q[..Loosened(q)]) == |q[0].chain| + QueueLen(q[1..][..Loosened(q[1..])])
    ensures q[1..][Loosened(q[1..])..] == q[Loosened(q)..]
  {
    assert q[..Loosened(q)][1..] == q[1..][..Loosened(q[1..])];
  }

  /** An eviction turns the blocks of one message into free or idle ones; of the queues only the
      victim's changes. */
  lemma EvictSupply(s: State, v: nat)
    requires Books(s) && CanEvict(s, v)
    ensures var r := Evict(s, v);
      && Books(r) && |r.topics| == |s.topics| && Supply(r) == Supply(s) + |s.topics[v].queue[0].chain|
      && (s.topics[v].lent == 0 ==> r.topics[v].lent == 0)
      && (forall u :: 0 <= u < |s.topics| ==>
            && r.topics[u].queue == (if u == v then s.topics[v].queue[1..] else s.topics[u].queue)
            && r.topics[u].pipe == s.topics[u].pipe && r.topics[u].overflow == s.topics[u].overflow)
  {
    hide OnePlace, FreeChain, Supply;
    var x := s.topics[v];
    var c := x.queue[0].chain;
    EvictBooks(s, v);
    var s1 := Put(s, v, Skipped(x));
    SameBlocks(s, s1, v);
    TakeHeadBooks(s1, v);
    var u := Unlinked(s, v);
    assert u == TakeHead(s1, v);
    assert Supply(u) == Supply(s) by { SameSupply(s, u, v); }
    FreeChainSupply(u, v, c);
    forall w | 0 <= w < |s.topics| ensures SameReaders(u.topics[w], Evict(s, v).topics[w]) {}
  }

  lemma SameSupply(s: State, u: State, v: nat)
    requires v < |s.topics| && v < |u.topics| && u.topics == s.topics[v := u.topics[v]]
    requires u.topics[v].stash == s.topics[v].stash && u.pool == s.pool
    ensures Supply(u) == Supply(s)
  {
    UpdateStash(s.topics, v, u.topics[v]);
  }

  /** An eviction takes nothing away from what a topic can get; its own leaves it the same. */
  lemma EvictReach(s: State, v: nat, t: nat)
    requires Books(s) && CanEvict(s, v) && t < |s.topics|
    ensures |Evict(s, v).topics| == |s.topics|
    ensures Reach(Evict(s, v), t) >= Reach(s, t) && (v == t ==> Reach(Evict(s, v), t) == Reach(s, t))
  {
    hide Supply, Evict;
    EvictSupply(s, v);
    LoosenedTail(s.topics[v].queue);
  }

  // --- alloc_msg ----------------------------------------------------------------------------------------

  /** A topic that gets what it reaches, at least. */
  lemma {:induction false} TakeHardReach(s: State, t: nat)
    requires Books(s) && t < |s.topics| && !s.topics[t].pipe && s.topics[t].overflow.Overwrite? && Reach(s, t) > 0
    ensures var r := TakeHard(s, t);
      && r.block.Some? && Reach(r.s, t) >= Reach(s, t) - 1
      && !r.s.topics[t].pipe && r.s.topics[t].overflow.Overwrite?
    decreases SumQueued(s.topics)
  {
    hide Books, Evict, Supply, Loosened;
    TakeOneSupply(s, t);
    TakeOneFrame(s, t);
    assert SameReaders(s.topics[t], TakeOne(s, t).s.topics[t]);
    hide TakeOne;
    if TakeOne(s, t).block.None? {
      FrontLoose(s.topics[t].queue);
      assert CanEvict(s, t);
      assert NextVictim(s, t).Some?;
      var v := NextVictim(s, t).value;
      EvictShrinks(s, v);
      EvictSupply(s, v);
      EvictReach(s, v, t);
      TakeHardReach(Evict(s, v), t);
    }
  }

  lemma FrontLoose(q: seq<Msg>)
    ensures QueueLen(q[..Loosened(q)]) > 0 ==> q != [] && q[0].pins == 0
    ensures q == [] || q[0].pins > 0 ==> Loosened(q) == 0 && q[..Loosened(q)] == []
  {
  }

  lemma {:induction false} AllocLoopReach(s: State, t: nat, n: nat, chain: seq<Block>)
    requires Books(s) && t < |s.topics| && !s.topics[t].pipe && s.topics[t].overflow.Overwrite? && n <= Reach(s, t)
    ensures AllocLoop(s, t, n, chain).chain.Some?
    decreases n
  {
    hide Books, TakeHard, Reach;
    if n > 0 {
      TakeHardReach(s, t);
      TakeHardBooks(s, t);
      var r := TakeHard(s, t);
      AllocLoopReach(r.s, t, n - 1, [r.block.value] + chain);
    }
  }

  /** What an overwriting topic gets in any case, whatever it has lent and whoever has pinned what: every
      free or idle block, and those of its own messages up to the first pinned one. */
  lemma GetsItsReach(s: State, t: nat, n: nat)
    requires Books(s) && t < |s.topics| && !s.topics[t].pipe && s.topics[t].overflow.Overwrite? && n <= Reach(s, t)
    ensures Alloc(s, t, n).chain.Some?
  {
    AllocLoopReach(s, t, n, []);
    ReachCounted(s, t);
  }

  lemma {:induction false} FrontOfQueue(q: seq<Msg>, k: nat)
    requires k <= |q|
    ensures QueueLen(q[..k]) <= QueueLen(q)
  {
    if k > 0 {
      FrontOfQueue(q[1..], k - 1);
      assert q[..k][1..] == q[1..][..k - 1];
    }
  }

  lemma ReachCounted(s: State, t: nat)
    requires t < |s.topics| && s.topics[t].overflow.Overwrite?
    ensures Reach(s, t) <= Can(s, t) && |s.topics[t].stash| <= Supply(s) <= Reach(s, t)
  {
    FrontOfQueue(s.topics[t].queue, Loosened(s.topics[t].queue));
    StashCounts(s.topics, t);
  }

  // --- Nothing lent -------------------------------------------------------------------------------------

  /** An overwriting topic that has lent nothing. */
  ghost predicate Unlent(x: Topic) { !x.pipe && x.overflow.Overwrite? && x.lent == 0 }

  /** Messages k and on. */
  ghost predicate Kept(s: State, r: State, t: nat, k: nat)
    requires t < |s.topics|
  {
    && |r.topics| == |s.topics| && k <= |s.topics[t].queue| && r.topics[t].queue == s.topics[t].queue[k..]
    && forall u :: 0 <= u < |s.topics| && u != t ==> r.topics[u].queue == s.topics[u].queue
  }

  /** Only messages that were not pinned have gone, from the front. */
  ghost predicate SomeKept(s: State, r: State, t: nat)
    requires t < |s.topics|
  {
    exists k: nat :: k <= Loosened(s.topics[t].queue) && Kept(s, r, t, k)
  }

  lemma {:induction false} TakeHardExact(s: State, t: nat)
    requires Books(s) && t < |s.topics| && Unlent(s.topics[t])
    ensures var r := TakeHard(s, t);
      && Unlent(r.s.topics[t]) && (r.block.Some? <==> Reach(s, t) > 0)
      && (r.block.Some? ==> Reach(r.s, t) == Reach(s, t) - 1)
      && SomeKept(s, r.s, t)
      && (r.block.None? ==> Kept(s, r.s, t, Loosened(s.topics[t].queue)) && Reach(r.s, t) == 0)
    decreases SumQueued(s.topics)
  {
    hide Books, Evict, Supply, Loosened, SomeKept;
    TakeOneSupply(s, t);
    TakeOneFrame(s, t);
    SameQueuesKept(s, TakeOne(s, t).s, t);
    FrontLoose(s.topics[t].queue);
    hide TakeOne;
    if TakeOne(s, t).block.None? && NextVictim(s, t).Some? {
      EvictShrinks(s, t);
      EvictSupply(s, t);
      EvictReach(s, t, t);
      var s1 := Evict(s, t);
      TakeHardExact(s1, t);
      KeptAfter(s, s1, TakeHard(s1, t).s, t);
    }
  }

  /** One more is gone. */
  lemma KeptAfter(s: State, s1: State, r: State, t: nat)
    requires t < |s.topics| && s.topics[t].queue != [] && s.topics[t].queue[0].pins == 0
    requires Kept(s, s1, t, 1) && SomeKept(s1, r, t)
    ensures SomeKept(s, r, t)
    ensures Kept(s1, r, t, Loosened(s1.topics[t].queue)) ==> Kept(s, r, t, Loosened(s.topics[t].queue))
  {
    var q := s.topics[t].queue;
    LoosenedTail(q);
    hide Loosened;
    var k: nat :| k <= Loosened(s1.topics[t].queue) && Kept(s1, r, t, k);
    assert q[1..][k..] == q[k + 1..];
    assert Kept(s, r, t, k + 1);
  }

  lemma SameQueuesKept(s: State, r: State, t: nat)
    requires t < |s.topics| && Routed(s, r)
    ensures Kept(s, r, t, 0) && SomeKept(s, r, t) && r.topics[t].pipe == s.topics[t].pipe && r.topics[t].overflow == s.topics[t].overflow
  {
    forall u | 0 <= u < |s.topics| ensures SameReaders(s.topics[u], r.topics[u]) {}
    assert s.topics[t].queue[0..] == s.topics[t].queue;
  }

  lemma {:induction false} AllocLoopExact(s: State, t: nat, n: nat, chain: seq<Block>)
    requires Books(s) && t < |s.topics| && Unlent(s.topics[t])
    ensures var r := AllocLoop(s, t, n, chain);
      && (r.chain.Some? <==> n <= Reach(s, t))
      && (r.chain.None? ==> Kept(s, r.s, t, Loosened(s.topics[t].queue)))
    decreases n
  {
    hide Books, TakeHard, Reach, Loosened, SomeKept, Kept, FreeChain;
    if n > 0 {
      assert !s.topics[t].pipe;
      TakeHardExact(s, t);
      TakeHardBooks(s, t);
      var r := TakeHard(s, t);
      if r.block.Some? {
        AllocLoopExact(r.s, t, n - 1, [r.block.value] + chain);
        if n > Reach(s, t) { KeptOn(s, r.s, AllocLoop(s, t, n, chain).s, t); }
      } else {
        KeptFreeing(s, r.s, t, Loosened(s.topics[t].queue), chain);
      }
    }
  }

  lemma KeptFreeing(s: State, r: State, t: nat, k: nat, chain: seq<Block>)
    requires t < |s.topics| && Kept(s, r, t, k)
    ensures Kept(s, FreeChain(r, t, chain), t, k)
  {
    FreeChainKeepsQueues(r, t, chain);
  }

  lemma KeptOn(s: State, m: State, r: State, t: nat)
    requires t < |s.topics| && SomeKept(s, m, t)
    requires t < |m.topics| && Kept(m, r, t, Loosened(m.topics[t].queue))
    ensures Kept(s, r, t, Loosened(s.topics[t].queue))
  {
    hide Loosened;
    var q := s.topics[t].queue;
    var k: nat :| k <= Loosened(q) && Kept(s, m, t, k);
    LoosenedFrom(q, k);
    assert m.topics[t].queue == q[k..];
    assert q[k..][Loosened(q[k..])..] == q[Loosened(q)..];
  }

  lemma {:induction false} LoosenedFrom(q: seq<Msg>, k: nat)
    requires k <= Loosened(q)
    ensures Loosened(q) == k + Loosened(q[k..])
  {
    if k > 0 {
      LoosenedFrom(q[1..], k - 1);
      assert q[1..][k - 1..] == q[k..];
    } else {
      assert q[0..] == q;
    }
  }

  /** With nothing lent an overwriting topic gets its n blocks exactly when there are that many free, idle,
      or in its own messages before the first pinned one. When there are not, the call changes nothing if
      even the blocks behind that one would not do; otherwise the topic has lost exactly the messages
      before it, for nothing. */
  lemma {:induction false} UnlentExactly(s: State, t: nat, n: nat)
    requires Books(s) && t < |s.topics| && Unlent(s.topics[t])
    ensures Alloc(s, t, n).chain.Some? <==> n <= Reach(s, t)
    ensures n > Can(s, t) ==> Alloc(s, t, n).s == s
    ensures Reach(s, t) < n <= Can(s, t) ==> Kept(s, Alloc(s, t, n).s, t, Loosened(s.topics[t].queue))
  {
    AllocLoopExact(s, t, n, []);
    ReachCounted(s, t);
  }

  /** So with nothing lent, and nothing pinned behind a message that is not, it never evicts in vain. */
  lemma NeverInVain(s: State, t: nat, n: nat)
    requires Books(s) && t < |s.topics| && Unlent(s.topics[t])
    requires Loosened(s.topics[t].queue) == 0 || Loosened(s.topics[t].queue) == |s.topics[t].queue|
    ensures Alloc(s, t, n).chain.None? ==>
      var r := Alloc(s, t, n).s; |r.topics| == |s.topics| && r.topics[t].queue == s.topics[t].queue
  {
    var q := s.topics[t].queue;
    UnlentExactly(s, t, n);
    assert Loosened(q) == |q| ==> q[..Loosened(q)] == q;
    assert q[0..] == q;
  }
}
