/** Which block a topic gets, and when it gets one: the order in which take_one and give_one look, and the
    exact condition under which alloc_msg finds a block for a topic that overwrites. */
module BusAnswers {
  import opened Lists
  import opened BusState
  import opened BusOps
  import opened BusLoans
  import opened BusAlloc
  import opened BusAdmission

  // --- The order of places ------------------------------------------------------------------------------

  /** Topic l is the first in list order, but for `me`, that has an idle block. */
  ghost predicate FirstIdle(ts: seq<Topic>, me: nat, l: nat) {
    l < |ts| && l != me && ts[l].stash != [] && forall u :: l < u < |ts| && u != me ==> ts[u].stash == []
  }

  /** Topic l is the first in list order that is owed a block. */
  ghost predicate FirstOwed(ts: seq<Topic>, l: nat) {
    l < |ts| && ts[l].lent > 0 && forall u :: l < u < |ts| ==> ts[u].lent == 0
  }

  /** Only topic t, and topic l if any, changed. */
  ghost predicate OnlyThese(ts: seq<Topic>, us: seq<Topic>, t: nat, l: Option<nat>) {
    |us| == |ts| && forall u :: 0 <= u < |ts| && u != t && Some(u) != l ==> us[u] == ts[u]
  }

  /** Topic t took block b into its hands: the first of its own stash; failing that the first of the pool;
      failing that, if it overwrites, the first that the first other topic with idle blocks has, as a
      loan. There is none exactly when all of these are empty. */
  ghost predicate Took(s: State, r: State, t: nat, b: Option<Block>)
    requires t < |s.topics|
  {
    var x := s.topics[t];
    if x.stash != [] then
      && b == Some(x.stash[0]) && OnlyThese(s.topics, r.topics, t, None) && r.pool == s.pool
      && r.topics[t] == x.(stash := x.stash[1..], loose := x.loose + {x.stash[0]})
    else if s.pool != [] then
      && b == Some(s.pool[0]) && OnlyThese(s.topics, r.topics, t, None) && r.pool == s.pool[1..]
      && r.topics[t] == x.(loose := x.loose + {s.pool[0]})
    else if x.overflow.Overwrite? && exists l :: FirstIdle(s.topics, t, l) then
      exists l :: FirstIdle(s.topics, t, l) && Lent(s, r, t, l, b)
    else b.None? && r == s && (x.overflow.Overwrite? ==> forall u :: 0 <= u < |s.topics| ==> s.topics[u].stash == [])
  }

  ghost predicate Lent(s: State, r: State, t: nat, l: nat, b: Option<Block>)
    requires t < |s.topics| && l < |s.topics| && s.topics[l].stash != []
  {
    var x, y := s.topics[t], s.topics[l];
    && b == Some(y.stash[0]) && OnlyThese(s.topics, r.topics, t, Some(l)) && r.pool == s.pool
    && r.topics[l] == y.(stash := y.stash[1..], lent := y.lent + 1)
    && r.topics[t] == x.(loose := x.loose + {y.stash[0]}, borrowed := x.borrowed + 1)
  }

  lemma TakesInOrder(s: State, t: nat)
    requires t < |s.topics|
    ensures Took(s, TakeOne(s, t).s, t, TakeOne(s, t).block)
  {
    var l := Lender(s.topics, t, |s.topics|);
    if l.Some? { assert FirstIdle(s.topics, t, l.value); }
  }

  /** Block b left topic t's hands: to the first topic that is owed one if t owes any; else to its own
      stash while that and what it has lent fall short of its reservation; else to the pool. */
  ghost predicate Gave(s: State, r: State, t: nat, b: Block)
    requires t < |s.topics|
  {
    var x := s.topics[t].(loose := s.topics[t].loose - {b}, tickets := s.topics[t].tickets - {b});
    && b < |s.epoch| && r.epoch == s.epoch[b := s.epoch[b] + 1] && r.cell == s.cell
    && if x.borrowed > 0 then r.pool == s.pool && exists l :: FirstOwed(s.topics, l) && Repaid(s, r, t, l, b)
       else if |x.stash| + x.lent < x.reserve then
         r.pool == s.pool && OnlyThese(s.topics, r.topics, t, None) && r.topics[t] == x.(stash := [b] + x.stash)
       else r.pool == [b] + s.pool && OnlyThese(s.topics, r.topics, t, None) && r.topics[t] == x
  }

  ghost predicate Repaid(s: State, r: State, t: nat, l: nat, b: Block)
    requires t < |s.topics| && l < |s.topics|
  {
    && OnlyThese(s.topics, r.topics, t, Some(l))
    && r.topics[l].stash == [b] + s.topics[l].stash && r.topics[l].lent + 1 == s.topics[l].lent
    && r.topics[t].borrowed + 1 == s.topics[t].borrowed
    && r.topics[t].loose == s.topics[t].loose - {b} && r.topics[t].tickets == s.topics[t].tickets - {b}
    && (l != t ==> r.topics[l].borrowed == s.topics[l].borrowed && r.topics[l].loose == s.topics[l].loose)
    && (l != t ==> r.topics[t].stash == s.topics[t].stash && r.topics[t].lent == s.topics[t].lent)
  }

  lemma GivesInOrder(s: State, t: nat, b: Block)
    requires CanGive(s, t, b)
    ensures Gave(s, GiveOne(s, t, b), t, b)
  {
    if s.topics[t].borrowed > 0 { assert FirstOwed(s.topics, Creditor(s.topics, |s.topics|).value); }
  }

  // --- One block ----------------------------------------------------------------------------------------

  /** Somebody's oldest message can be evicted for topic t: a borrower's, if t has blocks lent out, or its
      own. */
  ghost predicate CanMakeRoom(s: State, t: nat)
    requires t < |s.topics|
  {
    CanEvict(s, t) || (s.topics[t].lent > 0 && exists u :: 0 <= u < |s.topics| && s.topics[u].borrowed > 0 && CanEvict(s, u))
  }

  ghost predicate HasBlocks(s: State) {
    forall u, j :: 0 <= u < |s.topics| && 0 <= j < |s.topics[u].queue| ==> s.topics[u].queue[j].chain != []
  }

  /** The topic whose message goes: the first borrower in list order that can spare one, if topic t has
      blocks lent out and there is such a borrower, else t itself. */
  ghost predicate GivesWay(s: State, t: nat, v: nat)
    requires t < |s.topics|
  {
    CanEvict(s, v) && if s.topics[t].lent > 0 && exists u :: CanRecall(s, u) then FirstToRecall(s, v) else v == t
  }

  ghost predicate FirstToRecall(s: State, v: nat) { CanRecall(s, v) && forall u :: v < u < |s.topics| ==> !CanRecall(s, u) }

  lemma RoomOrVictim(s: State, t: nat)
    requires t < |s.topics| && s.topics[t].overflow.Overwrite?
    ensures NextVictim(s, t).Some? <==> CanMakeRoom(s, t)
    ensures NextVictim(s, t).Some? ==> GivesWay(s, t, NextVictim(s, t).value)
  {
    if s.topics[t].lent > 0 {
      forall u | 0 <= u < |s.topics| && s.topics[u].borrowed > 0 && CanEvict(s, u) ensures CanRecall(s, u) {}
    }
  }

  /** A topic that overwrites gets a block exactly when one is free or idle, or some message can be evicted
      for it. If one is free or idle nothing is evicted; otherwise one message is, the oldest of its topic. */
  lemma {:induction false} OneBlockExactly(s: State, t: nat)
    requires Books(s) && HasBlocks(s) && t < |s.topics| && !s.topics[t].pipe && s.topics[t].overflow.Overwrite?
    ensures var r := TakeHard(s, t);
      && (r.block.Some? <==> Supply(s) > 0 || CanMakeRoom(s, t))
      && |r.s.topics| == |s.topics|
      && if Supply(s) > 0 || !CanMakeRoom(s, t) then forall u :: 0 <= u < |s.topics| ==> r.s.topics[u].queue == s.topics[u].queue
         else exists v :: 0 <= v < |s.topics| && GivesWay(s, t, v) && Kept(s, r.s, v, 1)
  {
    hide Books, Evict, Supply, CanMakeRoom, GivesWay;
    TakeOneSupply(s, t);
    SameTaken(s, t);
    RoomOrVictim(s, t);
    if TakeOne(s, t).block.None? && NextVictim(s, t).Some? {
      var v := NextVictim(s, t).value;
      EvictShrinks(s, v);
      EvictSupply(s, v);
      var s1 := Evict(s, v);
      assert Supply(s1) > 0 by { assert s.topics[v].queue[0].chain != []; }
      TakeOneSupply(s1, t);
      SameTaken(s1, t);
      assert s.topics[v].queue[1..] == TakeHard(s, t).s.topics[v].queue;
      assert Kept(s, TakeHard(s, t).s, v, 1);
    }
  }

  /** Taking a block leaves the queues alone. */
  lemma SameTaken(s: State, t: nat)
    requires t < |s.topics|
    ensures forall u :: 0 <= u < |s.topics| ==> TakeOne(s, t).s.topics[u].queue == s.topics[u].queue
    ensures |TakeOne(s, t).s.topics| == |s.topics| && (TakeOne(s, t).block.None? ==> TakeOne(s, t).s == s)
  {
    TakeOneFrame(s, t);
    forall u | 0 <= u < |s.topics| ensures SameReaders(s.topics[u], TakeOne(s, t).s.topics[u]) {}
  }

  /** ... and so does a message of one block. */
  lemma OneBlockMessage(s: State, t: nat)
    requires Books(s) && HasBlocks(s) && t < |s.topics| && !s.topics[t].pipe && s.topics[t].overflow.Overwrite?
    ensures Alloc(s, t, 1).chain.Some? <==> Supply(s) > 0 || CanMakeRoom(s, t)
  {
    OneBlockExactly(s, t);
    ReachCounted(s, t);
    hide TakeHard, Supply;
    if CanEvict(s, t) { PartOfQueue(s.topics[t].queue, 0); }
    assert AllocLoop(s, t, 1, []).chain.Some? <==> TakeHard(s, t).block.Some? by {
      var r := TakeHard(s, t);
      if r.block.Some? { assert AllocLoop(r.s, t, 0, [r.block.value] + []).chain.Some?; }
    }
  }

  // --- Any number of blocks -----------------------------------------------------------------------------

  /** The bus once topic t has taken k blocks. */
  ghost function TakenSoFar(s: State, t: nat, k: nat): (r: State)
    requires t < |s.topics|
    ensures |r.topics| == |s.topics|
    decreases k
  {
    if k == 0 then s else TakenSoFar(TakeHard(s, t).s, t, k - 1)
  }

  /** No block is free or idle, and no message can be evicted for topic t. */
  ghost predicate Stuck(s: State, t: nat)
    requires t < |s.topics|
  {
    Supply(s) == 0 && !CanMakeRoom(s, t)
  }

  ghost predicate NeverStuck(s: State, t: nat, n: nat)
    requires t < |s.topics|
  {
    forall k :: 0 <= k < n ==> !Stuck(TakenSoFar(s, t, k), t)
  }

  /** The tail of a queue of messages with blocks is one. */
  lemma StillHasBlocks(s: State, t: nat)
    requires Books(s) && HasBlocks(s) && t < |s.topics| && !s.topics[t].pipe && s.topics[t].overflow.Overwrite?
    ensures var r := TakeHard(s, t).s; Books(r) && HasBlocks(r) && |r.topics| == |s.topics| && !r.topics[t].pipe
  {
    OneBlockExactly(s, t);
    TakeHardBooks(s, t);
    hide Books, TakeHard, Supply, CanMakeRoom, GivesWay;
  }

  lemma {:induction false} TakeHardKind(s: State, t: nat)
    requires Books(s) && t < |s.topics| && !s.topics[t].pipe
    ensures TakeHard(s, t).s.topics[t].overflow == s.topics[t].overflow
    decreases SumQueued(s.topics)
  {
    hide Books, Evict, TakeOne, NextVictim;
    if TakeOne(s, t).block.Some? || NextVictim(s, t).None? {
      TakeOneFrame(s, t);
      assert SameReaders(s.topics[t], TakeOne(s, t).s.topics[t]);
    } else {
      var v := NextVictim(s, t).value;
      EvictShrinks(s, v);
      EvictSupply(s, v);
      TakeHardKind(Evict(s, v), t);
    }
  }

  lemma {:induction false} LoopExactly(s: State, t: nat, n: nat, chain: seq<Block>)
    requires Books(s) && HasBlocks(s) && t < |s.topics| && !s.topics[t].pipe && s.topics[t].overflow.Overwrite?
    ensures AllocLoop(s, t, n, chain).chain.Some? <==> NeverStuck(s, t, n)
    decreases n
  {
    if n > 0 {
      OneBlockExactly(s, t);
      StillHasBlocks(s, t);
      TakeHardKind(s, t);
      hide Books, HasBlocks, TakeHard, Stuck;
      var r := TakeHard(s, t);
      StuckFirst(s, t, n);
      assert Stuck(s, t) <==> r.block.None?;
      if r.block.Some? { LoopExactly(r.s, t, n - 1, [r.block.value] + chain); }
    }
  }

  lemma StuckFirst(s: State, t: nat, n: nat)
    requires t < |s.topics| && n > 0
    ensures NeverStuck(s, t, n) <==> !Stuck(s, t) && NeverStuck(TakeHard(s, t).s, t, n - 1)
  {
    hide TakeHard, Stuck;
    var r := TakeHard(s, t).s;
    assert TakenSoFar(s, t, 0) == s;
    forall k | 0 <= k < n - 1 ensures TakenSoFar(s, t, k + 1) == TakenSoFar(r, t, k) {}
    if !Stuck(s, t) && NeverStuck(r, t, n - 1) {
      forall k | 0 <= k < n ensures !Stuck(TakenSoFar(s, t, k), t) {
        if k > 0 { assert TakenSoFar(s, t, k) == TakenSoFar(r, t, k - 1); }
      }
    }
  }

  /** A topic that overwrites gets n blocks, whatever it has lent, exactly when that many are free, idle,
      lent or in its own messages and it is not stuck before it has them. */
  lemma {:induction false} AllocExactly(s: State, t: nat, n: nat)
    requires Books(s) && HasBlocks(s) && t < |s.topics| && !s.topics[t].pipe && s.topics[t].overflow.Overwrite?
    ensures var x := s.topics[t];
      Alloc(s, t, n).chain.Some? <==> n <= Supply(s) + x.lent + QueueLen(x.queue) && NeverStuck(s, t, n)
  {
    LoopExactly(s, t, n, []);
    StashCounts(s.topics, t);
    hide AllocLoop, NeverStuck;
  }

  /** When n blocks are got. */
  ghost predicate Answered(s: State, t: nat, n: nat, got: bool)
    requires t < |s.topics|
  {
    var x := s.topics[t];
    && (x.overflow.Drop? && Recallable(s) ==> (got <==> n <= Avail(s, t)))
    && (x.overflow.Overwrite? && n <= Reach(s, t) ==> got)
    && (x.overflow.Overwrite? && x.lent == 0 ==> (got <==> n <= Reach(s, t)))
    && (x.overflow.Overwrite? && n == 1 ==> (got <==> Supply(s) > 0 || CanMakeRoom(s, t)))
    && (x.overflow.Overwrite? ==> (got <==> n <= Supply(s) + x.lent + QueueLen(x.queue) && NeverStuck(s, t, n)))
  }

  lemma AllocAnswers(s: State, t: nat, n: nat)
    requires Books(s) && HasBlocks(s) && t < |s.topics| && !s.topics[t].pipe
    ensures Answered(s, t, n, Alloc(s, t, n).chain.Some?)
  {
    hide Books, Alloc, Reach, Supply, CanMakeRoom, HasBlocks, Recallable, NeverStuck;
    if s.topics[t].overflow.Drop? {
      if Recallable(s) { AdmissionIsExact(s, t, n); }
    } else {
      if n <= Reach(s, t) { GetsItsReach(s, t, n); }
      if s.topics[t].lent == 0 { UnlentExactly(s, t, n); }
      if n == 1 { OneBlockMessage(s, t); }
      AllocExactly(s, t, n);
    }
  }
}
