/** Declaring a topic in memory: its reservation leaves the pool, as a stash or as a ring. */
module BusDeclareRep {
  import opened BusState
  import opened BusOps
  import opened BusLoans
  import opened BusRuns
  import opened BusRep
  import opened BusReaderRep

  /** Every topic there is is still represented. */
  ghost predicate TopicsRep(desc: seq<Desc>, size: nat, recs: seq<Rec>, ts: seq<Topic>) {
    |recs| == |ts| && forall t :: 0 <= t < |ts| ==> TopicRep(desc, size, recs[t], ts[t])
  }

  /** Writing to a block that was in the pool disturbs no topic. */
  lemma PoolWrite(c: Mem, d: Mem, s: State, b: Block)
    requires OnePlace(s) && b in s.pool && Agree(c, d, b) && TopicsRep(c.desc, c.blockSize, c.topics, s.topics)
    ensures TopicsRep(d.desc, d.blockSize, c.topics, s.topics)
  {
    hide TopicRep;
    PoolApart(s, b);
    forall t | 0 <= t < |s.topics| ensures TopicRep(d.desc, d.blockSize, c.topics[t], s.topics[t]) {
      KeepTopic(c, d, b, c.topics[t], s.topics[t]);
    }
  }

  /** After k rounds: the rest of the pool, the new stash, and everybody else. */
  ghost predicate Stashing(d: Mem, s: State, k: nat, stash: nat) {
    && k <= |s.pool| && TopicsRep(d.desc, d.blockSize, d.topics, s.topics)
    && Chained(d.desc, s.pool[k..], FREE) && d.freeHead == HeadOf(s.pool[k..])
    && Chained(d.desc, Reversed(s.pool[..k]), STASHED) && stash == HeadOf(Reversed(s.pool[..k]))
  }

  lemma {:induction false} ReversedSnoc(l: seq<Block>, b: Block)
    ensures Reversed(l + [b]) == [b] + Reversed(l)
  {
    if l == [] {
      assert [] + [b] == [b] && [b][1..] == [];
    } else {
      ReversedSnoc(l[1..], b);
      assert (l + [b])[1..] == l[1..] + [b];
    }
  }

  lemma {:induction false} ReversedElems(l: seq<Block>, b: Block)
    ensures b in Reversed(l) <==> b in l
  {
    if l != [] { ReversedElems(l[1..], b); }
  }

  lemma StashOne(c: Mem, s: State, k: nat, stash: nat, d: Mem, b: Block)
    requires Books(s) && Stashing(c, s, k, stash) && k < |s.pool| && b == c.freeHead < |c.desc|
    requires d == c.(freeHead := c.desc[b].next, desc := c.desc[b := c.desc[b].(next := stash, used := STASHED)])
    ensures Stashing(d, s, k + 1, b)
  {
    hide TopicsRep, Chained, TopicBooks;
    var l := s.pool;
    assert l[k..][0] == l[k] && l[k..][1..] == l[k + 1..] && l[..k + 1] == l[..k] + [l[k]];
    PoolDistinct(s);
    PoolWrite(c, d, s, b);
    TailChained(c.desc, l[k..], FREE);
    KeepChained(c, d, b, l[k + 1..], FREE);
    ReversedElems(l[..k], b);
    KeepChained(c, d, b, Reversed(l[..k]), STASHED);
    ConsChained(d, b, Reversed(l[..k]), STASHED);
    ReversedSnoc(l[..k], b);
  }

  /** The pipe's slots so far: each leads to the next, the last one to what is left of the pool. */
  ghost predicate Slots(desc: seq<Desc>, l: seq<Block>, k: nat) {
    k <= |l| && forall j :: 0 <= j < k ==>
      l[j] < |desc| && desc[l[j]].used == PIPE_SLOT && desc[l[j]].seqno == 1 && desc[l[j]].next == NextIn(l, j)
  }

  /** Stamped as never published: an odd stamp is nobody's 2 * seq (PipeModel.Init). */
  ghost predicate NeverUsed(desc: seq<Desc>, l: seq<Block>) {
    forall i :: 0 <= i < |l| ==> l[i] < |desc| && desc[l[i]].seqno == 1
  }

  ghost predicate Ringing(d: Mem, s: State, k: nat) {
    && k <= |s.pool| && TopicsRep(d.desc, d.blockSize, d.topics, s.topics)
    && Chained(d.desc, s.pool[k..], FREE) && d.freeHead == HeadOf(s.pool[k..])
    && Slots(d.desc, s.pool, k)
  }

  lemma RingOne(c: Mem, s: State, k: nat, d: Mem, b: Block)
    requires Books(s) && Ringing(c, s, k) && k < |s.pool| && b == c.freeHead < |c.desc|
    requires d == c.(freeHead := c.desc[b].next, desc := c.desc[b := c.desc[b].(used := PIPE_SLOT, seqno := 1)])
    ensures Ringing(d, s, k + 1)
  {
    hide TopicsRep, TopicBooks;
    var l := s.pool;
    assert l[k..][0] == l[k] && l[k..][1..] == l[k + 1..];
    assert c.desc[l[k..][0]].next == NextIn(l[k..], 0);
    PoolDistinct(s);
    PoolWrite(c, d, s, b);
    TailChained(c.desc, l[k..], FREE);
    KeepChained(c, d, b, l[k + 1..], FREE);
  }

  /** The last slot is closed onto the first. */
  lemma RingClosed(c: Mem, s: State, n: nat, d: Mem)
    requires Books(s) && Ringing(c, s, n) && 0 < n
    requires s.pool[n - 1] < |c.desc|
    requires d == c.(desc := c.desc[s.pool[n - 1] := c.desc[s.pool[n - 1]].(next := s.pool[0])])
    ensures RingRep(d.desc, s.pool[..n]) && TopicsRep(d.desc, d.blockSize, d.topics, s.topics)
    ensures Chained(d.desc, s.pool[n..], FREE) && NeverUsed(d.desc, s.pool[..n])
  {
    hide TopicsRep, TopicBooks;
    var l := s.pool;
    PoolDistinct(s);
    PoolWrite(c, d, s, l[n - 1]);
    KeepChained(c, d, l[n - 1], l[n..], FREE);
    var r := l[..n];
    forall i | 0 <= i < |r|
      ensures r[i] < |d.desc| && d.desc[r[i]].used == PIPE_SLOT && d.desc[r[i]].seqno == 1 && d.desc[r[i]].next == r[if i + 1 < |r| then i + 1 else 0]
    {
      assert r[i] == l[i] && (i != n - 1 ==> l[i] != l[n - 1]);
      assert c.desc[l[i]].next == NextIn(l, i);
    }
  }

  /** The record a declared topic starts with. */
  function NewRec(reserve: nat, overflow: Overflow, pipe: bool, stash: nat, wr: nat): Rec {
    Rec(reserve, overflow, pipe, NIL, NIL, if pipe then reserve else 0, stash, if pipe then 0 else reserve,
        0, 0, 0, if pipe then wr else 0, [])
  }

  ghost function NewTopic(reserve: nat, overflow: Overflow, pipe: bool, mine: seq<Block>): Topic {
    Topic(reserve, overflow, pipe, if pipe then [] else Reversed(mine), 0, 0, [], [],
          {}, {}, if pipe then mine else [], [], {})
  }

  lemma NewStashRep(desc: seq<Desc>, size: nat, overflow: Overflow, mine: seq<Block>, stash: nat, wr: nat)
    requires Chained(desc, Reversed(mine), STASHED) && stash == HeadOf(Reversed(mine))
    ensures TopicRep(desc, size, NewRec(|mine|, overflow, false, stash, wr), NewTopic(|mine|, overflow, false, mine))
  {
    hide Chained, RingRep, Reversed, PipeRep, QueueLen, LinkOf, HeadOf, QueueRep;
    EmptyLists(desc);
    EmptyQueueRep(desc, size);
    var r, x := NewRec(|mine|, overflow, false, stash, wr), NewTopic(|mine|, overflow, false, mine);
    assert FieldsRep(r, x) && EndsRep(r, x) && LooseRep(desc, x) && SubsRep(r, x);
    hide FieldsRep, EndsRep, LooseRep, SubsRep;
    assert x.queue == [] && x.ring == [] && x.stash == Reversed(mine);
  }

  lemma EmptyQueueRep(desc: seq<Desc>, size: nat)
    ensures QueueRep(desc, size, []) && QueueLen([]) == 0 && LinkOf([], 0) == NIL && HeadOf([]) == NIL
  {
  }

  lemma NewRingRep(desc: seq<Desc>, size: nat, overflow: Overflow, mine: seq<Block>, wr: nat)
    requires mine != [] && RingRep(desc, mine) && wr == mine[0]
    ensures TopicRep(desc, size, NewRec(|mine|, overflow, true, NIL, wr), NewTopic(|mine|, overflow, true, mine))
  {
    hide Chained, RingRep, Reversed, PipeRep;
    EmptyLists(desc);
    NewPipeRep(overflow, mine, wr);
  }

  lemma NewPipeRep(overflow: Overflow, mine: seq<Block>, wr: nat)
    requires mine != [] && wr == mine[0]
    ensures PipeRep(NewRec(|mine|, overflow, true, NIL, wr), NewTopic(|mine|, overflow, true, mine))
  {
  }

  lemma EmptyLists(desc: seq<Desc>)
    ensures Chained(desc, [], STASHED) && RingRep(desc, [])
  {
  }

  lemma DeclaredRep(c: Mem, s: State, reserve: nat, overflow: Overflow, pipe: bool, stash: nat, wr: nat, d: Mem)
    requires Books(s) && reserve <= |s.pool| && (pipe ==> reserve > 0) && |c.desc| == |s.epoch| < NIL && HDR_SIZE <= c.blockSize
    requires TopicsRep(c.desc, c.blockSize, c.topics, s.topics)
    requires Chained(c.desc, s.pool[reserve..], FREE) && c.freeHead == HeadOf(s.pool[reserve..]) && c.freeCount == |s.pool| - reserve
    requires !pipe ==> Stashing(c, s, reserve, stash)
    requires pipe ==> RingRep(c.desc, s.pool[..reserve]) && stash == NIL && wr == s.pool[0]
    requires d == c.(topics := c.topics + [NewRec(reserve, overflow, pipe, stash, wr)])
    ensures Rep(d, Declare(s, reserve, overflow, pipe))
  {
    hide Books, TopicRep, Chained, RingRep, Reversed;
    if pipe {
      NewRingRep(c.desc, c.blockSize, overflow, s.pool[..reserve], wr);
    } else {
      NewStashRep(c.desc, c.blockSize, overflow, s.pool[..reserve], stash, wr);
    }
    var r := Declare(s, reserve, overflow, pipe);
    assert r.topics == s.topics + [NewTopic(reserve, overflow, pipe, s.pool[..reserve])];
  }
}
