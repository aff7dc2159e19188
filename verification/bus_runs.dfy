/** Every run of the bus: any interleaving of declares, subscriptions, publishers, evictions,
    pops in their three steps, peeks and releases, by any number of topics and readers. */
module BusRuns {
  import opened Lists
  import opened BusState
  import opened BusOps
  import opened BusLoans
  import opened BusAlloc
  import opened BusReaders
  import opened BusDelivery

  /** One critical section, or one block of a copy made outside of one. */
  datatype Op =
    | DeclareOp(reserve: nat, overflow: Overflow, pipe: bool)
    | SubscribeOp(t: nat)
    | UnsubscribeOp(t: nat, i: nat)
    | AllocOp(t: nat, n: nat)
    | WriteOp(t: nat, b: Block, bytes: Bytes)           // publish copies one block in
    | TicketOp(t: nat, b: Block)                        // v_bus_reserve hands the block out
    | RedeemOp(t: nat, b: Block)                        // v_bus_commit takes the ticket
    | LinkOp(t: nat, chain: seq<Block>, len: nat)       // link_msg, from publish or commit
    | FreeOp(t: nat, chain: seq<Block>)                 // free_chain of a chain in hand
    | PopStartOp(t: nat, i: nat, cap: nat)
    | PopCopyOp(t: nat, i: nat, junk: Bytes)
    | PopEndOp(t: nat, i: nat)
    | PeekOp(t: nat, i: nat)
    | ReleaseOp(t: nat, i: nat)

  /** A step of the bus. A call with arguments the C code turns down changes nothing. A pipe's
      subscription is not one of these readers, and its blocks never move (see Pipe). */
  ghost function Apply(s: State, op: Op): State {
    if !op.DeclareOp? && !(op.t < |s.topics| && !s.topics[op.t].pipe) then s
    else
      match op
      case DeclareOp(reserve, overflow, pipe) => Declare(s, reserve, overflow, pipe)
      case SubscribeOp(t) => Subscribe(s, t)
      case UnsubscribeOp(t, i) =>
        if i < |s.topics[t].subs| then Unsubscribe(s, t, i) else s
      case AllocOp(t, n) => Alloc(s, t, n).s
      case WriteOp(t, b, bytes) =>
        if b in s.topics[t].loose && b < |s.cell| then s.(cell := s.cell[b := bytes]) else s
      case TicketOp(t, b) =>
        if b in s.topics[t].loose then Ticketed(s, t, b) else s
      case RedeemOp(t, b) => Redeem(s, t, b)
      case LinkOp(t, chain, len) =>
        if CanLink(s, t, chain) then Link(s, t, chain, len) else s
      case FreeOp(t, chain) =>
        if InHand(s.topics[t], chain) then FreeChain(s, t, chain) else s
      case PopStartOp(t, i, cap) => PopStart(s, t, i, cap)
      case PopCopyOp(t, i, junk) => PopCopy(s, t, i, junk)
      case PopEndOp(t, i) => PopEnd(s, t, i)
      case PeekOp(t, i) => Peek(s, t, i)
      case ReleaseOp(t, i) => Release(s, t, i)
  }

  ghost function Redeem(s: State, t: nat, b: Block): State
    requires t < |s.topics|
  {
    Put(s, t, s.topics[t].(tickets := s.topics[t].tickets - {b}))
  }

  ghost function Ticketed(s: State, t: nat, b: Block): State
    requires t < |s.topics|
  {
    Put(s, t, s.topics[t].(tickets := s.topics[t].tickets + {b}))
  }

  /** v_bus_init over n blocks. */
  ghost function Init(n: nat): (s: State)
    ensures |s.epoch| == |s.cell| == |s.pool| == n
  {
    State(seq(n, i => i), [], seq(n, i => 0), seq(n, i => []))
  }

  ghost function Run(n: nat, ops: seq<Op>): State {
    if ops == [] then Init(n) else Apply(Run(n, ops[..|ops| - 1]), ops[|ops| - 1])
  }

  ghost predicate Laws(s: State) {
    forall t :: 0 <= t < |s.topics| ==> TopicLaw(s, s.topics[t])
  }

  ghost predicate Inv(s: State) { Books(s) && Laws(s) }

  // --- One topic changes its readers -----------------------------------------------------------

  lemma PutLaws(s: State, t: nat, z: Topic)
    requires Laws(s) && t < |s.topics| && TopicLaw(s, z)
    ensures Laws(Put(s, t, z))
  {
    var r := Put(s, t, z);
    forall u | 0 <= u < |r.topics| ensures TopicLaw(r, r.topics[u]) {
      var x := if u == t then z else s.topics[u];
      assert TopicLaw(s, x);
      UntouchedTopic(s, r, x, r.topics[u]);
    }
  }

  lemma RoutedLaws(s: State, r: State)
    requires Laws(s) && Routed(s, r)
    ensures Laws(r)
  {
    forall u | 0 <= u < |r.topics| ensures TopicLaw(r, r.topics[u]) {
      assert SameReaders(s.topics[u], r.topics[u]) && TopicLaw(s, s.topics[u]);
      UntouchedTopic(s, r, s.topics[u], r.topics[u]);
    }
  }

  lemma EvictLaws(s: State, v: nat)
    requires Inv(s) && CanEvict(s, v) && s.topics[v].overflow.Overwrite?
    ensures Inv(Evict(s, v))
  {
    var r := Evict(s, v);
    var x := s.topics[v];
    EvictBooks(s, v);
    assert TopicLaw(s, x) && MsgLaw(x, 0);
    HeadApart(s, v);
    EvictedTopic(s, r, x);
    var s1 := Unlinked(s, v);
    forall u | 0 <= u < |r.topics| ensures TopicLaw(r, r.topics[u]) {
      assert SameReaders(s1.topics[u], r.topics[u]);
      if u == v {
        UntouchedTopic(r, r, HeadTaken(Skipped(x)), r.topics[v]);
      } else {
        assert TopicLaw(s, s.topics[u]);
        UntouchedTopic(s, r, s.topics[u], r.topics[u]);
      }
    }
  }

  lemma {:induction false} TakeHardInv(s: State, t: nat)
    requires Inv(s) && t < |s.topics| && !s.topics[t].pipe
    ensures Inv(TakeHard(s, t).s)
    decreases SumQueued(s.topics)
  {
    if TakeOne(s, t).block.Some? || NextVictim(s, t).None? {
      TakeOneBooks(s, t);
      TakeOneFrame(s, t);
      RoutedLaws(s, TakeOne(s, t).s);
    } else {
      var v := NextVictim(s, t).value;
      EvictShrinks(s, v);
      assert TopicBooks(s.topics[v]);
      EvictLaws(s, v);
      EvictPipe(s, v, t);
      TakeHardInv(Evict(s, v), t);
    }
  }

  lemma {:induction false} AllocLoopInv(s: State, t: nat, n: nat, chain: seq<Block>, mine: set<Block>)
    requires Inv(s) && t < |s.topics| && !s.topics[t].pipe && Building(s.topics[t], chain, mine)
    ensures Inv(AllocLoop(s, t, n, chain).s)
    decreases n
  {
    hide Books, Laws, TakeHard;
    if n > 0 {
      var r := TakeHard(s, t);
      TakeHardInv(s, t);
      assert GotOne(s, r, t) by { TakeHardBooks(s, t); }
      if r.block.None? {
        GiveBackInv(r.s, t, chain, mine);
      } else {
        assert Building(r.s.topics[t], [r.block.value] + chain, mine) by { BuildOn(s, r, t, chain, mine); }
        AllocLoopInv(r.s, t, n - 1, [r.block.value] + chain, mine);
      }
    }
  }

  lemma GiveBackInv(s: State, t: nat, chain: seq<Block>, mine: set<Block>)
    requires Inv(s) && t < |s.topics| && Building(s.topics[t], chain, mine)
    ensures Inv(FreeChain(s, t, chain))
  {
    FreeChainBooks(s, t, chain);
    RoutedLaws(s, FreeChain(s, t, chain));
  }

  // --- Every step keeps the invariant -------------------------------------------------------------

  lemma PutInv(s: State, t: nat, z: Topic)
    requires Inv(s) && t < |s.topics| && Books(Put(s, t, z)) && TopicLaw(s, z)
    ensures Inv(Put(s, t, z))
  {
    PutLaws(s, t, z);
  }

  /** Changing readers and counts of one topic, and no block. */
  lemma ReaderStep(s: State, t: nat, z: Topic)
    requires Inv(s) && t < |s.topics| && TopicLaw(s, z)
    requires var x := s.topics[t];
      && z.stash == x.stash && z.loose == x.loose && z.tickets <= z.loose && z.ring == x.ring
      && z.reserve == x.reserve && z.overflow == x.overflow && z.pipe == x.pipe
      && z.lent == x.lent && z.borrowed == x.borrowed
      && |z.queue| == |x.queue| && forall i :: 0 <= i < |x.queue| ==> z.queue[i].chain == x.queue[i].chain
    ensures Inv(Put(s, t, z))
  {
    SameBlocks(s, Put(s, t, z), t);
    PutInv(s, t, z);
  }

  lemma ConsumeInv(s: State, t: nat, i: nat, data: seq<Bytes>)
    requires Inv(s) && t < |s.topics| && HasNext(s.topics[t], i)
    requires s.topics[t].subs[i].cur < |s.topics[t].log| && data == s.topics[t].log[s.topics[t].subs[i].cur]
    ensures Inv(Consume(s, t, i, data))
  {
    hide OnePlace, History, BytesLaw, CopyLaw;
    var x := s.topics[t];
    assert TopicLaw(s, x);
    ConsumedTopic(s, x, i, data);
    var y := Advanced(x, i, data);
    SameBlocks(s, Put(s, t, y), t);
    if Unref(Next(x, i), false).refs == 0 {
      TakeHeadBooks(Put(s, t, y), t);
      assert TakeHead(Put(s, t, y), t) == Consume(s, t, i, data);
    }
    PutInv(s, t, Consumed(x, i, data));
  }

  lemma PopEndInv(s: State, t: nat, i: nat)
    requires Inv(s)
    ensures Inv(PopEnd(s, t, i))
  {
    if t < |s.topics| && i < |s.topics[t].subs| && s.topics[t].subs[i].pop.Copying? {
      var x := s.topics[t];
      var u := x.subs[i];
      assert TopicLaw(s, x) && CopyLaw(s.epoch, x, u) && CursorLaw(x, u);
      if !Intact(s, t, i) {
        PopTopic(s, x, i, Idle);
        ReaderStep(s, t, x.(subs := x.subs[i := u.(pop := Idle)]));
      } else if HasNext(x, i) && |u.pop.buf| == |Next(x, i).chain| {
        assert BytesLaw(s.cell, x, u.cur - x.Base()) && MsgLaw(x, u.cur - x.Base());
        assert u.pop.buf == x.log[u.cur];
        ConsumeInv(s, t, i, u.pop.buf);
      }
    }
  }

  lemma PopStartInv(s: State, t: nat, i: nat, cap: nat)
    requires Inv(s)
    ensures Inv(PopStart(s, t, i, cap))
  {
    if PopStart(s, t, i, cap) != s {
      var x := s.topics[t];
      assert TopicLaw(s, x) && MsgLaw(x, x.subs[i].cur - x.Base());
      var b := Next(x, i).chain[0];
      var pop := Copying(b, s.epoch[b], []);
      PopTopic(s, x, i, pop);
      ReaderStep(s, t, x.(subs := x.subs[i := x.subs[i].(pop := pop)]));
    }
  }

  lemma PopCopyInv(s: State, t: nat, i: nat, junk: Bytes)
    requires Inv(s)
    ensures Inv(PopCopy(s, t, i, junk))
  {
    if PopCopy(s, t, i, junk) != s {
      var x := s.topics[t];
      var u := x.subs[i];
      assert TopicLaw(s, x) && CopyLaw(s.epoch, x, u) && CursorLaw(x, u);
      var pop;
      if Intact(s, t, i) && HasNext(x, i) {
        var p := u.cur - x.Base();
        assert BytesLaw(s.cell, x, p) && MsgLaw(x, p);
        pop := u.pop.(buf := u.pop.buf + [s.cell[Next(x, i).chain[|u.pop.buf|]]]);
      } else {
        pop := u.pop.(buf := u.pop.buf + [junk]);
      }
      PopTopic(s, x, i, pop);
      ReaderStep(s, t, x.(subs := x.subs[i := u.(pop := pop)]));
    }
  }

  lemma PeekInv(s: State, t: nat, i: nat)
    requires Inv(s)
    ensures Inv(Peek(s, t, i))
  {
    if Peek(s, t, i) != s {
      assert TopicLaw(s, s.topics[t]);
      PinnedTopic(s, s.topics[t], i);
      ReaderStep(s, t, Pinned(s.topics[t], i));
    }
  }

  lemma ReleaseInv(s: State, t: nat, i: nat)
    requires Inv(s)
    ensures Inv(Release(s, t, i))
  {
    if t < |s.topics| && HasNext(s.topics[t], i) && Release(s, t, i) != s {
      var x := s.topics[t];
      var p := x.subs[i].cur - x.Base();
      assert TopicLaw(s, x) && BytesLaw(s.cell, x, p) && MsgLaw(x, p);
      assert Data(s, Next(x, i).chain) == x.log[x.subs[i].cur];
      ConsumeInv(s, t, i, Data(s, Next(x, i).chain));
    }
  }

  lemma LinkInv(s: State, t: nat, chain: seq<Block>, len: nat)
    requires Inv(s) && CanLink(s, t, chain) && !s.topics[t].pipe
    ensures Inv(Link(s, t, chain, len))
  {
    var x := s.topics[t];
    if x.subs != [] {
      assert TopicLaw(s, x);
      LinkedTopic(s, x, chain, len);
      var z := Linked(x, chain, len, Data(s, chain));
      LinkBooks(s, t, chain, z);
      PutInv(s, t, z);
    }
  }

  lemma LinkBooks(s: State, t: nat, chain: seq<Block>, z: Topic)
    requires Books(s) && CanLink(s, t, chain) && !s.topics[t].pipe
    requires var x := s.topics[t];
      && z.stash == x.stash && z.ring == x.ring && z.reserve == x.reserve && z.overflow == x.overflow
      && z.pipe == x.pipe && z.lent == x.lent && z.borrowed == x.borrowed
      && z.loose == x.loose - Elems(chain) && z.tickets == x.tickets - Elems(chain)
      && |z.queue| == |x.queue| + 1 && z.queue[..|x.queue|] == x.queue && z.queue[|x.queue|].chain == chain
    ensures Books(Put(s, t, z))
  {
    var x := s.topics[t];
    var m := z.queue[|x.queue|];
    assert z.queue == x.queue + [m];
    AppendQueue(x.queue, m);
    DistinctSize(chain);
    assert x.loose == (x.loose - Elems(chain)) + Elems(chain);
    assert Held(z) == Held(x);
    forall b: Block ensures InTopic(z, b) == InTopic(x, b) {
      OccursOnce(chain, b);
      assert b in Elems(chain) <==> b in chain;
    }
    Rebook(s, Put(s, t, z), t);
  }

  lemma WriteInv(s: State, t: nat, b: Block, bytes: Bytes)
    requires Inv(s) && t < |s.topics| && b in s.topics[t].loose && b < |s.cell|
    ensures Inv(s.(cell := s.cell[b := bytes]))
  {
    var r := s.(cell := s.cell[b := bytes]);
    assert InTopic(s.topics[t], b) >= 1;
    Apart(s, t, b);
    assert forall c: Block :: Places(r, c) == Places(s, c);
    forall u | 0 <= u < |r.topics| ensures TopicLaw(r, r.topics[u]) {
      var x := s.topics[u];
      assert TopicLaw(s, x);
      assert InQueue(x.queue, b) == 0;
      forall i | 0 <= i < |x.queue| ensures BytesLaw(r.cell, x, i) {
        assert BytesLaw(s.cell, x, i);
        PartOfQueue(x.queue, i);
        assert Occurs(x.queue[i].chain, b) == 0;
      }
    }
  }

  lemma DeclareInv(s: State, reserve: nat, overflow: Overflow, pipe: bool)
    requires Inv(s)
    ensures Inv(Declare(s, reserve, overflow, pipe))
  {
    var r := Declare(s, reserve, overflow, pipe);
    if r != s {
      DeclareBooks(s, reserve, overflow, pipe);
      forall u | 0 <= u < |r.topics| ensures TopicLaw(r, r.topics[u]) {
        if u < |s.topics| {
          assert TopicLaw(s, s.topics[u]);
          UntouchedTopic(s, r, s.topics[u], r.topics[u]);
        }
      }
    }
  }

  lemma DeclareBooks(s: State, reserve: nat, overflow: Overflow, pipe: bool)
    requires Books(s) && reserve <= |s.pool| && (pipe ==> reserve > 0)
    ensures Books(Declare(s, reserve, overflow, pipe))
  {
    var r := Declare(s, reserve, overflow, pipe);
    var x := r.topics[|s.topics|];
    forall b: Block ensures Occurs(r.pool, b) + InTopic(x, b) == Occurs(s.pool, b) {
      DeclareMoves(s.pool, reserve, b);
    }
    AddTopic(s, r, x);
  }

  /** The books stay in order when a new topic starts with blocks out of the pool. */
  lemma AddTopic(s: State, r: State, x: Topic)
    requires Books(s) && r.topics == s.topics + [x] && r.epoch == s.epoch && r.cell == s.cell
    requires forall b: Block :: Occurs(r.pool, b) + InTopic(x, b) == Occurs(s.pool, b)
    requires |r.pool| + Size(x) == |s.pool| && x.lent == 0 && x.borrowed == 0 && TopicBooks(x)
    ensures Books(r)
  {
    AppendSums(s.topics, x);
    forall b: Block ensures Places(r, b) == Places(s, b) {
      assert InTopics(r.topics, b) == InTopics(s.topics, b) + InTopic(x, b);
    }
  }

  lemma DeclareMoves(pool: seq<Block>, n: nat, b: Block)
    requires n <= |pool|
    ensures Occurs(Reversed(pool[..n]), b) == Occurs(pool[..n], b)
    ensures Occurs(pool, b) == Occurs(pool[..n], b) + Occurs(pool[n..], b)
  {
    ReversedOccurs(pool[..n], b);
    assert pool == pool[..n] + pool[n..];
  }

  lemma {:induction false} ReversedOccurs(l: seq<Block>, b: Block)
    ensures Occurs(Reversed(l), b) == Occurs(l, b)
  {
    if l != [] {
      OccursHead(l, b);
      ReversedOccurs(l[1..], b);
      assert Occurs(Reversed(l[1..]) + [l[0]], b) == Occurs(Reversed(l[1..]), b) + Occurs([l[0]], b);
    }
  }

  lemma {:induction false} FreeReadInv(s: State, t: nat)
    requires Books(s) && t < |s.topics| && DrainLaw(s, s.topics[t])
    requires forall u :: 0 <= u < |s.topics| && u != t ==> TopicLaw(s, s.topics[u])
    ensures Inv(FreeRead(s, t))
    decreases |s.topics[t].queue|
  {
    var x := s.topics[t];
    if x.queue == [] || x.queue[0].refs > 0 {
      Drained(s, x);
    } else {
      var c := x.queue[0].chain;
      var s1 := TakeHead(s, t);
      TakeHeadBooks(s, t);
      FreeChainBooks(s1, t, c);
      var r := FreeChain(s1, t, c);
      forall u | 0 <= u < |r.topics| && u != t ensures TopicLaw(r, r.topics[u]) {
        assert SameReaders(s1.topics[u], r.topics[u]) && TopicLaw(s, s.topics[u]);
        UntouchedTopic(s, r, s.topics[u], r.topics[u]);
      }
      assert SameReaders(s1.topics[t], r.topics[t]);
      DrainHead(s, r, x, r.topics[t]);
      FreeReadInv(r, t);
    }
  }

  lemma UnsubscribeInv(s: State, t: nat, i: nat)
    requires Inv(s) && t < |s.topics| && i < |s.topics[t].subs|
    ensures Inv(Unsubscribe(s, t, i))
  {
    var x := s.topics[t];
    var s1 := Detached(s, t, i);
    assert TopicLaw(s, x);
    WithoutTopic(s, x, i);
    SameBlocks(s, s1, t);
    SameDrain(s, s1, s1.topics[t]);
    forall u | 0 <= u < |s1.topics| && u != t ensures TopicLaw(s1, s1.topics[u]) {
      assert TopicLaw(s, s.topics[u]);
      UntouchedTopic(s, s1, s.topics[u], s1.topics[u]);
    }
    FreeReadInv(s1, t);
  }

  lemma SameDrain(s: State, r: State, x: Topic)
    requires DrainLaw(s, x) && r.cell == s.cell && r.epoch == s.epoch
    ensures DrainLaw(r, x)
  {
    forall j | 0 <= j < |x.queue| ensures BytesLaw(r.cell, x, j) { assert BytesLaw(s.cell, x, j); }
    forall j | 0 <= j < |x.subs| ensures CopyLaw(r.epoch, x, x.subs[j]) { assert CopyLaw(s.epoch, x, x.subs[j]); }
  }

  lemma StepInv(s: State, op: Op)
    requires Inv(s)
    ensures Inv(Apply(s, op))
  {
    if op.DeclareOp? {
      DeclareInv(s, op.reserve, op.overflow, op.pipe);
    } else if op.t < |s.topics| && !s.topics[op.t].pipe {
      ReaderOpInv(s, op);
      BlockOpInv(s, op);
    }
  }

  lemma ReaderOpInv(s: State, op: Op)
    requires Inv(s) && !op.DeclareOp? && op.t < |s.topics| && !s.topics[op.t].pipe
    ensures op.SubscribeOp? || op.PopStartOp? || op.PopCopyOp? || op.PopEndOp? || op.PeekOp? || op.ReleaseOp? || op.UnsubscribeOp?
            ==> Inv(Apply(s, op))
  {
    hide Inv, PopStart, PopCopy, PopEnd, Peek, Release, Unsubscribe, Subscribe;
    var t := op.t;
    match op
    case SubscribeOp(_) => SubscribeInv(s, t);
    case UnsubscribeOp(_, i) =>
      if i < |s.topics[t].subs| { UnsubscribeInv(s, t, i); }
    case PopStartOp(_, i, cap) => PopStartInv(s, t, i, cap);
    case PopCopyOp(_, i, junk) => PopCopyInv(s, t, i, junk);
    case PopEndOp(_, i) => PopEndInv(s, t, i);
    case PeekOp(_, i) => PeekInv(s, t, i);
    case ReleaseOp(_, i) => ReleaseInv(s, t, i);
    case _ =>
  }

  lemma SubscribeInv(s: State, t: nat)
    requires Inv(s) && t < |s.topics|
    ensures Inv(Subscribe(s, t))
  {
    assert TopicLaw(s, s.topics[t]);
    JoinedTopic(s, s.topics[t]);
    ReaderStep(s, t, Joined(s.topics[t]));
  }

  lemma TicketInv(s: State, t: nat, b: Block)
    requires Inv(s) && t < |s.topics|
    ensures b in s.topics[t].loose ==> Inv(Ticketed(s, t, b))
    ensures Inv(Redeem(s, t, b))
  {
    var x := s.topics[t];
    assert TopicLaw(s, x) && TopicBooks(x);
    UntouchedTopic(s, s, x, x.(tickets := x.tickets - {b}));
    ReaderStep(s, t, x.(tickets := x.tickets - {b}));
    if b in x.loose {
      UntouchedTopic(s, s, x, x.(tickets := x.tickets + {b}));
      ReaderStep(s, t, x.(tickets := x.tickets + {b}));
    }
  }

  lemma AllocInv(s: State, t: nat, n: nat)
    requires Inv(s) && t < |s.topics| && !s.topics[t].pipe
    ensures Inv(Alloc(s, t, n).s)
  {
    assert Elems<Block>([]) == {};
    assert TopicBooks(s.topics[t]);
    AllocLoopInv(s, t, n, [], s.topics[t].loose);
  }

  lemma FreeInv(s: State, t: nat, chain: seq<Block>)
    requires Inv(s) && t < |s.topics| && InHand(s.topics[t], chain)
    ensures Inv(FreeChain(s, t, chain))
  {
    FreeChainBooks(s, t, chain);
    RoutedLaws(s, FreeChain(s, t, chain));
  }

  lemma BlockOpInv(s: State, op: Op)
    requires Inv(s) && !op.DeclareOp? && op.t < |s.topics| && !s.topics[op.t].pipe
    ensures op.AllocOp? || op.WriteOp? || op.TicketOp? || op.RedeemOp? || op.LinkOp? || op.FreeOp? ==> Inv(Apply(s, op))
  {
    hide Inv, InHand, CanLink;
    var t := op.t;
    match op
    case AllocOp(_, n) => AllocInv(s, t, n);
    case WriteOp(_, b, bytes) =>
      if b in s.topics[t].loose && b < |s.cell| { WriteInv(s, t, b, bytes); }
    case TicketOp(_, b) =>
      if b in s.topics[t].loose { TicketInv(s, t, b); }
    case RedeemOp(_, b) => TicketInv(s, t, b);
    case LinkOp(_, chain, len) =>
      if CanLink(s, t, chain) { LinkInv(s, t, chain, len); }
    case FreeOp(_, chain) =>
      if InHand(s.topics[t], chain) { FreeInv(s, t, chain); }
    case _ =>
  }

  lemma {:induction false} InitBooks(n: nat)
    ensures Inv(Init(n))
  {
    var s := Init(n);
    forall b: Block ensures Places(s, b) == if b < n then 1 else 0 {
      assert Distinct(s.pool);
      OccursOnce(s.pool, b);
      if b < n { assert s.pool[b] == b; }
    }
  }

  /** The whole invariant holds after every run. */
  lemma {:induction false} RunsKeepInv(n: nat, ops: seq<Op>)
    ensures Inv(Run(n, ops))
  {
    if ops == [] {
      InitBooks(n);
    } else {
      RunsKeepInv(n, ops[..|ops| - 1]);
      StepInv(Run(n, ops[..|ops| - 1]), ops[|ops| - 1]);
    }
  }
}
