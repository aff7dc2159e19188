/** Two runs in which alloc_msg evicts a message and fails all the same. In one the topic has a block on
    loan, which is counted on top of its own message; but evicting the message only repays the loan. In
    the other a message behind the oldest one is pinned. */
module BusLostInVain {
  import opened Lists
  import opened BusState
  import opened BusOps
  import opened BusLoans
  import opened BusAlloc
  import opened BusRuns
  import opened BusAdmission
  import Steps

  ghost function On(s: State, ops: seq<Op>): State { Steps.On(Apply, s, ops) }

  lemma {:induction false} RunIs(n: nat, ops: seq<Op>)
    ensures Run(n, ops) == On(Init(n), ops)
    decreases |ops|
  {
    hide Apply;
    if ops != [] {
      RunIs(n, ops[..|ops| - 1]);
      Steps.OnLast(Apply, Init(n), ops);
    }
  }

  lemma RunOn(n: nat, ops: seq<Op>, more: seq<Op>)
    ensures Run(n, ops + more) == On(Run(n, ops), more)
  {
    hide Apply;
    RunIs(n, ops);
    RunIs(n, ops + more);
    Steps.OnAppend(Apply, Init(n), ops, more);
  }

  lemma Then(s: State, ops: seq<Op>, a: Op, rest: seq<Op>)
    requires ops == [a] + rest
    ensures On(s, ops) == On(Apply(s, a), rest)
  {
    hide Apply;
    Steps.OneByOne(Apply, s, ops, a, rest);
  }

  // --- A pinned message in the way ----------------------------------------------------------------------

  /** A topic without a reservation on a bus of two blocks: a message, another reader, another message,
      which that reader peeks at. */
  function PinOps(): seq<Op> {
    [DeclareOp(0, Overwrite, false), SubscribeOp(0), AllocOp(0, 1), LinkOp(0, [0], 0),
     SubscribeOp(0), AllocOp(0, 1), LinkOp(0, [1], 0), PeekOp(0, 0)]
  }

  ghost function One(pool: seq<Block>, queue: seq<Msg>, subs: seq<Sub>, loose: set<Block>, log: seq<seq<Bytes>>): State {
    State(pool, [Topic(0, Overwrite, false, [], 0, 0, queue, subs, loose, {}, [], log, {})], [0, 0], [[], []])
  }

  ghost function Reader(cur: nat, peeked: bool): Sub { Sub(cur, peeked, cur, cur, [], Idle) }

  lemma PutOne(s: State, x: Topic, y: Topic)
    requires s.topics == [x]
    ensures Put(s, 0, y) == s.(topics := [y])
  {
    assert [x][0 := y] == [y];
  }

  /** One block out of the pool. */
  lemma TakesPool(s: State, t: nat, b: Block, rest: seq<Block>)
    requires t < |s.topics| && s.topics[t].stash == [] && s.pool == [b] + rest
    ensures Alloc(s, t, 1) == Allocated(Put(s.(pool := rest), t, s.topics[t].(loose := s.topics[t].loose + {b})), Some([b]))
  {
    var r := TakeOne(s, t);
    assert s.pool[1..] == rest && s.pool[0] == b;
    assert TakeHard(s, t) == r;
    var none: seq<Block> := [];
    assert [b] + none == [b];
    assert AllocLoop(s, t, 1, none) == AllocLoop(r.s, t, 0, [b]);
    assert Can(s, t) >= 1;
  }

  /** A message of one block. */
  lemma LinksOne(s: State, t: nat, b: Block)
    requires t < |s.topics| && b in s.topics[t].loose && b < |s.cell| && s.cell[b] == [] && s.topics[t].subs != []
    ensures CanLink(s, t, [b])
    ensures Link(s, t, [b], 0) == Put(s, t, s.topics[t].(
      queue := s.topics[t].queue + [Msg([b], |s.topics[t].log|, 0, |s.topics[t].subs|, 0)], log := s.topics[t].log + [[[]]],
      loose := s.topics[t].loose - {b}, tickets := s.topics[t].tickets - {b}))
  {
    assert Elems([b]) == {b};
    assert Data(s, [b]) == [[]];
  }

  lemma PinDeclare()
    ensures On(Init(2), [DeclareOp(0, Overwrite, false), SubscribeOp(0)]) == One([0, 1], [], [Reader(0, false)], {}, [])
  {
    var s := Init(2);
    Then(s, [DeclareOp(0, Overwrite, false), SubscribeOp(0)], DeclareOp(0, Overwrite, false), [SubscribeOp(0)]);
    var s1 := One([0, 1], [], [], {}, []);
    assert s.pool[0..] == s.pool == [0, 1] && Reversed(s.pool[..0]) == [];
    assert s.topics + s1.topics == s1.topics;
    assert s.epoch == [0, 0] && s.cell == [[], []];
    assert Apply(s, DeclareOp(0, Overwrite, false)) == s1;
    Then(s1, [SubscribeOp(0)], SubscribeOp(0), []);
    var x := s1.topics[0];
    assert [Reader(0, false)] + x.subs == [Reader(0, false)];
    PutOne(s1, x, Joined(x));
  }

  lemma PinFirst()
    ensures On(One([0, 1], [], [Reader(0, false)], {}, []), [AllocOp(0, 1), LinkOp(0, [0], 0)])
      == One([1], [Msg([0], 0, 0, 1, 0)], [Reader(0, false)], {}, [[[]]])
  {
    hide Alloc, Link, CanLink;
    var s := One([0, 1], [], [Reader(0, false)], {}, []);
    var x := s.topics[0];
    Then(s, [AllocOp(0, 1), LinkOp(0, [0], 0)], AllocOp(0, 1), [LinkOp(0, [0], 0)]);
    var s1 := One([1], [], [Reader(0, false)], {0}, []);
    TakesPool(s, 0, 0, [1]);
    assert x.loose + {0} == {0};
    PutOne(s.(pool := [1]), x, x.(loose := {0}));
    assert Apply(s, AllocOp(0, 1)) == s1;
    Then(s1, [LinkOp(0, [0], 0)], LinkOp(0, [0], 0), []);
    LinksOne(s1, 0, 0);
    var y := s1.topics[0];
    var none: set<Block> := {};
    assert y.loose - {0} == none && none - {0} == none;
    var m := Msg([0], 0, 0, 1, 0);
    assert y.queue + [m] == [m] && y.log + [[[]]] == [[[]]];
    PutOne(s1, y, y.(queue := [m], log := [[[]]], loose := {}));
  }

  lemma PinSecond()
    ensures On(One([1], [Msg([0], 0, 0, 1, 0)], [Reader(0, false)], {}, [[[]]]), [SubscribeOp(0), AllocOp(0, 1), LinkOp(0, [1], 0)])
      == One([], [Msg([0], 0, 0, 1, 0), Msg([1], 1, 0, 2, 0)], [Reader(1, false), Reader(0, false)], {}, [[[]], [[]]])
  {
    hide Alloc, Link, CanLink;
    var q, both := [Msg([0], 0, 0, 1, 0)], [Reader(1, false), Reader(0, false)];
    var s0 := One([1], q, [Reader(0, false)], {}, [[[]]]);
    Then(s0, [SubscribeOp(0), AllocOp(0, 1), LinkOp(0, [1], 0)], SubscribeOp(0), [AllocOp(0, 1), LinkOp(0, [1], 0)]);
    var s := One([1], q, both, {}, [[[]]]);
    var x := s.topics[0];
    assert [Reader(1, false)] + s0.topics[0].subs == both;
    PutOne(s0, s0.topics[0], Joined(s0.topics[0]));
    assert Apply(s0, SubscribeOp(0)) == s;
    Then(s, [AllocOp(0, 1), LinkOp(0, [1], 0)], AllocOp(0, 1), [LinkOp(0, [1], 0)]);
    var s1 := One([], q, both, {1}, [[[]]]);
    TakesPool(s, 0, 1, []);
    assert x.loose + {1} == {1};
    PutOne(s.(pool := []), x, x.(loose := {1}));
    assert Apply(s, AllocOp(0, 1)) == s1;
    Then(s1, [LinkOp(0, [1], 0)], LinkOp(0, [1], 0), []);
    LinksOne(s1, 0, 1);
    var y := s1.topics[0];
    var none: set<Block> := {};
    assert y.loose - {1} == none && none - {1} == none;
    var m := Msg([1], 1, 0, 2, 0);
    assert y.queue + [m] == [Msg([0], 0, 0, 1, 0), m] && y.log + [[[]]] == [[[]], [[]]];
    PutOne(s1, y, y.(queue := y.queue + [m], log := y.log + [[[]]], loose := {}));
  }

  ghost function PinnedState(): State {
    One([], [Msg([0], 0, 0, 1, 0), Msg([1], 1, 0, 2, 1)], [Reader(1, true), Reader(0, false)], {}, [[[]], [[]]])
  }

  lemma PinLast()
    ensures On(One([], [Msg([0], 0, 0, 1, 0), Msg([1], 1, 0, 2, 0)], [Reader(1, false), Reader(0, false)], {}, [[[]], [[]]]), [PeekOp(0, 0)])
      == PinnedState()
  {
    var s := One([], [Msg([0], 0, 0, 1, 0), Msg([1], 1, 0, 2, 0)], [Reader(1, false), Reader(0, false)], {}, [[[]], [[]]]);
    Then(s, [PeekOp(0, 0)], PeekOp(0, 0), []);
    var x := s.topics[0];
    assert x.queue[1 := Msg([1], 1, 0, 2, 1)] == [Msg([0], 0, 0, 1, 0), Msg([1], 1, 0, 2, 1)];
    assert x.subs[0 := Reader(1, true)] == [Reader(1, true), Reader(0, false)];
    PutOne(s, x, Pinned(x, 0));
  }

  lemma PinReached()
    ensures Run(2, PinOps()) == PinnedState()
  {
    hide One, PinnedState, Apply;
    var a := [DeclareOp(0, Overwrite, false), SubscribeOp(0)];
    var b, c := [AllocOp(0, 1), LinkOp(0, [0], 0)], [SubscribeOp(0), AllocOp(0, 1), LinkOp(0, [1], 0)];
    RunOn(2, [], a);
    assert [] + a == a;
    PinDeclare();
    RunOn(2, a, b);
    PinFirst();
    RunOn(2, a + b, c);
    PinSecond();
    RunOn(2, a + b + c, [PeekOp(0, 0)]);
    PinLast();
    assert PinOps() == a + b + c + [PeekOp(0, 0)];
  }

  /** Two blocks are asked for, and two are counted; the oldest message goes, the other one is pinned. */
  lemma {:induction false} PinnedInVain()
    ensures var s := Run(2, PinOps());
      && Inv(s) && |s.topics| == 1 && Unlent(s.topics[0]) && |s.topics[0].queue| == 2 && Can(s, 0) == 2
      && Alloc(s, 0, 2).chain.None?
      && var r := Alloc(s, 0, 2).s; |r.topics| == 1 && r.topics[0].queue == s.topics[0].queue[1..]
  {
    PinReached();
    RunsKeepInv(2, PinOps());
    var s := Run(2, PinOps());
    var q := s.topics[0].queue;
    assert q[1..][1..] == [] && Loosened(q[1..]) == 0 && Loosened(q) == 1;
    assert q[..1][1..] == [];
    assert s.topics[1..] == [];
    assert Reach(s, 0) == 1 && Can(s, 0) == 2;
    hide Inv;
    BooksOf(s);
    UnlentExactly(s, 0, 2);
  }

  lemma BooksOf(s: State)
    requires Inv(s)
    ensures Books(s)
  {
  }

  // --- A loan counted twice -----------------------------------------------------------------------------

  /** Three blocks. X and T reserve one each, Y none. X's publisher takes two blocks; Y publishes, in T's
      block; X's reader leaves before X's message is linked, so it is freed; T publishes, in a block from
      the pool. */
  function LoanOps(): seq<Op> { Setting() + Lending() + Returning() + [AllocOp(2, 1), LinkOp(2, [0], 0)] }

  function Setting(): seq<Op> {
    [DeclareOp(1, Overwrite, false), DeclareOp(0, Overwrite, false), DeclareOp(1, Overwrite, false),
     SubscribeOp(0), SubscribeOp(1), SubscribeOp(2)]
  }

  function Lending(): seq<Op> { [AllocOp(0, 2), AllocOp(1, 1), LinkOp(1, [1], 0)] }

  function Returning(): seq<Op> { [UnsubscribeOp(0, 0), LinkOp(0, [2, 0], 0), FreeOp(0, [2, 0])] }

  ghost function Top(reserve: nat, stash: seq<Block>, lent: nat, borrowed: nat, queue: seq<Msg>, subs: seq<Sub>, loose: set<Block>): Topic {
    Topic(reserve, Overwrite, false, stash, lent, borrowed, queue, subs, loose, {}, [], seq(|queue|, i => [[]]), {})
  }

  ghost function Tri(pool: seq<Block>, x: Topic, y: Topic, z: Topic, epoch: seq<nat>): State {
    State(pool, [x, y, z], epoch, [[], [], []])
  }

  lemma PutTri(s: State, x: Topic, y: Topic, z: Topic, w: Topic)
    requires s.topics == [x, y, z]
    ensures Put(s, 0, w) == s.(topics := [w, y, z]) && Put(s, 1, w) == s.(topics := [x, w, z]) && Put(s, 2, w) == s.(topics := [x, y, w])
    ensures SumStash(s.topics) == |x.stash| + |y.stash| + |z.stash|
  {
    assert [x, y, z][0 := w] == [w, y, z] && [x, y, z][1 := w] == [x, w, z] && [x, y, z][2 := w] == [x, y, w];
    assert [x, y, z][1..] == [y, z] && [y, z][1..] == [z] && [z][1..] == [];
    assert SumStash([]) == 0 && SumStash([z]) == |z.stash| && SumStash([y, z]) == |y.stash| + |z.stash|;
  }

  ghost function Heard(cur: nat): seq<Sub> { [Reader(cur, false)] }

  lemma Declares(s: State, reserve: nat, mine: seq<Block>, rest: seq<Block>, ops: seq<Op>, more: seq<Op>)
    requires s.pool == mine + rest && |mine| == reserve <= 1 && ops == [DeclareOp(reserve, Overwrite, false)] + more
    ensures On(s, ops) == On(s.(pool := rest, topics := s.topics + [Top(reserve, mine, 0, 0, [], [], {})]), more)
  {
    Then(s, ops, DeclareOp(reserve, Overwrite, false), more);
    assert s.pool[..reserve] == mine && s.pool[reserve..] == rest;
    var x := Top(reserve, mine, 0, 0, [], [], {});
    assert x.log == [];
    assert Reversed(mine) == mine by { if mine != [] { assert mine[1..] == [] && [mine[0]] == mine; } }
  }

  lemma Fresh()
    ensures Init(3) == State([0, 1, 2], [], [0, 0, 0], [[], [], []])
  {
    var s := Init(3);
    assert s.pool == [0, 1, 2] && s.epoch == [0, 0, 0] && s.cell == [[], [], []];
  }

  lemma Set()
    ensures On(Init(3), Setting()) == Tri([2], Top(1, [0], 0, 0, [], Heard(0), {}), Top(0, [], 0, 0, [], Heard(0), {}), Top(1, [1], 0, 0, [], Heard(0), {}), [0, 0, 0])
  {
    Fresh();
    hide On, Apply, Heard, Top, Init;
    var subs := [SubscribeOp(0), SubscribeOp(1), SubscribeOp(2)];
    var d, e := DeclareOp(1, Overwrite, false), DeclareOp(0, Overwrite, false);
    var x, y, z := Top(1, [0], 0, 0, [], [], {}), Top(0, [], 0, 0, [], [], {}), Top(1, [1], 0, 0, [], [], {});
    var none: seq<Topic> := [];
    assert Setting() == [d] + ([e, d] + subs) && [e, d] + subs == [e] + ([d] + subs);
    assert [0, 1, 2] == [0] + [1, 2] && [1, 2] == [1] + [2];
    assert none + [x] == [x] && [x] + [y] == [x, y] && [x, y] + [z] == [x, y, z];
    Declares(State([0, 1, 2], [], [0, 0, 0], [[], [], []]), 1, [0], [1, 2], Setting(), [e, d] + subs);
    Declares(State([1, 2], [x], [0, 0, 0], [[], [], []]), 0, [], [1, 2], [e, d] + subs, [d] + subs);
    Declares(State([1, 2], [x, y], [0, 0, 0], [[], [], []]), 1, [1], [2], [d] + subs, subs);
    Subscribed([2], [0], [1], [0, 0, 0]);
  }

  lemma Subscribed(pool: seq<Block>, a: seq<Block>, b: seq<Block>, epoch: seq<nat>)
    ensures On(Tri(pool, Top(1, a, 0, 0, [], [], {}), Top(0, [], 0, 0, [], [], {}), Top(1, b, 0, 0, [], [], {}), epoch),
               [SubscribeOp(0), SubscribeOp(1), SubscribeOp(2)])
      == Tri(pool, Top(1, a, 0, 0, [], Heard(0), {}), Top(0, [], 0, 0, [], Heard(0), {}), Top(1, b, 0, 0, [], Heard(0), {}), epoch)
  {
    var x, y, z := Top(1, a, 0, 0, [], [], {}), Top(0, [], 0, 0, [], [], {}), Top(1, b, 0, 0, [], [], {});
    var s := Tri(pool, x, y, z, epoch);
    var none: seq<Sub> := [];
    assert [Reader(0, false)] + none == Heard(0);
    Then(s, [SubscribeOp(0), SubscribeOp(1), SubscribeOp(2)], SubscribeOp(0), [SubscribeOp(1), SubscribeOp(2)]);
    PutTri(s, x, y, z, x.(subs := Heard(0)));
    var s1 := Tri(pool, x.(subs := Heard(0)), y, z, epoch);
    assert Apply(s, SubscribeOp(0)) == s1;
    Then(s1, [SubscribeOp(1), SubscribeOp(2)], SubscribeOp(1), [SubscribeOp(2)]);
    PutTri(s1, s1.topics[0], y, z, y.(subs := Heard(0)));
    var s2 := Tri(pool, x.(subs := Heard(0)), y.(subs := Heard(0)), z, epoch);
    assert Apply(s1, SubscribeOp(1)) == s2;
    Then(s2, [SubscribeOp(2)], SubscribeOp(2), []);
    PutTri(s2, s2.topics[0], s2.topics[1], z, z.(subs := Heard(0)));
  }

  // --- The loan and the return --------------------------------------------------------------------------

  lemma TakesTwo()
    ensures var y, z := Top(0, [], 0, 0, [], Heard(0), {}), Top(1, [1], 0, 0, [], Heard(0), {});
      Alloc(Tri([2], Top(1, [0], 0, 0, [], Heard(0), {}), y, z, [0, 0, 0]), 0, 2)
      == Allocated(Tri([], Top(1, [], 0, 0, [], Heard(0), {0, 2}), y, z, [0, 0, 0]), Some([2, 0]))
  {
    var x, y, z := Top(1, [0], 0, 0, [], Heard(0), {}), Top(0, [], 0, 0, [], Heard(0), {}), Top(1, [1], 0, 0, [], Heard(0), {});
    var s := Tri([2], x, y, z, [0, 0, 0]);
    var x1, x2 := Top(1, [], 0, 0, [], Heard(0), {0}), Top(1, [], 0, 0, [], Heard(0), {0, 2});
    assert x.loose + {0} == {0} && {0} + {2} == {0, 2} && [0][1..] == [] && [2][1..] == [];
    PutTri(s, x, y, z, x1);
    var s1 := Tri([2], x1, y, z, [0, 0, 0]);
    assert TakeHard(s, 0) == Taken(s1, Some(0));
    PutTri(s1.(pool := []), x1, y, z, x2);
    var s2 := Tri([], x2, y, z, [0, 0, 0]);
    assert TakeHard(s1, 0) == Taken(s2, Some(2));
    assert [2] + ([0] + []) == [2, 0];
    assert AllocLoop(s, 0, 2, []) == AllocLoop(s1, 0, 1, [0] + []);
    assert AllocLoop(s1, 0, 1, [0] + []) == AllocLoop(s2, 0, 0, [2] + ([0] + []));
  }

  lemma Borrows()
    ensures var x := Top(1, [], 0, 0, [], Heard(0), {0, 2});
      Alloc(Tri([], x, Top(0, [], 0, 0, [], Heard(0), {}), Top(1, [1], 0, 0, [], Heard(0), {}), [0, 0, 0]), 1, 1)
      == Allocated(Tri([], x, Top(0, [], 0, 1, [], Heard(0), {1}), Top(1, [], 1, 0, [], Heard(0), {}), [0, 0, 0]), Some([1]))
  {
    var x, y, z := Top(1, [], 0, 0, [], Heard(0), {0, 2}), Top(0, [], 0, 0, [], Heard(0), {}), Top(1, [1], 0, 0, [], Heard(0), {});
    var s := Tri([], x, y, z, [0, 0, 0]);
    var y1, z1 := Top(0, [], 0, 1, [], Heard(0), {1}), Top(1, [], 1, 0, [], Heard(0), {});
    assert Lender(s.topics, 1, 3) == Some(2);
    assert y.loose + {1} == {1} && [1][1..] == [];
    PutTri(s, x, y, z, z1);
    PutTri(s.(topics := [x, y, z1]), x, y, z1, y1);
    var s1 := Tri([], x, y1, z1, [0, 0, 0]);
    assert TakeHard(s, 1) == Taken(s1, Some(1));
    var none: seq<Block> := [];
    assert [1] + none == [1];
    assert AllocLoop(s, 1, 1, none) == AllocLoop(s1, 1, 0, [1]);
  }

  ghost function M(b: Block): seq<Msg> { [Msg([b], 0, 0, 1, 0)] }

  ghost function YLent(): Topic { Top(0, [], 0, 1, M(1), Heard(0), {}) }

  ghost function Owed(queue: seq<Msg>, loose: set<Block>): Topic { Top(1, [], 1, 0, queue, Heard(0), loose) }

  /** A topic with one block in hand links it as its first message. */
  lemma LinksFirst(s: State, t: nat, b: Block)
    requires t < |s.topics| && b < |s.cell| && s.cell[b] == []
    requires var x := s.topics[t]; x == Top(x.reserve, x.stash, x.lent, x.borrowed, [], Heard(0), {b})
    ensures var x := s.topics[t];
      CanLink(s, t, [b]) && Link(s, t, [b], 0) == Put(s, t, Top(x.reserve, x.stash, x.lent, x.borrowed, M(b), Heard(0), {}))
  {
    var x := s.topics[t];
    LinksOne(s, t, b);
    var none: set<Block> := {};
    assert x.loose - {b} == none && none - {b} == none;
    assert x.queue + M(b) == M(b);
    assert x.log == [] && x.log + [[[]]] == seq(1, i => [[]]);
  }

  lemma Lent()
    ensures On(Tri([2], Top(1, [0], 0, 0, [], Heard(0), {}), Top(0, [], 0, 0, [], Heard(0), {}), Top(1, [1], 0, 0, [], Heard(0), {}), [0, 0, 0]), Lending())
      == Tri([], Top(1, [], 0, 0, [], Heard(0), {0, 2}), YLent(), Owed([], {}), [0, 0, 0])
  {
    hide Alloc, Link, CanLink, Top, YLent;
    var x, z := Top(1, [], 0, 0, [], Heard(0), {0, 2}), Top(1, [1], 0, 0, [], Heard(0), {});
    var s := Tri([2], Top(1, [0], 0, 0, [], Heard(0), {}), Top(0, [], 0, 0, [], Heard(0), {}), z, [0, 0, 0]);
    NoPipes();
    TakesTwo();
    Then(s, Lending(), AllocOp(0, 2), [AllocOp(1, 1), LinkOp(1, [1], 0)]);
    var s1 := Tri([], x, Top(0, [], 0, 0, [], Heard(0), {}), z, [0, 0, 0]);
    Borrows();
    Then(s1, [AllocOp(1, 1), LinkOp(1, [1], 0)], AllocOp(1, 1), [LinkOp(1, [1], 0)]);
    var y := Top(0, [], 0, 1, [], Heard(0), {1});
    var s2 := Tri([], x, y, Owed([], {}), [0, 0, 0]);
    assert Owed([], {}) == Top(1, [], 1, 0, [], Heard(0), {});
    Then(s2, [LinkOp(1, [1], 0)], LinkOp(1, [1], 0), []);
    LinkY(s2, x);
  }

  lemma NoPipes()
    ensures forall r, st, l, b, q, u, h :: !Top(r, st, l, b, q, u, h).pipe
  {
  }

  lemma LinkY(s: State, x: Topic)
    requires s == Tri([], x, Top(0, [], 0, 1, [], Heard(0), {1}), Owed([], {}), [0, 0, 0])
    ensures Apply(s, LinkOp(1, [1], 0)) == Tri([], x, YLent(), Owed([], {}), [0, 0, 0])
  {
    LinksFirst(s, 1, 1);
    PutTri(s, x, s.topics[1], s.topics[2], YLent());
  }

  /** X's reader leaves; X's blocks come back, one to its stash and one to the pool. */
  lemma Returned()
    ensures On(Tri([], Top(1, [], 0, 0, [], Heard(0), {0, 2}), YLent(), Owed([], {}), [0, 0, 0]), Returning())
      == Tri([0], Top(1, [2], 0, 0, [], [], {}), YLent(), Owed([], {}), [1, 0, 1])
  {
    hide Link, FreeChain, YLent, Owed, Unsubscribe;
    var y, z := YLent(), Owed([], {});
    var x, x1 := Top(1, [], 0, 0, [], Heard(0), {0, 2}), Top(1, [], 0, 0, [], [], {0, 2});
    var s, s1 := Tri([], x, y, z, [0, 0, 0]), Tri([], x1, y, z, [0, 0, 0]);
    Then(s, Returning(), UnsubscribeOp(0, 0), [LinkOp(0, [2, 0], 0), FreeOp(0, [2, 0])]);
    Leaves(y, z);
    assert Apply(s, UnsubscribeOp(0, 0)) == s1;
    Then(s1, [LinkOp(0, [2, 0], 0), FreeOp(0, [2, 0])], LinkOp(0, [2, 0], 0), [FreeOp(0, [2, 0])]);
    assert Apply(s1, LinkOp(0, [2, 0], 0)) == s1 by { NoReader(s1); }
    Then(s1, [FreeOp(0, [2, 0])], FreeOp(0, [2, 0]), []);
    assert InHand(x1, [2, 0]);
    FreesTwo(s1, y, z);
  }

  lemma Leaves(y: Topic, z: Topic)
    ensures Unsubscribe(Tri([], Top(1, [], 0, 0, [], Heard(0), {0, 2}), y, z, [0, 0, 0]), 0, 0)
      == Tri([], Top(1, [], 0, 0, [], [], {0, 2}), y, z, [0, 0, 0])
  {
    var x, x1 := Top(1, [], 0, 0, [], Heard(0), {0, 2}), Top(1, [], 0, 0, [], [], {0, 2});
    assert x.subs[..0] + x.subs[1..] == [];
    assert Disclaim(x.queue, 0, false) == [];
    PutTri(Tri([], x, y, z, [0, 0, 0]), x, y, z, x1);
  }

  lemma NoReader(s: State)
    requires s.topics != [] && s.topics[0].subs == []
    ensures Apply(s, LinkOp(0, [2, 0], 0)) == s
  {
  }

  lemma FreesTwo(s: State, y: Topic, z: Topic)
    requires s == Tri([], Top(1, [], 0, 0, [], [], {0, 2}), y, z, [0, 0, 0])
    ensures FreeChain(s, 0, [2, 0]) == Tri([0], Top(1, [2], 0, 0, [], [], {}), y, z, [1, 0, 1])
  {
    var x, x1, x2 := Top(1, [], 0, 0, [], [], {0, 2}), Top(1, [2], 0, 0, [], [], {0}), Top(1, [2], 0, 0, [], [], {});
    assert [2, 0][1..] == [0] && [0][1..] == [];
    var none: set<Block> := {};
    assert x.loose - {2} == {0} && {0} - {0} == none && none - {0} == none && none - {2} == none;
    var no: seq<Block> := [];
    assert [2] + no == [2] && [0] + no == [0];
    assert [0, 0, 0][2 := 1] == [0, 0, 1] && [0, 0, 1][0 := 1] == [1, 0, 1];
    PutTri(s.(epoch := [0, 0, 1]), x, y, z, x1);
    var s1 := Tri([], x1, y, z, [0, 0, 1]);
    assert GiveOne(s, 0, 2) == s1;
    PutTri(s1.(epoch := [1, 0, 1]), x1, y, z, x2);
    assert GiveOne(s1, 0, 0) == Tri([0], x2, y, z, [1, 0, 1]);
    assert FreeChain(s, 0, [2, 0]) == FreeChain(s1, 0, [0]);
  }

  ghost function LoanState(): State { Tri([], Top(1, [2], 0, 0, [], [], {}), YLent(), Owed(M(0), {}), [1, 0, 1]) }

  lemma Last()
    ensures On(Tri([0], Top(1, [2], 0, 0, [], [], {}), YLent(), Owed([], {}), [1, 0, 1]), [AllocOp(2, 1), LinkOp(2, [0], 0)]) == LoanState()
  {
    hide Alloc, Link, CanLink, YLent;
    var x, y, z := Top(1, [2], 0, 0, [], [], {}), YLent(), Owed([], {});
    var s := Tri([0], x, y, z, [1, 0, 1]);
    Then(s, [AllocOp(2, 1), LinkOp(2, [0], 0)], AllocOp(2, 1), [LinkOp(2, [0], 0)]);
    TakesPool(s, 2, 0, []);
    assert z.loose + {0} == {0};
    PutTri(s.(pool := []), x, y, z, Owed([], {0}));
    var s1 := Tri([], x, y, Owed([], {0}), [1, 0, 1]);
    assert Apply(s, AllocOp(2, 1)) == s1;
    Then(s1, [LinkOp(2, [0], 0)], LinkOp(2, [0], 0), []);
    LinksFirst(s1, 2, 0);
    PutTri(s1, x, y, Owed([], {0}), Owed(M(0), {}));
  }

  lemma LoanReached()
    ensures Run(3, LoanOps()) == LoanState()
  {
    hide Tri, LoanState, Apply, On, Top, YLent, Owed, Setting, Lending, Returning;
    var last := [AllocOp(2, 1), LinkOp(2, [0], 0)];
    RunOn(3, [], Setting());
    assert [] + Setting() == Setting();
    Set();
    RunOn(3, Setting(), Lending());
    Lent();
    RunOn(3, Setting() + Lending(), Returning());
    Returned();
    RunOn(3, Setting() + Lending() + Returning(), last);
    Last();
  }

  // --- What comes of it ---------------------------------------------------------------------------------

  ghost function XLent(): Topic { Top(1, [], 1, 0, [], [], {}) }

  ghost function TFirst(): Topic { Top(1, [], 1, 1, M(0), Heard(0), {2}) }

  ghost function TAfter(stash: seq<Block>, lent: nat, borrowed: nat, loose: set<Block>): Topic {
    Topic(1, Overwrite, false, stash, lent, borrowed, [], [Sub(1, false, 0, 0, [], Idle)], loose, {}, [], [[[]]], {0})
  }

  /** X's block is borrowed. */
  lemma First()
    ensures |LoanState().topics| == 3 && TakeHard(LoanState(), 2) == Taken(Tri([], XLent(), YLent(), TFirst(), [1, 0, 1]), Some(2))
  {
    var s := LoanState();
    var x, y, z := s.topics[0], YLent(), Owed(M(0), {});
    assert Lender(s.topics, 2, 2) == Some(0) && Lender(s.topics, 2, 3) == Some(0);
    var none: set<Block> := {};
    assert none + {2} == {2} && [2][1..] == [];
    PutTri(s, x, y, z, XLent());
    PutTri(s.(topics := [XLent(), y, z]), XLent(), y, z, TFirst());
  }

  /** T's own message is evicted, and repays T: the loan it had counted on. */
  lemma OwnEviction()
    ensures var s := Tri([], XLent(), YLent(), TFirst(), [1, 0, 1]);
      CanEvict(s, 2) && Evict(s, 2) == Tri([], XLent(), YLent(), TAfter([0], 0, 0, {2}), [2, 0, 1])
  {
    var s := Tri([], XLent(), YLent(), TFirst(), [1, 0, 1]);
    var x, y, z := XLent(), YLent(), TFirst();
    var head := M(0)[0].chain;
    assert Elems(head) == {0} && z.loose + Elems(head) == {0, 2} && M(0)[1..] == [];
    assert SkipPast(z.subs, 0) == [Sub(1, false, 0, 0, [], Idle)];
    assert z.log == [[[]]];
    assert z.evicted + {0} == {0};
    var z1 := TAfter([], 1, 1, {0, 2});
    PutTri(s, x, y, z, z1);
    var u := Tri([], x, y, z1, [1, 0, 1]);
    assert Unlinked(s, 2) == u;
    assert Creditor(u.topics, 3) == Some(2);
    RepaysItself(u, x, y);
    assert [0][1..] == [];
    assert FreeChain(u, 2, [0]) == FreeChain(GiveOne(u, 2, 0), 2, []);
  }

  lemma RepaysItself(u: State, x: Topic, y: Topic)
    requires u == Tri([], x, y, TAfter([], 1, 1, {0, 2}), [1, 0, 1])
    ensures CanGive(u, 2, 0) && GiveOne(u, 2, 0) == Tri([], x, y, TAfter([0], 0, 0, {2}), [2, 0, 1])
  {
    assert Creditor(u.topics, 3) == Some(2);
    var z, z1 := TAfter([], 1, 1, {0, 2}), TAfter([], 1, 0, {2});
    assert z.loose - {0} == {2} && z.tickets - {0} == {} && [0] + z1.stash == [0];
    assert [1, 0, 1][0 := 2] == [2, 0, 1];
    PutTri(u.(epoch := [2, 0, 1]), x, y, z, z1);
    PutTri(Tri([], x, y, z1, [2, 0, 1]), x, y, z1, TAfter([0], 0, 0, {2}));
  }

  lemma Second()
    ensures TakeHard(Tri([], XLent(), YLent(), TFirst(), [1, 0, 1]), 2)
      == Taken(Tri([], XLent(), YLent(), TAfter([], 0, 0, {0, 2}), [2, 0, 1]), Some(0))
  {
    var s := Tri([], XLent(), YLent(), TFirst(), [1, 0, 1]);
    assert Lender(s.topics, 2, 3).None?;
    assert Victim(s, 3) == Some(2);
    OwnEviction();
    EvictShrinks(s, 2);
    var r := Tri([], XLent(), YLent(), TAfter([0], 0, 0, {2}), [2, 0, 1]);
    assert {2} + {0} == {0, 2} && [0][1..] == [];
    PutTri(r, XLent(), YLent(), r.topics[2], TAfter([], 0, 0, {0, 2}));
    assert TakeOne(r, 2).block == Some(0);
  }

  lemma Third()
    ensures var s := Tri([], XLent(), YLent(), TAfter([], 0, 0, {0, 2}), [2, 0, 1]); TakeHard(s, 2) == Taken(s, None)
  {
    var s := Tri([], XLent(), YLent(), TAfter([], 0, 0, {0, 2}), [2, 0, 1]);
    assert Lender(s.topics, 2, 3).None?;
  }

  /** T has lent its one block and borrowed none. Three blocks are asked for, three are counted, T's only
      message is evicted for them, and the allocation fails, with nothing pinned anywhere. */
  lemma {:induction false} LentInVain()
    ensures var s := Run(3, LoanOps());
      && Inv(s) && |s.topics| == 3 && s.topics[2].lent == 1 && s.topics[2].borrowed == 0 && |s.topics[2].queue| == 1
      && (forall t :: 0 <= t < 3 ==> Loosened(s.topics[t].queue) == |s.topics[t].queue|)
      && Can(s, 2) == 3 && Alloc(s, 2, 3).chain.None?
      && var r := Alloc(s, 2, 3).s; |r.topics| == 3 && r.topics[2].queue == []
  {
    LoanReached();
    RunsKeepInv(3, LoanOps());
    LoanCounts();
    hide Inv, Apply, Run, LoanOps, LoanState, TakeHard, FreeChain, XLent, YLent, TFirst;
    First();
    Second();
    Third();
    var last := Tri([], XLent(), YLent(), TAfter([], 0, 0, {0, 2}), [2, 0, 1]);
    var c: seq<Block> := [2];
    FreeChainKeepsQueues(last, 2, [0] + c);
    assert AllocLoop(LoanState(), 2, 3, []) == AllocLoop(Tri([], XLent(), YLent(), TFirst(), [1, 0, 1]), 2, 2, c) by { assert [2] + [] == c; }
    assert AllocLoop(Tri([], XLent(), YLent(), TFirst(), [1, 0, 1]), 2, 2, c) == AllocLoop(last, 2, 1, [0] + c);
    assert AllocLoop(last, 2, 1, [0] + c) == Allocated(FreeChain(last, 2, [0] + c), None);
  }

  lemma LoanCounts()
    ensures var s := LoanState();
      && |s.topics| == 3 && s.topics[2].lent == 1 && s.topics[2].borrowed == 0 && |s.topics[2].queue| == 1 && Can(s, 2) == 3
      && |s.topics[2].stash| == 0 && forall t :: 0 <= t < 3 ==> Loosened(s.topics[t].queue) == |s.topics[t].queue|
  {
    var s := LoanState();
    PutTri(s, s.topics[0], s.topics[1], s.topics[2], s.topics[0]);
    assert M(0)[1..] == [] && M(1)[1..] == [];
    assert Loosened(M(0)) == 1 && Loosened(M(1)) == 1 && QueueLen(M(0)) == 1;
  }
}
