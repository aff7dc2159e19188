/** kernel/bus.c over its own memory: block descriptors with `next` links, message headers, and
    counters, changed in place. Every method computes the abstract operation of the same name,
    and leaves alone the blocks that are in somebody's hands. */
module BusImpl {
  import opened Lists
  import opened BusState
  import opened BusOps
  import opened BusLoans
  import opened BusAlloc
  import opened BusReaders
  import opened BusDelivery
  import opened BusRuns
  import opened BusRep
  import opened BusRouteRep
  import opened BusQueueRep
  import opened BusReaderRep
  import opened BusMarks
  import opened BusDeclareRep
  import opened BusFacts
  import opened BusAnswers
  import opened BusEffects
  import BusCheck

  datatype Status = Pass | Fail | Invalid | Busy | TooBig | Split | Retry

  class Bus {
    const blockSize: nat
    var desc: seq<Desc>
    var epoch: seq<nat>
    var cell: seq<Bytes>
    var freeHead: nat
    var freeCount: nat
    var topics: seq<Rec>
    ghost var abs: State

    function Now(): Mem
      reads this
    {
      Mem(blockSize, desc, freeHead, freeCount, topics)
    }

    /** The memory represents an abstract bus whose books are in order. */
    ghost predicate Good()
      reads this
    {
      && |topics| == |abs.topics| && |desc| == |abs.epoch| < NIL && HDR_SIZE <= blockSize
      && Rep(Now(), abs) && Books(abs) && epoch == abs.epoch && cell == abs.cell
    }

    /** ... and whose readers are where they should be: what holds outside critical sections. */
    ghost predicate Valid()
      reads this
    {
      Good() && Laws(abs)
    }

    /** v_bus_init, past its checks: all blocks free, no topics. */
    constructor (size: nat, count: nat)
      requires HDR_SIZE <= size && 0 < count < NIL
      ensures Valid() && abs == Init(count) && blockSize == size
    {
      blockSize := size;
      freeHead, freeCount, topics := 0, count, [];
      epoch, cell := seq(count, i => 0), seq(count, i => []);
      abs := Init(count);
      desc := [];
      new;
      var i := 0;
      while i < count
        invariant i <= count == freeCount && |desc| == i && freeHead == 0 && topics == [] && blockSize == size
        invariant abs == Init(count) && epoch == abs.epoch && cell == abs.cell
        invariant forall k :: 0 <= k < i ==> desc[k].used == FREE && desc[k].next == if k + 1 < count then k + 1 else NIL
      {
        desc := desc + [Desc(if i + 1 < count then i + 1 else NIL, FREE, NIL, 0, 0, 0, 0)];
        i := i + 1;
      }
      InitRep(Now(), count);
      InitBooks(count);
    }

    /** take_one. */
    method TakeOne(t: nat) returns (b: nat)
      requires Good() && t < |topics| && !abs.topics[t].pipe
      modifies this`desc, this`freeHead, this`freeCount, this`topics, this`abs
      ensures Good() && abs == BusOps.TakeOne(old(abs), t).s
      ensures BusOps.TakeOne(old(abs), t).block == if b == NIL then None else Some(b)
      ensures Took(old(abs), abs, t, if b == NIL then None else Some(b))
      ensures HandsOff(old(desc), desc, old(abs), abs)
      ensures b != NIL ==> b < |desc| && desc[b].used == IN_USE && desc[b].next == NIL
    {
      hide Rep, Books, BusOps.TakeOne, HandsOff, Lender, Took;
      ghost var c, s := Now(), abs;
      TakesInOrder(s, t);
      RecFacts(c, s, t);
      TakeOneFacts(c, s, t);
      var r := topics[t];
      if r.stashCount > 0 {
        b := r.stash;
        topics := topics[t := r.(stash := desc[b].next, stashCount := r.stashCount - 1)];
        desc := desc[b := desc[b].(used := IN_USE, next := NIL)];
        TakeStashRep(c, s, t, Now());
      } else if freeCount > 0 {
        b := freeHead;
        freeHead := desc[b].next;
        freeCount := freeCount - 1;
        desc := desc[b := desc[b].(used := IN_USE, next := NIL)];
        TakePoolRep(c, s, t, Now());
      } else {
        var k := 0;
        if r.overflow == Overwrite { k := LenderWithIdle(t); }
        if k == 0 {
          SameHands(desc, s);
          return NIL;
        }
        b := Borrow(t, k - 1);
      }
      abs := BusOps.TakeOne(s, t).s;
      OneWrite(s, abs, c.desc, b, desc[b]);
    }

    /** lender_with_idle: one more than the index of the first other topic, in list order, with an
        idle stash block, or 0. */
    method LenderWithIdle(t: nat) returns (k: nat)
      requires Good() && t < |topics|
      ensures Lender(abs.topics, t, |abs.topics|) == if k == 0 then None else Some(k - 1)
      ensures k <= |topics|
    {
      hide Rep, Books;
      ghost var c := Now();
      RecFacts(c, abs, t);
      k := |topics|;
      while k > 0 && !(k - 1 != t && topics[k - 1].stashCount > 0)
        invariant k <= |topics| && Lender(abs.topics, t, |abs.topics|) == Lender(abs.topics, t, k)
      {
        RecFacts(c, abs, k - 1);
        k := k - 1;
      }
      if k > 0 { RecFacts(c, abs, k - 1); }
    }

    /** The loan in take_one: the lender's idle block changes hands. */
    method Borrow(t: nat, l: nat) returns (b: nat)
      requires Good() && t < |topics| && !abs.topics[t].pipe && topics[t].stashCount == 0 && freeCount == 0
      requires abs.topics[t].overflow.Overwrite? && Lender(abs.topics, t, |abs.topics|) == Some(l)
      modifies this`desc, this`topics
      ensures Rep(Now(), BusOps.TakeOne(old(abs), t).s) && |topics| == old(|topics|)
      ensures BusOps.TakeOne(old(abs), t).block == Some(b) && b != NIL && b < |desc|
      ensures desc == old(desc)[b := desc[b]] && desc[b].used == IN_USE && desc[b].next == NIL
    {
      hide Rep, Books, Nowhere;
      ghost var c, s := Now(), abs;
      ghost var z := s.topics[l];
      RecFacts(c, s, t);
      RecFacts(c, s, l);
      assert s.topics[t].tickets <= s.topics[t].loose && s.topics[t].ring == [] by { BooksOf(s, t); }
      b := topics[l].stash;
      topics := topics[l := topics[l].(stash := desc[b].next, stashCount := topics[l].stashCount - 1, lent := topics[l].lent + 1)];
      ghost var c1 := Now();
      ghost var s1 := Put(s, l, z.(stash := z.stash[1..], lent := z.lent + 1));
      LendRep(c, s, l, b, c1, s1);
      LendNowhere(s, l, b, s1);
      topics := topics[t := topics[t].(borrowed := topics[t].borrowed + 1)];
      desc := desc[b := desc[b].(used := IN_USE, next := NIL)];
      BorrowRep(c1, s1, t, b, Now(), BusOps.TakeOne(s, t).s);
    }

    /** give_one. */
    method GiveOne(t: nat, b: nat)
      requires Good() && t < |topics| && b in abs.topics[t].loose
      modifies this`desc, this`epoch, this`freeHead, this`freeCount, this`topics, this`abs
      ensures CanGive(old(abs), t, b)
      ensures Good() && abs == BusOps.GiveOne(old(abs), t, b) && Gave(old(abs), abs, t, b)
      ensures b < |old(desc)| && desc == old(desc)[b := desc[b]]
    {
      hide Rep, Books, BusOps.GiveOne, CanGive, Gave;
      ghost var c, s := Now(), abs;
      RecFacts(c, s, t);
      GiveOneFacts(c, s, t, b);
      GivesInOrder(s, t, b);
      epoch := epoch[b := epoch[b] + 1];
      var r := topics[t];
      if r.borrowed > 0 {
        RepayLoan(t, b);
      } else if r.stashCount + r.lent < r.reserve {
        desc := desc[b := desc[b].(used := STASHED, next := r.stash)];
        topics := topics[t := r.(stash := b, stashCount := r.stashCount + 1)];
        GiveStashRep(c, s, t, b);
      } else {
        desc := desc[b := desc[b].(used := FREE, next := freeHead)];
        freeHead := b;
        freeCount := freeCount + 1;
        GivePoolRep(c, s, t, b);
      }
      abs := BusOps.GiveOne(s, t, b);
    }

    /** The loan repayment in give_one: the first topic that is owed a block gets this one. */
    method RepayLoan(t: nat, b: nat)
      requires Rep(Now(), abs) && Books(abs) && t < |topics| && CanGive(abs, t, b) && abs.topics[t].borrowed > 0
      modifies this`desc, this`topics
      ensures Rep(Now(), BusOps.GiveOne(old(abs), t, b)) && |topics| == old(|topics|)
      ensures b < |old(desc)| && desc == old(desc)[b := desc[b]]
    {
      hide Rep, Books, Nowhere, BusOps.GiveOne;
      ghost var c, s := Now(), abs;
      RecFacts(c, s, t);
      var l := |topics|;
      RecFacts(c, s, l - 1);
      while topics[l - 1].lent == 0
        invariant 0 < l <= |topics| && Creditor(s.topics, |s.topics|) == Creditor(s.topics, l)
        invariant Now() == c && abs == s && FieldsRep(topics[l - 1], s.topics[l - 1])
        decreases l
      {
        l := l - 1;
        RecFacts(c, s, l - 1);
      }
      l := l - 1;
      ghost var x := s.topics[t];
      ghost var y := x.(loose := x.loose - {b}, tickets := x.tickets - {b}, borrowed := x.borrowed - 1);
      ghost var s1 := Put(s, t, y);
      RepayRep(c, s, t, b);
      assert !s.topics[l].pipe && s.topics[l].ring == [] by { BooksOf(s, l); }
      topics := topics[t := topics[t].(borrowed := topics[t].borrowed - 1)];
      CreditRep(Now(), s1, l, b);
      desc := desc[b := desc[b].(used := STASHED, next := topics[l].stash)];
      topics := topics[l := topics[l].(stash := b, stashCount := topics[l].stashCount + 1, lent := topics[l].lent - 1)];
      RepaidState(Now(), s, t, b, l, s1);
    }

    /** free_chain: every block from `head` on is given back; blocks that stay in hand are not touched. */
    method FreeChain(t: nat, head: nat, ghost chain: seq<Block>)
      requires Good() && t < |topics| && InHand(abs.topics[t], chain) && head == HeadOf(chain)
      requires Threaded(desc, chain)
      modifies this`desc, this`epoch, this`freeHead, this`freeCount, this`topics, this`abs
      ensures Good() && abs == BusOps.FreeChain(old(abs), t, chain)
      ensures HandsOff(old(desc), desc, old(abs), abs)
    {
      hide Rep, Books, BusOps.GiveOne, CanGive, HandsOff, Gave;
      ghost var s, c := abs, desc;
      FreeChainBooks(s, t, chain);
      var h := head;
      ghost var rest := chain;
      SameHands(desc, s);
      while h != NIL
        invariant Good() && t < |topics| && InHand(abs.topics[t], rest) && h == HeadOf(rest) && Threaded(desc, rest)
        invariant BusOps.FreeChain(abs, t, rest) == BusOps.FreeChain(s, t, chain)
        invariant HandsOff(c, desc, s, abs)
        decreases |rest|
      {
        ghost var s1, d1 := abs, desc;
        assert rest != [] && rest == [rest[0]] + rest[1..];
        var next := desc[h].next;
        GiveOne(t, h);
        GivenHands(s1, t, h, d1, desc);
        MoreHands(c, s, d1, s1, desc, abs, t, h);
        rest := rest[1..];
        h := next;
      }
    }

    /** take_head: unlink the oldest message and return it for freeing. */
    method TakeHead(t: nat) returns (msg: nat)
      requires Good() && t < |topics| && !abs.topics[t].pipe && abs.topics[t].queue != [] && NobodyAtHead(abs.topics[t])
      modifies this`topics, this`abs
      ensures Good() && abs == BusOps.TakeHead(old(abs), t) && |topics| == old(|topics|)
      ensures var chain := old(abs.topics[t].queue[0].chain);
        msg == HeadOf(chain) && chain != [] && Threaded(desc, chain) && InHand(abs.topics[t], chain)
    {
      hide Rep, Books, BusOps.TakeHead, InHand;
      ghost var c, s := Now(), abs;
      RecFacts(c, s, t);
      HeadFacts(c, s, t);
      TakeHeadBooks(s, t);
      TakenHead(s, t);
      var r := topics[t];
      msg := r.head;
      topics := topics[t := r.(head := desc[msg].link, tail := if r.tail == msg then NIL else r.tail,
                               blocks := r.blocks - BlocksFor(blockSize, desc[msg].len))];
      abs := BusOps.TakeHead(s, t);
      TakeHeadRep(c, s, t, Now(), abs);
    }

    /** Every reader whose cursor is `from` gets cursor `to`. */
    method MoveReaders(t: nat, from: nat, to: nat)
      requires t < |topics|
      modifies this`topics
      ensures topics == old(topics)[t := old(topics)[t].(subs := MoveCursors(old(topics)[t].subs, from, to, |old(topics)[t].subs|))]
    {
      ghost var ts := topics;
      var i, subs := 0, topics[t].subs;
      assert MoveCursors(subs, from, to, 0) == subs;
      while i < |subs|
        invariant i <= |subs| == |ts[t].subs| && subs == MoveCursors(ts[t].subs, from, to, i)
      {
        if subs[i].cursor == from { subs := subs[i := subs[i].(cursor := to)]; }
        i := i + 1;
        assert subs == MoveCursors(ts[t].subs, from, to, i);
      }
      topics := topics[t := topics[t].(subs := subs)];
    }

    /** evict_oldest: refuse if the queue is empty or its head pinned; else every reader that is
        at the oldest message moves on, and its blocks are freed. */
    method EvictOldest(t: nat) returns (ok: bool)
      requires Valid() && t < |topics| && !abs.topics[t].pipe && abs.topics[t].overflow.Overwrite?
      modifies this`desc, this`epoch, this`freeHead, this`freeCount, this`topics, this`abs
      ensures Valid() && ok == CanEvict(old(abs), t)
      ensures abs == if ok then BusOps.Evict(old(abs), t) else old(abs)
      ensures HandsOff(old(desc), desc, old(abs), abs)
      ensures !ok ==> Now() == old(Now())
    {
      hide Rep, Books, HandsOff, Laws, BusOps.FreeChain, InHand;
      ghost var c, s := Now(), abs;
      RecFacts(c, s, t);
      QueueFacts(c, s, t);
      SameHands(desc, s);
      var h := topics[t].head;
      if h == NIL || desc[h].pins > 0 { return false; }
      ok := true;
      assert ReaderLaw(s.topics[t]) by { LawOf(s, t); }
      HeadFacts(c, s, t);
      MoveReaders(t, h, desc[h].link);
      ghost var s1 := Put(s, t, Skipped(s.topics[t]));
      SkipRep(c, s, t, Now(), s1);
      SkipFacts(s, t);
      abs := s1;
      ghost var chain := s.topics[t].queue[0].chain;
      var msg := TakeHead(t);
      ghost var s2 := abs;
      FreeChain(t, msg, chain);
      EvictLaws(s, t);
      EvictHands(c.desc, desc, s, t);
    }

    /** reclaim_one: evict the oldest message of the first borrower that can spare it. */
    method ReclaimOne() returns (ok: bool)
      requires Valid()
      modifies this`desc, this`epoch, this`freeHead, this`freeCount, this`topics, this`abs
      ensures Valid() && ok == Victim(old(abs), |old(abs).topics|).Some?
      ensures abs == if ok then BusOps.Evict(old(abs), Victim(old(abs), |old(abs).topics|).value) else old(abs)
      ensures HandsOff(old(desc), desc, old(abs), abs)
      ensures !ok ==> Now() == old(Now())
    {
      hide Rep, Books, HandsOff, Laws, BusOps.Evict;
      ghost var c, s := Now(), abs;
      SameHands(desc, s);
      ok := false;
      var k := |topics|;
      while k > 0 && !ok
        invariant 0 <= k <= |s.topics| && (!ok ==> Now() == c && abs == s && Valid())
        invariant !ok ==> Victim(s, |s.topics|) == Victim(s, k)
        invariant ok ==> Valid() && HandsOff(c.desc, desc, s, abs)
        invariant ok ==> Victim(s, |s.topics|).Some? && abs == BusOps.Evict(s, Victim(s, |s.topics|).value)
        decreases k
      {
        k := k - 1;
        RecFacts(c, s, k);
        if topics[k].borrowed > 0 {
          BooksOf(s, k);
          ok := EvictOldest(k);
        }
      }
    }

    /** alloc_msg's next resort: recall a block on loan, else evict the topic's own oldest message. */
    method EvictNext(t: nat) returns (ok: bool)
      requires Valid() && t < |topics| && !abs.topics[t].pipe
      modifies this`desc, this`epoch, this`freeHead, this`freeCount, this`topics, this`abs
      ensures Valid() && ok == NextVictim(old(abs), t).Some?
      ensures abs == if ok then BusOps.Evict(old(abs), NextVictim(old(abs), t).value) else old(abs)
      ensures HandsOff(old(desc), desc, old(abs), abs)
    {
      hide Rep, Books, HandsOff, Laws, BusOps.Evict;
      RecFacts(Now(), abs, t);
      SameHands(desc, abs);
      ok := false;
      if topics[t].lent > 0 { ok := ReclaimOne(); }
      if !ok && topics[t].overflow == Overwrite { ok := EvictOldest(t); }
    }

    /** The inner loop of alloc_msg: take a block, evicting until there is one or nothing more
        can be evicted. */
    method TakeBlock(t: nat) returns (b: nat)
      requires Valid() && t < |topics| && !abs.topics[t].pipe
      modifies this`desc, this`epoch, this`freeHead, this`freeCount, this`topics, this`abs
      ensures Valid() && TakeHard(old(abs), t) == Taken(abs, if b == NIL then None else Some(b))
      ensures HandsOff(old(desc), desc, old(abs), abs)
      ensures b != NIL ==> b < |desc| && desc[b].used == IN_USE && desc[b].next == NIL
    {
      hide Rep, Books, HandsOff, Laws, BusOps.Evict, BusOps.TakeOne, TakeHard, NextVictim, Took;
      ghost var c, s := desc, abs;
      TookOne(Now(), abs, t);
      b := TakeOne(t);
      while b == NIL
        invariant Valid() && t < |topics| && !abs.topics[t].pipe && |abs.topics| == |s.topics|
        invariant HandsOff(c, desc, s, abs) && Holding(s, abs)
        invariant b == NIL ==> BusOps.TakeOne(abs, t) == Taken(abs, None) && TakeHard(abs, t) == TakeHard(s, t)
        invariant b != NIL ==> TakeHard(s, t) == Taken(abs, Some(b)) && b < |desc| && desc[b].used == IN_USE && desc[b].next == NIL
        decreases b == NIL, SumQueued(abs.topics)
      {
        ghost var s1, d1 := abs, desc;
        var ok := EvictNext(t);
        if !ok {
          NoVictim(s1, t);
          HandsTrans(c, s, d1, s1, desc, abs);
          return;
        }
        ghost var s2, d2 := abs, desc;
        EvictedOne(s1, s2, NextVictim(s1, t).value, t);
        HandsTrans(c, s, d1, s1, d2, s2);
        TookOne(Now(), s2, t);
        b := TakeOne(t);
        HandsTrans(c, s, d2, s2, desc, abs);
      }
    }

    /** Set the `next` link of a block in hand. */
    method SetNext(t: nat, b: nat, next: nat)
      requires Good() && t < |topics| && b in abs.topics[t].loose && b !in abs.topics[t].tickets
      requires b < |desc| && desc[b].used == IN_USE
      modifies this`desc
      ensures Good() && desc == old(desc)[b := old(desc)[b].(next := next)]
    {
      hide Rep, Books;
      ghost var c := Now();
      desc := desc[b := desc[b].(next := next)];
      WriteLoose(c, Now(), abs, t, b);
    }

    /** alloc_msg: n blocks chained together, or NIL and nothing kept. */
    method AllocMsg(t: nat, n: nat) returns (head: nat, ghost chain: seq<Block>)
      requires Valid() && t < |topics| && !abs.topics[t].pipe && n > 0
      modifies this`desc, this`epoch, this`freeHead, this`freeCount, this`topics, this`abs
      ensures Valid() && HandsOff(old(desc), desc, old(abs), abs)
      ensures Alloc(old(abs), t, n) == Allocated(abs, if head == NIL then None else Some(chain))
      ensures head != NIL ==> head == HeadOf(chain) && Filled(desc, chain)
      ensures Answered(old(abs), t, n, head != NIL)
      ensures abs == Apply(old(abs), AllocOp(t, n))
    {
      hide Rep, Books, HandsOff, Laws, AllocLoop, Can, Answered, HasBlocks;
      ghost var s := abs;
      LawsHaveBlocks(s);
      AllocAnswers(s, t, n);
      RecFacts(Now(), s, t);
      var hot := topics[t].stashCount >= n;
      if !hot {
        var can := CountOn(t);
        if can < n {
          SameHands(desc, s);
          return NIL, [];
        }
      }
      head, chain := AllocBlocks(t, n, hot);
    }

    /** The blocks alloc_msg counts on before it starts. */
    method CountOn(t: nat) returns (can: nat)
      requires Good() && t < |topics| && !abs.topics[t].pipe
      ensures can == Can(abs, t)
    {
      hide Rep, Books;
      ghost var c, s := Now(), abs;
      RecFacts(c, s, t);
      BlocksFact(c, s, t);
      can := topics[t].stashCount + freeCount + topics[t].lent;
      if topics[t].overflow == Overwrite {
        can := can + topics[t].blocks;
        var k := |topics|;
        assert s.topics[|s.topics|..] == [];
        while k > 0
          invariant 0 <= k <= |topics|
          invariant can + (if t < k then 0 else |s.topics[t].stash|)
                 == |s.topics[t].stash| + |s.pool| + s.topics[t].lent + QueueLen(s.topics[t].queue) + SumStash(s.topics[k..])
        {
          k := k - 1;
          RecFacts(c, s, k);
          assert s.topics[k..][1..] == s.topics[k + 1..];
          if k != t { can := can + topics[k].stashCount; }
        }
        assert s.topics[0..] == s.topics;
      }
    }

    /** The allocation loop: from the reservation alone when it suffices (`hot`), else with evictions. */
    method AllocBlocks(t: nat, n: nat, hot: bool) returns (head: nat, ghost chain: seq<Block>)
      requires Valid() && t < |topics| && !abs.topics[t].pipe && n > 0
      requires hot ==> |abs.topics[t].stash| >= n
      modifies this`desc, this`epoch, this`freeHead, this`freeCount, this`topics, this`abs
      ensures Valid() && HandsOff(old(desc), desc, old(abs), abs)
      ensures AllocLoop(old(abs), t, n, []) == Allocated(abs, if head == NIL then None else Some(chain))
      ensures head != NIL ==> head == HeadOf(chain) && Filled(desc, chain)
    {
      hide Rep, Books, HandsOff, Laws, AllocLoop, TakeHard, GotOne, Building, Filled, Holding, InHand, Threaded;
      ghost var c, s := desc, abs;
      head, chain := NIL, [];
      var k := 0;
      SameHands(desc, s);
      StartBuilding(desc, s, t);
      while k < n
        invariant k <= n && Valid() && t < |topics| && !abs.topics[t].pipe && |abs.topics| == |s.topics|
        invariant head == HeadOf(chain) && |chain| == k && Filled(desc, chain)
        invariant Building(abs.topics[t], chain, s.topics[t].loose)
        invariant AllocLoop(abs, t, n - k, chain) == AllocLoop(s, t, n, [])
        invariant HandsOff(c, desc, s, abs) && Holding(s, abs)
        invariant hot ==> |abs.topics[t].stash| >= n - k
      {
        ghost var s1, d1 := abs, desc;
        HardFacts(Now(), s1, t, chain, s.topics[t].loose, n - k);
        var b;
        if hot { b := StashPop(t); } else { b := TakeBlock(t); }
        HandsTrans(c, s, d1, s1, desc, abs);
        HoldingTrans(s, s1, abs);
        if b == NIL {
          ghost var s2, d2 := abs, desc;
          GaveBack(s1, s2, t, chain, s.topics[t].loose, d1, d2);
          FreeChain(t, head, chain);
          FreedLaws(s2, t, chain);
          HandsTrans(c, s, d2, s2, desc, abs);
          return NIL, [];
        }
        KeptChain(s1, abs, t, chain, s.topics[t].loose, d1, desc, b);
        ghost var d2 := desc;
        SetNext(t, b, head);
        OwnWrite(c, s, d2, abs, t, b, desc[b]);
        FilledMore(d2, desc, chain, b);
        chain := [b] + chain;
        head := b;
        k := k + 1;
      }
      AllDone(desc, abs, t, chain);
    }

    /** stash_pop, with the mark and link take_one would set. */
    method StashPop(t: nat) returns (b: nat)
      requires Valid() && t < |topics| && !abs.topics[t].pipe && abs.topics[t].stash != []
      modifies this`desc, this`topics, this`abs
      ensures Valid() && TakeHard(old(abs), t) == Taken(abs, Some(b)) && b != NIL
      ensures |abs.topics[t].stash| == |old(abs).topics[t].stash| - 1
      ensures HandsOff(old(desc), desc, old(abs), abs)
      ensures b < |desc| && desc[b].used == IN_USE && desc[b].next == NIL
    {
      hide Rep, Books, HandsOff, Laws;
      ghost var c, s := Now(), abs;
      RecFacts(c, s, t);
      TakeOneFacts(c, s, t);
      TookOne(c, s, t);
      var r := topics[t];
      b := r.stash;
      topics := topics[t := r.(stash := desc[b].next, stashCount := r.stashCount - 1)];
      desc := desc[b := desc[b].(used := IN_USE, next := NIL)];
      TakeStashRep(c, s, t, Now());
      abs := BusOps.TakeOne(s, t).s;
      OneWrite(s, abs, c.desc, b, desc[b]);
    }

    /** Set the header of a message that is still in hand. */
    method SetHeader(t: nat, msg: nat, len: nat, seqno: nat, refs: nat)
      requires Good() && t < |topics| && msg in abs.topics[t].loose && msg !in abs.topics[t].tickets
      requires msg < |desc| && desc[msg].used == IN_USE
      modifies this`desc
      ensures Good()
      ensures desc == old(desc)[msg := old(desc)[msg].(link := NIL, len := len, pins := 0, seqno := seqno, refs := refs)]
    {
      hide Rep, Books;
      ghost var c := Now();
      desc := desc[msg := desc[msg].(link := NIL, len := len, pins := 0, seqno := seqno, refs := refs)];
      WriteLoose(c, Now(), abs, t, msg);
    }

    /** link_msg up to the end of its critical section: the message becomes the newest, owed to
        every subscription of the moment. False if there is none, and then the caller still has it. */
    method LinkMsg(t: nat, msg: nat, len: nat, ghost chain: seq<Block>) returns (linked: bool)
      requires Valid() && t < |topics| && !abs.topics[t].pipe && CanLink(abs, t, chain)
      requires msg == chain[0] && Filled(desc, chain) && abs.topics[t].tickets !! Elems(chain)
      requires BlocksFor(blockSize, len) == |chain|
      modifies this`desc, this`topics, this`abs
      ensures Valid() && linked == (old(abs).topics[t].subs != [])
      ensures abs == BusOps.Link(old(abs), t, chain, len)
      ensures Filled(desc, chain)
      ensures abs == Apply(old(abs), LinkOp(t, chain, len))
    {
      hide Rep, Books, Laws, CanLink, Filled, BusOps.Link;
      ghost var c, s := Now(), abs;
      LinkFacts(c, s, t, chain);
      FilledHead(desc, chain);
      SetHeader(t, msg, len, topics[t].nextSeq, |topics[t].subs|);
      FilledHeader(c.desc, desc, chain, msg);
      if |topics[t].subs| == 0 {
        NobodyThere(s, t, chain, len);
        return false;
      }
      LinkTail(t, msg, len, chain);
      linked := true;
    }

    /** The second half of link_msg: behind the tail, counted, and in front of whoever was caught up. */
    method LinkTail(t: nat, msg: nat, len: nat, ghost chain: seq<Block>)
      requires Valid() && t < |topics| && !abs.topics[t].pipe && CanLink(abs, t, chain) && abs.topics[t].subs != []
      requires msg == chain[0] && Filled(desc, chain) && Chained(desc, chain, IN_USE)
      requires msg < |desc| && HeaderRep(desc[msg], Msg(chain, |abs.topics[t].log|, len, |abs.topics[t].subs|, 0), NIL)
      requires BlocksFor(blockSize, len) == |chain|
      modifies this`desc, this`topics, this`abs
      ensures Valid() && abs == BusOps.Link(old(abs), t, chain, len)
      ensures Filled(desc, chain)
    {
      hide Rep, Books, Laws, CanLink, Filled, BusOps.Link, Chained, HeaderRep, MoveCursors;
      ghost var c, s := Now(), abs;
      LinkFacts(c, s, t, chain);
      var r := topics[t];
      if r.tail != NIL { desc := desc[r.tail := desc[r.tail].(link := msg)]; FilledHeader(c.desc, desc, chain, r.tail); }
      MoveReaders(t, NIL, msg);
      topics := topics[t := topics[t].(head := if r.tail != NIL then r.head else msg, tail := msg,
                                       blocks := r.blocks + BlocksFor(blockSize, len), nextSeq := r.nextSeq + 1)];
      assert topics == c.topics[t := LinkedRec(c.topics[t], msg, |chain|)];
      abs := BusOps.Link(s, t, chain, len);
      LawOf(s, t);
      LinkRep(c, s, t, chain, len, Now(), abs);
      LinkInv(s, t, chain, len);
      LinkedFacts(s, t, chain, len);
    }

    /** free_chain outside of any other critical section. */
    method Free(t: nat, head: nat, ghost chain: seq<Block>)
      requires Valid() && t < |topics| && InHand(abs.topics[t], chain) && head == HeadOf(chain) && Threaded(desc, chain)
      modifies this`desc, this`epoch, this`freeHead, this`freeCount, this`topics, this`abs
      ensures Valid() && abs == BusOps.FreeChain(old(abs), t, chain)
      ensures !old(abs).topics[t].pipe ==> abs == Apply(old(abs), FreeOp(t, chain))
    {
      hide Rep, Books, Laws, BusOps.FreeChain, HandsOff, Threaded, InHand;
      FreedLaws(abs, t, chain);
      FreeChain(t, head, chain);
    }

    /** consume: the reader moves on and drops its reference; with the last one the message leaves
        the queue and is returned for freeing. */
    method Consume(t: nat, i: nat, ghost data: seq<Bytes>) returns (freed: nat, ghost chain: seq<Block>)
      requires Valid() && t < |topics| && !abs.topics[t].pipe && HasNext(abs.topics[t], i) && !abs.topics[t].subs[i].peeked
      requires abs.topics[t].subs[i].cur < |abs.topics[t].log| && data == abs.topics[t].log[abs.topics[t].subs[i].cur]
      modifies this`desc, this`topics, this`abs
      ensures Valid() && abs == BusOps.Consume(old(abs), t, i, data) && |topics| == old(|topics|)
      ensures freed == HeadOf(chain) && Threaded(desc, chain) && InHand(abs.topics[t], chain)
      ensures freed != NIL <==> Next(old(abs).topics[t], i).refs == 1
    {
      hide Rep, Books, Laws, Advanced, Threaded, InHand, MsgLaw, BusOps.Consume, TopicLaw, ReaderLaw, BusOps.TakeHead;
      ghost var c, s := Now(), abs;
      ReaderFacts(c, s, t, i, data);
      var msg := topics[t].subs[i].cursor;
      var u := topics[t].subs[i].(cursor := desc[msg].link, awaits := desc[msg].seqno + 1);
      var refs := desc[msg].refs - 1;
      topics := topics[t := topics[t].(subs := topics[t].subs[i := u])];
      desc := desc[msg := desc[msg].(refs := refs)];
      abs := Put(s, t, Advanced(s.topics[t], i, data));
      AdvanceRep(c, s, t, i, data, msg, Now(), abs);
      if refs > 0 {
        NotLast(s, t, i, data);
        return NIL, [];
      }
      LastReader(s, t, i, data);
      AdvancedFacts(s.topics[t], i, data);
      chain := abs.topics[t].queue[0].chain;
      freed := TakeHead(t);
    }

    /** v_bus_pop, first critical section: note the next message, its epoch and its length. */
    method PopStart(t: nat, i: nat, cap: nat) returns (r: Status, msg: nat, at: nat, len: nat)
      requires Valid() && t < |topics| && !abs.topics[t].pipe && i < |abs.topics[t].subs|
      modifies this`abs
      ensures Valid() && abs == BusOps.PopStart(old(abs), t, i, cap)
      ensures var x := old(abs).topics[t];
        && (r.Busy? <==> x.subs[i].peeked)
        && (r.Fail? <==> !x.subs[i].peeked && !HasNext(x, i))
        && (r.TooBig? <==> !x.subs[i].peeked && HasNext(x, i) && Next(x, i).len > cap)
        && (r.Pass? <==> !x.subs[i].peeked && HasNext(x, i) && Next(x, i).len <= cap)
        && (r.Pass? ==> Next(x, i).chain != [] && Next(x, i).chain[0] == msg && Next(x, i).len == len)
        && (r.Pass? ==> |abs.topics| == |topics| && i < |abs.topics[t].subs| && abs.topics[t].subs[i].pop == Copying(msg, at, []))
      ensures abs == Apply(old(abs), PopStartOp(t, i, cap))
    {
      hide Rep, Books, Laws, ReaderLaw;
      ghost var c, s := Now(), abs;
      RepOf(c, s, t);
      ReadersOf(s, t);
      CursorFacts(c, s, t, i);
      PeekFacts(c, s, t, i);
      PopStartInv(s, t, i, cap);
      msg, at, len := NIL, 0, 0;
      if topics[t].subs[i].peeked != NIL { return Busy, msg, at, len; }
      msg := topics[t].subs[i].cursor;
      if msg == NIL { return Fail, msg, at, len; }
      at := epoch[msg];
      len := desc[msg].len;
      if len > cap { return TooBig, msg, at, len; }
      r := Pass;
      PopRep(c, s, t, i, Copying(msg, at, []), BusOps.PopStart(s, t, i, cap));
      abs := BusOps.PopStart(s, t, i, cap);
    }

    /** v_bus_pop's copy, one block at a time, outside any critical section: `b` is the block it
        has come to, which after an eviction may be anybody's. */
    method PopCopy(t: nat, i: nat, b: nat) returns (bytes: Bytes, next: nat)
      requires Valid() && t < |topics| && !abs.topics[t].pipe && i < |abs.topics[t].subs| && abs.topics[t].subs[i].pop.Copying?
      requires Intact(abs, t, i) && HasNext(abs.topics[t], i) ==>
        var k, chain := |abs.topics[t].subs[i].pop.buf|, Next(abs.topics[t], i).chain; k < |chain| && b == chain[k]
      modifies this`abs
      ensures Valid() && abs == BusOps.PopCopy(old(abs), t, i, bytes)
      ensures |abs.topics| == |topics| && i < |abs.topics[t].subs|
        && abs.topics[t].subs[i].pop == old(abs).topics[t].subs[i].pop.(buf := old(abs).topics[t].subs[i].pop.buf + [bytes])
      ensures Intact(old(abs), t, i) && HasNext(old(abs).topics[t], i) ==>
        next == NextIn(Next(old(abs).topics[t], i).chain, |old(abs).topics[t].subs[i].pop.buf|)
      ensures abs == Apply(old(abs), PopCopyOp(t, i, bytes))
    {
      hide Rep, Books, Laws, MsgLaw, HasNext;
      ghost var c, s := Now(), abs;
      RepOf(c, s, t);
      CellSize(s);
      if b < |desc| {
        bytes, next := cell[b], desc[b].next;
      } else {
        bytes, next := [], NIL; // off the end of a chain that is gone: any bytes at all
      }
      if Intact(s, t, i) && HasNext(s.topics[t], i) { CopyFacts(c, s, t, i, b); }
      PopCopyInv(s, t, i, bytes);
      PopRep(c, s, t, i, s.topics[t].subs[i].pop.(buf := s.topics[t].subs[i].pop.buf + [bytes]), BusOps.PopCopy(s, t, i, bytes));
      abs := BusOps.PopCopy(s, t, i, bytes);
    }

    /** v_bus_pop, second critical section. If the message is still the one the copy started on,
        the copy is what was published under its number, and the reader moves on; else start over. */
    method PopEnd(t: nat, i: nat, msg: nat, at: nat) returns (r: Status, missed: nat, freed: nat, ghost chain: seq<Block>)
      requires Valid() && t < |topics| && !abs.topics[t].pipe && i < |abs.topics[t].subs|
      requires abs.topics[t].subs[i].pop.Copying? && abs.topics[t].subs[i].pop.msg == msg && abs.topics[t].subs[i].pop.epoch == at
      requires Intact(abs, t, i) && HasNext(abs.topics[t], i) ==> |abs.topics[t].subs[i].pop.buf| == |Next(abs.topics[t], i).chain|
      modifies this`desc, this`topics, this`abs
      ensures Valid() && abs == BusOps.PopEnd(old(abs), t, i)
      ensures r.Pass? <==> Intact(old(abs), t, i)
      ensures !r.Pass? ==> r.Retry? && freed == NIL
      ensures freed == HeadOf(chain) && Threaded(desc, chain) && t < |abs.topics| && InHand(abs.topics[t], chain)
      ensures r.Pass? ==> var u := old(abs).topics[t].subs[i];
        && u.cur < |old(abs).topics[t].log| && u.pop.buf == old(abs).topics[t].log[u.cur]
        && u.cur == u.awaits + missed
        && abs == BusOps.Consume(old(abs), t, i, u.pop.buf)
        && HasNext(old(abs).topics[t], i) && ReadBy(old(abs).topics[t], abs.topics[t], i, u.pop.buf)
      ensures !r.Pass? ==> (
        && Now() == old(Now()) && OthersStay(old(abs).topics[t].subs, abs.topics[t].subs, i)
        && abs.topics[t].subs[i] == old(abs).topics[t].subs[i].(pop := Idle))
      ensures abs == Apply(old(abs), PopEndOp(t, i))
    {
      hide Rep, Books, Laws, MsgLaw, InHand, Threaded, BusOps.Consume, ReadBy;
      ghost var c, s := Now(), abs;
      RepOf(c, s, t);
      PopLaws(s, t, i);
      PeekFacts(c, s, t, i);
      missed, freed, chain := 0, NIL, [];
      if epoch[msg] != at {
        PopEndInv(s, t, i);
        PopRep(c, s, t, i, Idle, BusOps.PopEnd(s, t, i));
        abs := BusOps.PopEnd(s, t, i);
        EmptyChain(desc, abs.topics[t]);
        return Retry, missed, freed, chain;
      }
      CursorFacts(c, s, t, i);
      missed := desc[msg].seqno - topics[t].subs[i].awaits;
      ConsumeReads(s, t, i, s.topics[t].subs[i].pop.buf);
      freed, chain := Consume(t, i, s.topics[t].subs[i].pop.buf);
      r := Pass;
    }

    /** v_bus_peek: pin the next message, if it is one block, so that it may be read in place. */
    method Peek(t: nat, i: nat) returns (r: Status, msg: nat, len: nat, missed: nat)
      requires Valid() && t < |topics| && !abs.topics[t].pipe && i < |abs.topics[t].subs| && abs.topics[t].subs[i].pop.Idle?
      modifies this`desc, this`topics, this`abs
      ensures Valid() && abs == BusOps.Peek(old(abs), t, i)
      ensures var x := old(abs).topics[t];
        && (r.Busy? <==> x.subs[i].peeked)
        && (r.Fail? <==> !x.subs[i].peeked && !HasNext(x, i))
        && (r.Split? <==> !x.subs[i].peeked && HasNext(x, i) && |Next(x, i).chain| != 1)
        && (r.Pass? <==> !x.subs[i].peeked && HasNext(x, i) && |Next(x, i).chain| == 1)
        && (r.Pass? ==> Next(x, i).chain[0] == msg && Next(x, i).len == len && x.subs[i].cur == x.subs[i].awaits + missed)
        && (if r.Pass? then |abs.topics| == |topics| && PinnedBy(x, abs.topics[t], i) else abs == old(abs))
      ensures abs == Apply(old(abs), PeekOp(t, i))
    {
      hide Rep, Books, Laws, ReaderLaw, PinnedBy, Apply;
      ghost var c, s := Now(), abs;
      PeekStep(s, t, i);
      RepOf(c, s, t);
      ReadersOf(s, t);
      CursorFacts(c, s, t, i);
      PeekFacts(c, s, t, i);
      AwaitsFact(s, t, i);
      msg, len, missed := topics[t].subs[i].cursor, 0, 0;
      if topics[t].subs[i].peeked != NIL { return Busy, msg, len, missed; }
      if msg == NIL { return Fail, msg, len, missed; }
      if BlocksFor(blockSize, desc[msg].len) > 1 { return Split, msg, len, missed; }
      r := Pass;
      topics := topics[t := topics[t].(subs := topics[t].subs[i := topics[t].subs[i].(peeked := msg)])];
      desc := desc[msg := desc[msg].(pins := desc[msg].pins + 1)];
      len := desc[msg].len;
      missed := desc[msg].seqno - topics[t].subs[i].awaits;
      abs := BusOps.Peek(s, t, i);
      PinRep(c, s, t, i, desc[msg].pins, true, msg, Now(), abs);
      PeekInv(s, t, i);
    }

    /** v_bus_release: unpin the peeked message and move on, as after a pop of it. */
    method Release(t: nat, i: nat) returns (r: Status, freed: nat, ghost chain: seq<Block>)
      requires Valid() && t < |topics| && !abs.topics[t].pipe && i < |abs.topics[t].subs|
      modifies this`desc, this`topics, this`abs
      ensures Valid() && abs == BusOps.Release(old(abs), t, i)
      ensures r.Invalid? <==> !old(abs).topics[t].subs[i].peeked
      ensures r.Pass? <==> old(abs).topics[t].subs[i].peeked
      ensures freed == HeadOf(chain) && Threaded(desc, chain) && t < |abs.topics| && InHand(abs.topics[t], chain)
      ensures r.Pass? ==> var u := old(abs).topics[t].subs[i];
        && u.cur < |old(abs).topics[t].log| && HasNext(old(abs).topics[t], i)
        && abs == BusOps.Consume(old(abs), t, i, old(abs).topics[t].log[u.cur])
        && ReadBy(old(abs).topics[t], abs.topics[t], i, old(abs).topics[t].log[u.cur])
      ensures !r.Pass? ==> abs == old(abs)
      ensures abs == Apply(old(abs), ReleaseOp(t, i))
    {
      hide Rep, Books, Laws, MsgLaw, InHand, Threaded, BusOps.Release, Consumed, Unpinned, TopicLaw, HasNext, Next, ReadBy;
      ghost var c, s := Now(), abs;
      RepOf(c, s, t);
      PeekFacts(c, s, t, i);
      ReleaseFacts(s, t, i);
      EmptyChain(desc, abs.topics[t]);
      freed, chain := NIL, [];
      var msg := topics[t].subs[i].peeked;
      if msg == NIL { return Invalid, freed, chain; }
      ghost var data := s.topics[t].log[s.topics[t].subs[i].cur];
      ConsumeReads(s, t, i, data);
      Unpin(t, i, msg);
      UnpinThenConsume(s.topics[t], i, data);
      freed, chain := Consume(t, i, data);
      PutTwice(s, t, i, data);
      r := Pass;
    }

    /** The first half of v_bus_release. */
    method Unpin(t: nat, i: nat, msg: nat)
      requires Valid() && t < |topics| && !abs.topics[t].pipe && HasNext(abs.topics[t], i) && abs.topics[t].subs[i].peeked
      requires i < |topics[t].subs| && msg == topics[t].subs[i].peeked
      modifies this`desc, this`topics, this`abs
      ensures Valid() && abs == Put(old(abs), t, Unpinned(old(abs).topics[t], i))
      ensures |topics| == old(|topics|)
    {
      hide Rep, Books, Laws, MsgLaw;
      ghost var c, s := Now(), abs;
      RepOf(c, s, t);
      PeekFacts(c, s, t, i);
      LawOf(s, t);
      PinnedMsg(c, s, t, i);
      desc := desc[msg := desc[msg].(pins := desc[msg].pins - 1)];
      topics := topics[t := topics[t].(subs := topics[t].subs[i := topics[t].subs[i].(peeked := NIL)])];
      abs := Put(s, t, Unpinned(s.topics[t], i));
      PinRep(c, s, t, i, desc[msg].pins, false, msg, Now(), abs);
      UnpinnedTopic(s, s.topics[t], i);
      PutLaws(s, t, abs.topics[t]);
    }

    /** v_bus_reserve: one block, handed out under a ticket. */
    method Reserve(t: nat, maxLen: nat) returns (r: Status, ticket: nat)
      requires Valid() && t < |topics| && !abs.topics[t].pipe
      modifies this`desc, this`epoch, this`freeHead, this`freeCount, this`topics, this`abs
      ensures Valid()
      ensures r.Invalid? <==> maxLen > blockSize - HDR_SIZE
      ensures r.Invalid? ==> abs == old(abs)
      ensures var a := Alloc(old(abs), t, 1);
        && (r.Fail? ==> a.chain.None? && abs == a.s)
        && (r.Pass? ==> a.chain == Some([ticket]) && |a.s.topics| == |topics| && abs == Ticketed(a.s, t, ticket))
      ensures r.Pass? ==> ticket !in old(abs).topics[t].tickets && abs.topics[t].tickets == old(abs).topics[t].tickets + {ticket}
      ensures r.Invalid? || r.Fail? || r.Pass?
    {
      hide Rep, Books, Laws, HandsOff, Alloc, Filled, Building;
      ticket := NIL;
      if maxLen > blockSize - HDR_SIZE { return Invalid, ticket; }
      ghost var s := abs;
      var head;
      ghost var chain;
      head, chain := AllocMsg(t, 1);
      if head == NIL { return Fail, ticket; }
      ticket := head;
      ghost var c := Now();
      GotTicket(s, abs, t, chain, desc);
      desc := desc[head := desc[head].(used := RESERVED)];
      ghost var s1 := abs;
      abs := Ticketed(s1, t, ticket);
      TicketRep(c, Now(), s1, t, ticket, s1.topics[t].tickets + {ticket});
      TicketInv(s1, t, ticket);
      r := Pass;
    }

    /** ticket_ok, for a ticket that no other topic gave out: an open ticket of this topic. */
    method TicketOk(t: nat, ticket: nat) returns (ok: bool)
      requires Valid() && t < |topics| && forall u :: 0 <= u < |topics| && u != t ==> ticket !in abs.topics[u].tickets
      ensures ok <==> ticket in abs.topics[t].tickets
    {
      hide Rep, Books, Laws;
      if ticket < |desc| {
        Marks(Now(), abs, ticket);
        return desc[ticket].used == RESERVED;
      } else {
        if ticket in abs.topics[t].tickets { TicketMark(Now(), abs, t, ticket); }
        return false;
      }
    }

    /** v_bus_commit: publish what is in the ticket's block, or free it if nobody listens. */
    method Commit(t: nat, ticket: nat, len: nat) returns (r: Status)
      requires Valid() && t < |topics| && !abs.topics[t].pipe
      requires forall u :: 0 <= u < |topics| && u != t ==> ticket !in abs.topics[u].tickets
      modifies this`desc, this`epoch, this`freeHead, this`freeCount, this`topics, this`abs
      ensures Valid()
      ensures r.Pass? <==> ticket in old(abs).topics[t].tickets && len <= blockSize - HDR_SIZE
      ensures !r.Pass? ==> r.Invalid? && abs == old(abs)
      ensures r.Pass? ==> if old(abs).topics[t].subs == [] then abs == BusOps.FreeChain(old(abs), t, [ticket])
                          else CanLink(old(abs), t, [ticket]) && abs == BusOps.Link(old(abs), t, [ticket], len)
    {
      hide Rep, Books, Laws, HandsOff, BusOps.FreeChain, BusOps.Link, CanLink, InHand, Threaded, Redeem;
      var ok := TicketOk(t, ticket);
      if !ok || len > blockSize - HDR_SIZE { return Invalid; }
      r := Pass;
      ghost var c, s := Now(), abs;
      TicketMark(c, s, t, ticket);
      TicketNext(c, s, t, ticket);
      desc := desc[ticket := desc[ticket].(used := IN_USE)];
      abs := Redeem(s, t, ticket);
      RedeemRep(c, Now(), s, t, ticket);
      RedeemFacts(s, t, ticket, len, desc);
      TicketInv(s, t, ticket);
      var linked := LinkMsg(t, ticket, len, [ticket]);
      if !linked { Free(t, ticket, [ticket]); }
    }

    /** v_bus_cancel. */
    method Cancel(t: nat, ticket: nat) returns (r: Status)
      requires Valid() && t < |topics| && !abs.topics[t].pipe
      requires forall u :: 0 <= u < |topics| && u != t ==> ticket !in abs.topics[u].tickets
      modifies this`desc, this`epoch, this`freeHead, this`freeCount, this`topics, this`abs
      ensures Valid()
      ensures r.Pass? <==> ticket in old(abs).topics[t].tickets
      ensures !r.Pass? ==> r.Invalid? && abs == old(abs)
      ensures r.Pass? ==> abs == BusOps.FreeChain(old(abs), t, [ticket])
    {
      hide Rep, Books, Laws, HandsOff, BusOps.FreeChain, InHand;
      var ok := TicketOk(t, ticket);
      if !ok { return Invalid; }
      TicketMark(Now(), abs, t, ticket);
      TicketNext(Now(), abs, t, ticket);
      OneInHand(abs.topics[t], ticket);
      Free(t, ticket, [ticket]);
      r := Pass;
    }

    /** v_bus_subscribe: the new reader starts at the next message to be published. */
    method Subscribe(t: nat)
      requires Valid() && t < |topics| && !abs.topics[t].pipe
      modifies this`topics, this`abs
      ensures Valid() && abs == BusOps.Subscribe(old(abs), t)
      ensures |abs.topics| == |topics| == |old(topics)| && JoinedBy(old(abs).topics[t], abs.topics[t])
      ensures abs == Apply(old(abs), SubscribeOp(t))
    {
      hide Rep, Books, Laws, Chained, QueueRep, RingRep, LooseRep;
      ghost var c, s := Now(), abs;
      RepOf(c, s, t);
      topics := topics[t := topics[t].(subs := [Cur(NIL, NIL, topics[t].nextSeq)] + topics[t].subs)];
      JoinedSubs(c.topics[t], s.topics[t], topics[t]);
      abs := BusOps.Subscribe(s, t);
      SubsStep(c, s, t, Joined(s.topics[t]).subs, Now(), abs);
      JoinInv(s, t);
    }

    /** v_bus_unsubscribe: give up the reader's pin and its claim on every message it has not read,
        then free the run of messages at the head that nobody is waiting for any more. */
    method Unsubscribe(t: nat, i: nat)
      requires Valid() && t < |topics| && !abs.topics[t].pipe && i < |abs.topics[t].subs|
      modifies this`desc, this`epoch, this`freeHead, this`freeCount, this`topics, this`abs
      ensures Valid() && abs == BusOps.Unsubscribe(old(abs), t, i)
      ensures |abs.topics| == |old(abs).topics| && LeftBy(old(abs).topics[t], abs.topics[t], i)
      ensures abs == Apply(old(abs), UnsubscribeOp(t, i))
    {
      hide LeftBy, Rep, Books, Laws, FreeRead, LooseLaw, BusOps.FreeChain, BusOps.TakeHead, Without, NobodyAtHead, HandsOff;
      ghost var s := abs;
      UnsubscribeInv(s, t, i);
      LeavesFacts(s, t, i);
      LeaveLaw(s, t, i);
      DropClaims(t, i);
      QueueFacts(Now(), abs, t);
      if abs.topics[t].queue != [] { RefsFact(Now(), abs, t); }
      while topics[t].head != NIL && desc[topics[t].head].refs == 0
        invariant Good() && t < |topics| && !abs.topics[t].pipe && LooseLaw(abs.topics[t])
        invariant FreeRead(abs, t) == FreeRead(Detached(s, t, i), t)
        invariant topics[t].head == NIL <==> abs.topics[t].queue == []
        invariant topics[t].head != NIL ==> topics[t].head < |desc| && desc[topics[t].head].refs == abs.topics[t].queue[0].refs
        decreases |abs.topics[t].queue|
      {
        ghost var s1 := abs;
        UnwantedHead(abs.topics[t]);
        FreedHead(abs, t);
        ghost var chain := abs.topics[t].queue[0].chain;
        var msg := TakeHead(t);
        FreeChain(t, msg, chain);
        QueueFacts(Now(), abs, t);
        if abs.topics[t].queue != [] { RefsFact(Now(), abs, t); }
      }
      AllWanted(abs, t);
    }

    /** The reader leaves the list, and with it go its pin and its references. */
    method DropClaims(t: nat, i: nat)
      requires Valid() && t < |topics| && !abs.topics[t].pipe && i < |abs.topics[t].subs|
      modifies this`desc, this`topics, this`abs
      ensures Good() && abs == Detached(old(abs), t, i)
    {
      hide Rep, Books, Laws, ReaderLaw, HeaderRep, SubsRep, Leaving, HasNext, TopicRep, Without, Disclaim;
      ghost var c, s := Now(), abs;
      ghost var x := s.topics[t];
      RepOf(c, s, t);
      ReadersOf(s, t);
      LeaveFacts(c, s, t, i);
      var u := topics[t].subs[i];
      ghost var k := LeaveList(t, i, u);
      var m := u.cursor;
      while m != NIL
        invariant x.subs[i].cur - x.Base() <= k <= |x.queue| && m == LinkOf(x.queue, k)
        invariant Good() && t < |topics| && abs == Put(s, t, Leaving(x, i, k))
        decreases |x.queue| - k
      {
        LeavingStep(x, i, k);
        LeavingMsg(Now(), s, t, i, k);
        var next := desc[m].link;
        DropCount(t, k, m, 1, 0);
        m := next;
        k := k + 1;
      }
      NilEnds(c, s, t, k);
      LeavingEnd(x, i);
    }

    /** Off the list of subscriptions, and off the message it was peeking at. */
    method LeaveList(t: nat, i: nat, u: Cur) returns (ghost k: nat)
      requires Valid() && t < |topics| && !abs.topics[t].pipe && i < |abs.topics[t].subs|
      requires i < |topics[t].subs| && u == topics[t].subs[i]
      modifies this`desc, this`topics, this`abs
      ensures k == old(abs).topics[t].subs[i].cur - old(abs).topics[t].Base() && k <= |old(abs).topics[t].queue|
      ensures Good() && t < |topics| && abs == Put(old(abs), t, Leaving(old(abs).topics[t], i, k))
    {
      hide Rep, Books, Laws, ReaderLaw, HeaderRep, SubsRep, Leaving, HasNext;
      ghost var c, s := Now(), abs;
      ghost var x := s.topics[t];
      RepOf(c, s, t);
      ReadersOf(s, t);
      LeaveFacts(c, s, t, i);
      k := x.subs[i].cur - x.Base();
      LeavingStart(x, i, k);
      topics := topics[t := topics[t].(subs := topics[t].subs[..i] + topics[t].subs[i + 1..])];
      ghost var y := x.(subs := x.subs[..i] + x.subs[i + 1..]);
      LeftSubs(c.topics[t], x, topics[t], y, i);
      abs := Put(s, t, y);
      SubsStep(c, s, t, y.subs, Now(), abs);
      if u.peeked != NIL { DropCount(t, k, u.peeked, 0, 1); }
    }

    /** A message loses references or pins. */
    method DropCount(t: nat, ghost p: nat, b: nat, refs: nat, pins: nat)
      requires Good() && t < |topics| && !abs.topics[t].pipe && p < |abs.topics[t].queue| && abs.topics[t].queue[p].chain != []
      requires b == abs.topics[t].queue[p].chain[0]
      requires refs <= abs.topics[t].queue[p].refs && pins <= abs.topics[t].queue[p].pins
      modifies this`desc, this`abs
      ensures Good() && t < |abs.topics|
      ensures var x := old(abs).topics[t]; var m := x.queue[p];
        abs == Put(old(abs), t, x.(queue := x.queue[p := m.(refs := m.refs - refs, pins := m.pins - pins)]))
    {
      hide Rep, Books;
      ghost var c, s := Now(), abs;
      QueuedFacts(c, s, t, p);
      desc := desc[b := desc[b].(refs := desc[b].refs - refs, pins := desc[b].pins - pins)];
      ghost var m := s.topics[t].queue[p];
      ghost var n := m.(refs := m.refs - refs, pins := m.pins - pins);
      abs := Put(s, t, s.topics[t].(queue := s.topics[t].queue[p := n]));
      CountStep(c, s, t, p, n, b, Now(), abs);
    }

    /** v_bus_topic_declare. A pipe needs slots, and the pool must cover the reservation. */
    method Declare(reserve: nat, overflow: Overflow, pipe: bool) returns (r: Status)
      requires Valid()
      modifies this`desc, this`freeHead, this`freeCount, this`topics, this`abs
      ensures Valid() && abs == BusOps.Declare(old(abs), reserve, overflow, pipe)
      ensures r.Invalid? <==> pipe && reserve == 0
      ensures r.Fail? <==> reserve > |old(abs).pool|
      ensures !r.Invalid? && !r.Fail? ==> r.Pass?
      ensures r.Pass? && pipe ==> NeverUsed(desc, old(abs).pool[..reserve])
      ensures !r.Pass? ==> abs == old(abs)
      ensures r.Pass? ==> DeclaredBy(old(abs), abs, reserve, overflow, pipe)
      ensures abs == Apply(old(abs), DeclareOp(reserve, overflow, pipe))
    {
      hide Rep, Books, Laws, BusOps.Declare, Chained, RingRep, Slots, TopicsRep, Reversed, NeverUsed, DeclaredBy;
      ghost var c, s := Now(), abs;
      RepPool(c, s);
      Declares(s, reserve, overflow, pipe);
      DeclareInv(s, reserve, overflow, pipe);
      DeclareFacts(s, reserve, overflow, pipe);
      if pipe && reserve == 0 { return Invalid; }
      if reserve > freeCount { return Fail; }
      r := Pass;
      var stash, first := NIL, 0;
      if pipe { first := CarveRing(reserve); } else { stash := CarveStash(reserve); }
      freeCount := freeCount - reserve;
      ghost var c1 := Now();
      topics := topics + [NewRec(reserve, overflow, pipe, stash, first)];
      DeclaredRep(c1, s, reserve, overflow, pipe, stash, first, Now());
      abs := BusOps.Declare(s, reserve, overflow, pipe);
    }

    /** Move `reserve` blocks from the pool to a new stash. */
    method CarveStash(reserve: nat) returns (stash: nat)
      requires Good() && reserve <= freeCount
      modifies this`desc, this`freeHead
      ensures |desc| == |old(desc)| && Stashing(Now(), abs, reserve, stash)
    {
      hide Rep, Books, Stashing;
      stash := NIL;
      var k := 0;
      RepPool(Now(), abs);
      StartStash(Now(), abs);
      while k < reserve
        invariant k <= reserve && |desc| == |old(desc)| && Stashing(Now(), abs, k, stash)
      {
        ghost var c := Now();
        StashHead(c, abs, k, stash);
        var b := freeHead;
        freeHead := desc[b].next;
        desc := desc[b := desc[b].(next := stash, used := STASHED)];
        StashOne(c, abs, k, stash, Now(), b);
        stash := b;
        k := k + 1;
      }
    }

    /** Move `reserve` blocks from the pool to a closed ring of slots. */
    method CarveRing(reserve: nat) returns (first: nat)
      requires Good() && 0 < reserve <= freeCount
      modifies this`desc, this`freeHead
      ensures |desc| == |old(desc)| && reserve <= |abs.pool| && first == abs.pool[0]
      ensures RingRep(desc, abs.pool[..reserve]) && TopicsRep(desc, blockSize, topics, abs.topics)
      ensures Chained(desc, abs.pool[reserve..], FREE) && freeHead == HeadOf(abs.pool[reserve..])
      ensures NeverUsed(desc, abs.pool[..reserve])
    {
      hide Rep, Books, TopicsRep;
      var prev, k := NIL, 0;
      first := NIL;
      RepPool(Now(), abs);
      StartRing(Now(), abs);
      while k < reserve
        invariant k <= reserve <= |abs.pool| && |desc| == |old(desc)| && Ringing(Now(), abs, k)
        invariant first == (if k == 0 then NIL else abs.pool[0]) && prev == if k == 0 then NIL else abs.pool[k - 1]
        invariant k > 0 ==> prev < |desc| && prev != NIL
      {
        ghost var c := Now();
        RingHead(c, abs, k);
        var b := freeHead;
        freeHead := desc[b].next;
        desc := desc[b := desc[b].(used := PIPE_SLOT, seqno := 1)];
        RingOne(c, abs, k, Now(), b);
        if prev == NIL {
          first := b;
        } else {
          assert desc[abs.pool[k - 1]].next == b; // the pool already led from one to the other
          desc := desc[prev := desc[prev].(next := b)];
          assert desc == c.desc[b := desc[b]];
        }
        prev := b;
        k := k + 1;
      }
      ghost var c := Now();
      desc := desc[prev := desc[prev].(next := first)];
      RingClosed(c, abs, reserve, Now());
    }

    /** v_bus_check: it passes exactly when nothing is in transit. */
    method Check() returns (ok: bool)
      requires Valid()
      ensures ok <==> BusCheck.Quiet(abs)
    {
      hide Rep, Books, Laws, BusCheck.Quiet;
      ok := BusCheck.Check(Now(), abs);
    }

    /** The copy of publish, one block at a time, into a block in hand. */
    method Write(t: nat, b: nat, bytes: Bytes)
      requires Valid() && t < |topics| && b in abs.topics[t].loose
      modifies this`cell, this`abs
      ensures Valid() && b < |old(abs).cell| && abs == old(abs).(cell := old(abs).cell[b := bytes])
      ensures !old(abs).topics[t].pipe ==> abs == Apply(old(abs), WriteOp(t, b, bytes))
    {
      hide Rep, Laws, Books;
      ghost var s := abs;
      CellSize(s);
      InRange(s, t, b);
      cell := cell[b := bytes];
      abs := s.(cell := s.cell[b := bytes]);
      WriteInv(s, t, b, bytes);
      CellsOnly(Now(), s, abs);
    }

    // Pipes own their ring: what moves is the writer's number and the one reader's.

    method PipeSubscribe(t: nat) returns (r: Status)
      requires Valid() && t < |topics| && abs.topics[t].pipe
      modifies this`topics
      ensures Valid()
      ensures r.Busy? <==> |old(topics)[t].subs| > 0
      ensures r.Busy? ==> topics == old(topics)
      ensures !r.Busy? ==> r.Pass? && topics == old(topics)[t := old(topics)[t].(subs := [Cur(old(topics)[t].pipeWr, NIL, old(topics)[t].nextSeq)])]
    {
      hide Rep, Books, Laws;
      ghost var c := Now();
      if |topics[t].subs| > 0 { return Busy; }
      r := Pass;
      topics := topics[t := topics[t].(subs := [Cur(topics[t].pipeWr, NIL, topics[t].nextSeq)])];
      PipeFacts(c, abs, t);
      PipeStep(c, abs, t, c.topics[t].pipeWr, Now());
    }

    method PipeUnsubscribe(t: nat)
      requires Valid() && t < |topics| && abs.topics[t].pipe
      modifies this`topics
      ensures Valid() && topics == old(topics)[t := old(topics)[t].(subs := [])]
    {
      hide Rep, Books, Laws;
      ghost var c := Now();
      topics := topics[t := topics[t].(subs := [])];
      PipeFacts(c, abs, t);
      PipeStep(c, abs, t, c.topics[t].pipeWr, Now());
    }

    /** v_bus_publish on a pipe, run without interruption (see Pipe for its interleavings). */
    method PipePublish(t: nat, len: nat) returns (r: Status)
      requires Valid() && t < |topics| && abs.topics[t].pipe
      modifies this`desc, this`topics
      ensures Valid()
      ensures var o := old(topics)[t];
        && (r.Split? <==> len > blockSize - HDR_SIZE)
        && (r.Fail? <==> len <= blockSize - HDR_SIZE && o.subs != [] && o.overflow.Drop? && o.nextSeq - o.subs[0].awaits >= o.reserve)
        && (r.Pass? <==> !r.Split? && !r.Fail?)
        && (!r.Pass? || o.subs == [] ==> Now() == old(Now()))
        && (r.Pass? && o.subs != [] ==>
              && o.pipeWr < |old(desc)|
              && topics == old(topics)[t := o.(nextSeq := o.nextSeq + 1, pipeWr := old(desc)[o.pipeWr].next)]
              && desc == old(desc)[o.pipeWr := old(desc)[o.pipeWr].(len := len, seqno := 2 * o.nextSeq)])
    {
      hide Rep, Books, Laws;
      ghost var c := Now();
      PipeFacts(c, abs, t);
      var o := topics[t];
      if len > blockSize - HDR_SIZE { return Split; }
      if |o.subs| == 0 { return Pass; }
      if o.overflow != Overwrite {
        if o.nextSeq - o.subs[0].awaits >= o.reserve { return Fail; }
      } else {
        desc := desc[o.pipeWr := desc[o.pipeWr].(seqno := 2 * o.nextSeq + 1)];
      }
      desc := desc[o.pipeWr := desc[o.pipeWr].(len := len)];
      desc := desc[o.pipeWr := desc[o.pipeWr].(seqno := 2 * o.nextSeq)];
      topics := topics[t := o.(nextSeq := o.nextSeq + 1, pipeWr := desc[o.pipeWr].next)];
      assert desc == c.desc[o.pipeWr := c.desc[o.pipeWr].(len := len, seqno := 2 * o.nextSeq)];
      r := Pass;
      PublishedPipe(c, abs, t);
      PipeStep(c, abs, t, o.pipeWr, Now());
    }

    /** The pipe reader is done with message number `seqno`: its cursor goes once round the ring
        for every message it skipped or read. */
    method PipeConsume(t: nat, seqno: nat)
      requires Valid() && t < |topics| && abs.topics[t].pipe && |topics[t].subs| == 1
      requires topics[t].subs[0].awaits <= seqno < topics[t].nextSeq
      modifies this`topics
      ensures Valid() && |topics| == |old(topics)| && |topics[t].subs| == 1 && topics[t].subs[0].awaits == seqno + 1
      ensures topics == old(topics)[t := old(topics)[t].(subs := topics[t].subs)]
    {
      hide Rep, Books, Laws;
      ghost var c := Now();
      ghost var l := abs.topics[t].ring;
      PipeFacts(c, abs, t);
      var u := topics[t].subs[0];
      var rd, k := u.cursor, u.awaits;
      while k <= seqno
        invariant u.awaits <= k <= seqno + 1 && topics == c.topics && l != [] && rd == l[k % |l|]
      {
        RingStep(c, abs, t, k);
        rd, k := desc[rd].next, k + 1;
      }
      topics := topics[t := topics[t].(subs := [u.(cursor := rd, awaits := seqno + 1)])];
      PipeStep(c, abs, t, c.topics[t].pipeWr, Now());
    }

    /** v_bus_publish, uninterrupted: `data` is the payload, cut into the blocks it needs. With readers
        and blocks to be had, the topic's history grows by exactly these bytes. */
    method Publish(t: nat, len: nat, data: seq<Bytes>) returns (r: Status)
      requires Valid() && t < |topics| && !abs.topics[t].pipe && |data| == BlocksFor(blockSize, len)
      modifies this
      ensures Valid() && |topics| == |old(topics)|
      ensures r.Invalid? || r.Pass? || r.Fail?
      ensures r.Invalid? <==> |data| > |old(desc)|
      ensures r.Invalid? || (r.Pass? && old(abs).topics[t].subs == []) ==> abs == old(abs)
      ensures r.Fail? ==> Alloc(old(abs), t, |data|).chain.None? && abs == Alloc(old(abs), t, |data|).s
      ensures r.Pass? && old(abs).topics[t].subs != [] ==>
        && Alloc(old(abs), t, |data|).chain.Some?
        && abs.topics[t].log == old(abs).topics[t].log + [data]
        && |abs.topics[t].queue| > 0 && abs.topics[t].queue[|abs.topics[t].queue| - 1].len == len
    {
      hide Rep, Books, Laws, HandsOff, Alloc, Filled, CanLink, BusOps.Link, BlocksFor, HeadOf, SameLogs;
      RepOf(Now(), abs, t);
      SubsCount(Now(), abs, t);
      if BlocksFor(blockSize, len) > |desc| { return Invalid; }
      if |topics[t].subs| == 0 { return Pass; }
      ghost var s := abs;
      var msg;
      ghost var chain;
      msg, chain := AllocMsg(t, BlocksFor(blockSize, len));
      AllocKeeps(s, t, |data|);
      LogsOf(s, abs, t);
      if msg == NIL { return Fail; }
      ChainThere(chain, msg);
      FreshChain(s, abs, t, chain, |data|);
      Deliver(t, msg, len, data, chain);
      return Pass;
    }

    /** The rest of v_bus_publish, for a topic with readers: copy, then link. */
    method Deliver(t: nat, msg: nat, len: nat, data: seq<Bytes>, ghost chain: seq<Block>)
      requires Valid() && t < |topics| && !abs.topics[t].pipe && |data| == BlocksFor(blockSize, len) == |chain|
      requires CanLink(abs, t, chain) && Filled(desc, chain) && msg == HeadOf(chain) && abs.topics[t].tickets !! Elems(chain)
      requires abs.topics[t].subs != []
      modifies this
      ensures Valid() && |topics| == |old(topics)| && abs.topics[t].log == old(abs).topics[t].log + [data]
      ensures |abs.topics[t].queue| > 0 && abs.topics[t].queue[|abs.topics[t].queue| - 1].len == len
    {
      hide Rep, Books, Laws, Filled, BusOps.Link, BlocksFor;
      CopyBlocks(t, msg, data, chain);
      LinkedData(abs, t, chain, len, data);
      var linked := LinkMsg(t, msg, len, chain);
    }

    /** copy_payload into a chain in hand, block by block. */
    method CopyBlocks(t: nat, msg: nat, data: seq<Bytes>, ghost chain: seq<Block>)
      requires Valid() && t < |topics| && CanLink(abs, t, chain) && Filled(desc, chain) && msg == HeadOf(chain) && |data| == |chain|
      modifies this`cell, this`abs
      ensures Valid() && abs == old(abs).(cell := cell) && CanLink(abs, t, chain)
      ensures |cell| == |old(cell)| && forall i :: 0 <= i < |chain| ==> chain[i] < |cell| && cell[chain[i]] == data[i]
    {
      hide Rep, Books, Laws, HandsOff;
      var b, k := msg, 0;
      while k < |data|
        invariant k <= |data| && Valid() && abs == old(abs).(cell := cell) && |cell| == |old(cell)| && CanLink(abs, t, chain)
        invariant k < |data| ==> b == chain[k]
        invariant forall i :: 0 <= i < k ==> cell[chain[i]] == data[i]
      {
        Write(t, b, data[k]);
        b := desc[b].next;
        k := k + 1;
      }
    }
  }

  /** v_bus_init. */
  method BusInit(blockSize: nat, count: nat) returns (bus: Bus?)
    ensures bus == null <==> blockSize < HDR_SIZE || blockSize % 4 != 0 || count == 0 || count >= NIL
    ensures bus != null ==> fresh(bus) && bus.Valid() && bus.abs == Init(count) && bus.blockSize == blockSize
  {
    if blockSize < HDR_SIZE || blockSize % 4 != 0 || count == 0 || count >= NIL { return null; }
    bus := new Bus(blockSize, count);
  }
}
