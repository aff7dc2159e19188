/** What v_bus_check can tell about a memory nothing is known about. A list it accepts is one, with no block
    twice, and its free list is exactly the free blocks. It does not compare the lists of different
    topics. */
module BusDetect {
  import opened Lists
  import opened BusState
  import opened BusLoans
  import opened BusRep
  import opened BusCheck

  // --- Walks over any memory ------------------------------------------------------------------------------

  /** The blocks from `head` on, if they all carry the mark and end within `limit`. */
  ghost function Listed(desc: seq<Desc>, head: nat, used: nat, limit: nat): Option<seq<Block>>
    decreases limit
  {
    if head == NIL then Some([])
    else if limit > 0 && head < |desc| && desc[head].used == used then
      var rest := Listed(desc, desc[head].next, used, limit - 1);
      if rest.Some? then Some([head] + rest.value) else None
    else None
  }

  /** That is a list in memory, no longer than the limit; and every such list is found. */
  lemma {:induction false} ListedExactly(desc: seq<Desc>, head: nat, used: nat, limit: nat, l: seq<Block>)
    requires |desc| < NIL
    ensures Listed(desc, head, used, limit) == Some(l) <==> Chained(desc, l, used) && head == HeadOf(l) && |l| <= limit
    decreases limit
  {
    if head != NIL && limit > 0 && head < |desc| && desc[head].used == used {
      var next := desc[head].next;
      if l != [] && l[0] == head {
        ListedExactly(desc, next, used, limit - 1, l[1..]);
        TailChained(desc, l, used);
        assert [head] + l[1..] == l;
      }
      var rest := Listed(desc, next, used, limit - 1);
      if rest.Some? { assert ([head] + rest.value)[1..] == rest.value && ([head] + rest.value)[0] == head; }
    }
  }

  lemma TailChained(desc: seq<Desc>, l: seq<Block>, used: nat)
    requires l != [] && l[0] < |desc| < NIL
    ensures Chained(desc, l, used) <==> desc[l[0]].used == used && desc[l[0]].next == HeadOf(l[1..]) && Chained(desc, l[1..], used)
  {
    forall i | 0 <= i < |l| - 1 ensures NextIn(l[1..], i) == NextIn(l, i + 1) && l[1..][i] == l[i + 1] {}
    if desc[l[0]].used == used && desc[l[0]].next == HeadOf(l[1..]) && Chained(desc, l[1..], used) {
      forall i | 0 <= i < |l| ensures l[i] < |desc| && desc[l[i]].used == used && desc[l[i]].next == NextIn(l, i) {
        if i > 0 { assert l[1..][i - 1] == l[i]; }
      }
    }
  }

  /** A list that ends has no block twice: from the same block on it would go on for ever. */
  lemma {:induction false} ChainedDistinct(desc: seq<Desc>, l: seq<Block>, used: nat)
    requires Chained(desc, l, used) && |desc| < NIL
    ensures Distinct(l)
  {
    forall i, j | 0 <= i < j < |l| ensures l[i] != l[j] {
      if l[i] == l[j] { InStep(desc, l, used, i, j); }
    }
  }

  lemma {:induction false} InStep(desc: seq<Desc>, l: seq<Block>, used: nat, i: nat, j: nat)
    requires Chained(desc, l, used) && |desc| < NIL && i < j < |l| && l[i] == l[j]
    ensures false
    decreases |l| - j
  {
    assert desc[l[i]].next == NextIn(l, i) && desc[l[j]].next == NextIn(l, j);
    if j + 1 < |l| { InStep(desc, l, used, i + 1, j + 1); }
  }

  /** The walk of v_bus_check, over any memory. */
  method Follow(c: Mem, head: nat, used: nat, limit: nat) returns (ok: bool, n: nat)
    requires |c.desc| < NIL
    ensures ok <==> Listed(c.desc, head, used, limit).Some?
    ensures ok ==> n == |Listed(c.desc, head, used, limit).value|
  {
    var i: nat := head;
    ok, n := true, 0;
    while i != NIL && ok
      invariant n <= limit
      invariant ok ==> (Listed(c.desc, head, used, limit).Some? <==> Listed(c.desc, i, used, limit - n).Some?)
      invariant ok && Listed(c.desc, i, used, limit - n).Some? ==>
        |Listed(c.desc, head, used, limit).value| == n + |Listed(c.desc, i, used, limit - n).value|
      invariant !ok ==> Listed(c.desc, head, used, limit).None?
      decreases ok, limit - n
    {
      ok := i < |c.desc| && c.desc[i].used == used && n < limit;
      if ok { n, i := n + 1, c.desc[i].next; }
    }
  }

  // --- The free list ----------------------------------------------------------------------------------------

  /** l is the free list: every free block, once. */
  ghost predicate FreeList(c: Mem, l: seq<Block>) {
    && Distinct(l) && Chained(c.desc, l, FREE) && c.freeHead == HeadOf(l) && c.freeCount == |l|
    && forall b :: 0 <= b < |c.desc| ==> (c.desc[b].used == FREE <==> b in l)
  }

  /** v_bus_check up to topics_ok: it passes exactly when the memory has a free list and that is all the
      blocks marked free. */
  method FreeListOk(c: Mem) returns (ok: bool)
    requires |c.desc| < NIL
    ensures ok <==> exists l :: FreeList(c, l)
  {
    var onList;
    ok, onList := Follow(c, c.freeHead, FREE, |c.desc|);
    if !ok {
      NoFreeList(c);
      return;
    }
    var used, i := 0, 0;
    assert Marked(c.desc, FREE, 0) == {};
    while i < |c.desc|
      invariant i <= |c.desc| && used + |Marked(c.desc, FREE, i)| == i
    {
      MarkedMore(c.desc, FREE, i);
      if c.desc[i].used != FREE { used := used + 1; }
      i := i + 1;
    }
    ok := onList == c.freeCount && c.freeCount <= |c.desc| && used == |c.desc| - c.freeCount;
    FreeExactly(c, Listed(c.desc, c.freeHead, FREE, |c.desc|).value);
  }

  /** A free list is no longer than the memory, so the walk finds it. */
  lemma FoundFree(c: Mem, l: seq<Block>)
    requires |c.desc| < NIL && FreeList(c, l)
    ensures Listed(c.desc, c.freeHead, FREE, |c.desc|) == Some(l) && |l| == |Marked(c.desc, FREE, |c.desc|)|
  {
    DistinctSize(l);
    assert Elems(l) == Marked(c.desc, FREE, |c.desc|);
    MarkedSize(c.desc, FREE, |c.desc|);
    ListedExactly(c.desc, c.freeHead, FREE, |c.desc|, l);
  }

  lemma {:induction false} MarkedSize(desc: seq<Desc>, mark: nat, n: nat)
    requires n <= |desc|
    ensures |Marked(desc, mark, n)| <= n
  {
    if n > 0 {
      MarkedSize(desc, mark, n - 1);
      MarkedMore(desc, mark, n - 1);
    } else {
      assert Marked(desc, mark, 0) == {};
    }
  }

  lemma NoFreeList(c: Mem)
    requires |c.desc| < NIL && Listed(c.desc, c.freeHead, FREE, |c.desc|).None?
    ensures forall l :: !FreeList(c, l)
  {
    forall l ensures !FreeList(c, l) {
      if FreeList(c, l) { FoundFree(c, l); }
    }
  }

  lemma FreeExactly(c: Mem, l: seq<Block>)
    requires |c.desc| < NIL && Listed(c.desc, c.freeHead, FREE, |c.desc|) == Some(l)
    ensures (exists k :: FreeList(c, k)) <==> |l| == c.freeCount == |Marked(c.desc, FREE, |c.desc|)|
  {
    ListedExactly(c.desc, c.freeHead, FREE, |c.desc|, l);
    ChainedDistinct(c.desc, l, FREE);
    DistinctSize(l);
    var marked := Marked(c.desc, FREE, |c.desc|);
    assert Elems(l) <= marked;
    if |l| == c.freeCount == |marked| {
      SameSet(Elems(l), marked);
      forall b | 0 <= b < |c.desc| ensures c.desc[b].used == FREE <==> b in l {
        assert b in marked <==> b in Elems(l);
      }
      hide Chained, Distinct;
      assert FreeList(c, l);
    }
    if k :| FreeList(c, k) { FoundFree(c, k); }
  }

  lemma SameSet(a: set<Block>, b: set<Block>)
    requires a <= b && |a| == |b|
    ensures a == b
  {
    assert b == a + (b - a) && |b| == |a| + |b - a|;
  }

  // --- What it does not see ---------------------------------------------------------------------------------

  /** What topics_ok asks of an ordinary topic that has no message and no reader. */
  ghost predicate PlainOk(c: Mem, r: Rec) {
    var l := Listed(c.desc, r.stash, STASHED, r.stashCount);
    && !r.pipe && r.head == NIL && r.tail == NIL && r.blocks == 0 && r.subs == []
    && l.Some? && |l.value| == r.stashCount && r.stashCount + r.lent <= r.reserve
  }

  /** Two topics that both claim block 0 as their one idle block, and a block that nobody has. */
  ghost function Shared(): Mem {
    var d := Desc(NIL, STASHED, NIL, 0, 0, 0, 0);
    var r := Rec(1, Drop, false, NIL, NIL, 0, 0, 1, 0, 0, 0, 0, []);
    Mem(16, [d, d], NIL, 0, [r, r])
  }

  /** Every test passes: the free list, both topics, the loans, and the number of blocks accounted for. But
      the memory represents no bus with its books in order. */
  lemma {:induction false} SharedStash()
    ensures var c := Shared();
      && FreeList(c, []) && |c.topics| == 2 && PlainOk(c, c.topics[0]) && PlainOk(c, c.topics[1])
      && c.topics[0].lent + c.topics[1].lent == c.topics[0].borrowed + c.topics[1].borrowed
      && c.freeCount + c.topics[0].stashCount + c.topics[1].stashCount == |c.desc|
    ensures forall s :: !(Rep(Shared(), s) && Books(s))
  {
    var c := Shared();
    ListedExactly(c.desc, 0, STASHED, 1, [0]);
    assert Chained(c.desc, [0], STASHED);
    forall s ensures !(Rep(c, s) && Books(s)) { NoSuchBus(c, s); }
  }

  lemma NoSuchBus(c: Mem, s: State)
    requires c == Shared()
    ensures !(Rep(c, s) && Books(s))
  {
    if Rep(c, s) && Books(s) {
      assert TopicRep(c.desc, c.blockSize, c.topics[0], s.topics[0]) && TopicRep(c.desc, c.blockSize, c.topics[1], s.topics[1]);
      FirstThere(s.topics[0]);
      FirstThere(s.topics[1]);
      Apart(s, 0, 0);
    }
  }

  /** The block at the head of a stash is in it. */
  lemma FirstThere(x: Topic)
    ensures HeadOf(x.stash) == 0 ==> InTopic(x, 0) >= 1
  {
    if HeadOf(x.stash) == 0 { assert x.stash[0] == 0 && Occurs(x.stash, 0) >= 1; }
  }
}
