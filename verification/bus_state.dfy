/** The bus of kernel/bus.c as a value: which block is where, what every topic has lent and
    borrowed, which messages are queued, and how far every subscription has read.

    Block lists are sequences here; BusImpl threads the same lists through `desc[].next`.
    Topics are kept in declaration order. `bus->topics` is a list that declare pushes on the
    front of, so a walk of that list visits the indices from the last to the first.
 */
module BusState {
  import opened Lists

  type Block = nat
  type Bytes = seq<bv8>

  datatype Overflow = Drop | Overwrite

  /** A queued message: its block chain and the header fields the bus keeps in the first block. */
  datatype Msg = Msg(chain: seq<Block>, seqno: nat, len: nat, refs: nat, pins: nat)

  /** One successful pop or release, as the reader saw it. */
  datatype Delivery = Delivery(seqno: nat, data: seq<Bytes>, missed: nat)

  /** v_bus_pop between its two critical sections: the message and epoch it noted, and the
      blocks it has copied out so far. */
  datatype Pop = Idle | Copying(msg: Block, epoch: nat, buf: seq<Bytes>)

  /** A subscription. `cur` is the sequence number of its next unread message, which is the
      number the next publish will get when it is caught up (a NIL cursor in the C code). */
  datatype Sub = Sub(cur: nat, peeked: bool, awaits: nat, start: nat, got: seq<Delivery>, pop: Pop)

  /** A topic. `loose` are the blocks in the hands of its publishers and readers: allocated but
      not linked yet, or unlinked but not freed yet; `tickets` are the loose blocks handed out
      by v_bus_reserve. `log` and `evicted` are its history: the bytes of every message ever
      linked, and the numbers of those that were overwritten. */
  datatype Topic = Topic(
    reserve: nat, overflow: Overflow, pipe: bool,
    stash: seq<Block>, lent: nat, borrowed: nat,
    queue: seq<Msg>, subs: seq<Sub>,
    loose: set<Block>, tickets: set<Block>, ring: seq<Block>,
    log: seq<seq<Bytes>>, evicted: set<nat>)
  {
    /** Sequence number of the oldest queued message. */
    ghost function Base(): int { |log| - |queue| }
  }

  datatype State = State(pool: seq<Block>, topics: seq<Topic>, epoch: seq<nat>, cell: seq<Bytes>)

  ghost function Elems<T>(s: seq<T>): set<T> { set x | x in s }

  // --- Where the blocks are -----------------------------------------------------

  /** How often block b occurs in a list. */
  ghost function Occurs(l: seq<Block>, b: Block): nat { multiset(l)[b] }

  ghost function InQueue(q: seq<Msg>, b: Block): nat {
    if q == [] then 0 else Occurs(q[0].chain, b) + InQueue(q[1..], b)
  }

  ghost function InTopic(t: Topic, b: Block): nat {
    Occurs(t.stash, b) + InQueue(t.queue, b) + (if b in t.loose then 1 else 0) + Occurs(t.ring, b)
  }

  ghost function InTopics(ts: seq<Topic>, b: Block): nat {
    if ts == [] then 0 else InTopic(ts[0], b) + InTopics(ts[1..], b)
  }

  /** In how many places block b is: the pool, a stash, a queued message, somebody's hands, a ring. */
  ghost function Places(s: State, b: Block): nat {
    Occurs(s.pool, b) + InTopics(s.topics, b)
  }

  /** Every block of the pool is in exactly one place, and no other block is anywhere. */
  ghost predicate OnePlace(s: State) {
    forall b: Block :: Places(s, b) == if b < |s.epoch| then 1 else 0
  }

  /** Blocks held by queued messages (`topic->blocks`). */
  ghost function QueueLen(q: seq<Msg>): nat {
    if q == [] then 0 else |q[0].chain| + QueueLen(q[1..])
  }

  /** Blocks a topic has outside its stash. */
  ghost function Held(t: Topic): nat { QueueLen(t.queue) + |t.loose| }

  ghost function Size(t: Topic): nat { |t.stash| + Held(t) + |t.ring| }

  ghost function SumSize(ts: seq<Topic>): nat {
    if ts == [] then 0 else Size(ts[0]) + SumSize(ts[1..])
  }

  /** All blocks that are anywhere. */
  ghost function Total(s: State): nat { |s.pool| + SumSize(s.topics) }

  ghost function SumLent(ts: seq<Topic>): nat {
    if ts == [] then 0 else ts[0].lent + SumLent(ts[1..])
  }

  ghost function SumBorrowed(ts: seq<Topic>): nat {
    if ts == [] then 0 else ts[0].borrowed + SumBorrowed(ts[1..])
  }

  ghost function SumQueued(ts: seq<Topic>): nat {
    if ts == [] then 0 else |ts[0].queue| + SumQueued(ts[1..])
  }

  // --- Sums under a change of one topic -------------------------------------------

  lemma {:induction false} UpdateIn(ts: seq<Topic>, t: nat, x: Topic, b: Block)
    requires t < |ts|
    ensures InTopics(ts[t := x], b) + InTopic(ts[t], b) == InTopics(ts, b) + InTopic(x, b)
  {
    if t == 0 {
      assert ts[t := x][1..] == ts[1..];
    } else {
      UpdateIn(ts[1..], t - 1, x, b);
      assert ts[t := x][1..] == ts[1..][t - 1 := x];
    }
  }

  lemma {:induction false} UpdateSums(ts: seq<Topic>, t: nat, x: Topic)
    requires t < |ts|
    ensures SumSize(ts[t := x]) + Size(ts[t]) == SumSize(ts) + Size(x)
    ensures SumLent(ts[t := x]) + ts[t].lent == SumLent(ts) + x.lent
    ensures SumBorrowed(ts[t := x]) + ts[t].borrowed == SumBorrowed(ts) + x.borrowed
    ensures SumQueued(ts[t := x]) + |ts[t].queue| == SumQueued(ts) + |x.queue|
  {
    if t == 0 {
      assert ts[t := x][1..] == ts[1..];
    } else {
      UpdateSums(ts[1..], t - 1, x);
      assert ts[t := x][1..] == ts[1..][t - 1 := x];
    }
  }

  lemma {:induction false} AppendSums(ts: seq<Topic>, x: Topic)
    ensures forall b :: InTopics(ts + [x], b) == InTopics(ts, b) + InTopic(x, b)
    ensures SumSize(ts + [x]) == SumSize(ts) + Size(x)
    ensures SumLent(ts + [x]) == SumLent(ts) + x.lent
    ensures SumBorrowed(ts + [x]) == SumBorrowed(ts) + x.borrowed
  {
    if ts == [] {
      assert ts + [x] == [x];
      assert [x][1..] == [];
    } else {
      AppendSums(ts[1..], x);
      assert (ts + [x])[1..] == ts[1..] + [x];
    }
  }

  /** What one topic has shows in the sums. */
  lemma {:induction false} PartOfSums(ts: seq<Topic>, t: nat)
    requires t < |ts|
    ensures ts[t].lent <= SumLent(ts)
    ensures ts[t].borrowed <= SumBorrowed(ts)
    ensures |ts[t].queue| <= SumQueued(ts)
    ensures forall b :: InTopic(ts[t], b) <= InTopics(ts, b)
  {
    if t > 0 { PartOfSums(ts[1..], t - 1); }
  }

  lemma {:induction false} TwoParts(ts: seq<Topic>, t: nat, u: nat, b: Block)
    requires t < u < |ts|
    ensures InTopic(ts[t], b) + InTopic(ts[u], b) <= InTopics(ts, b)
  {
    if t == 0 {
      PartOfSums(ts[1..], u - 1);
    } else {
      TwoParts(ts[1..], t - 1, u - 1, b);
    }
  }

  /** A positive sum has a topic behind it. */
  lemma {:induction false} SomeLender(ts: seq<Topic>) returns (t: nat)
    requires SumLent(ts) > 0
    ensures t < |ts| && ts[t].lent > 0
  {
    if ts[0].lent > 0 { t := 0; } else { t := SomeLender(ts[1..]); t := t + 1; }
  }

  lemma {:induction false} SomeBorrower(ts: seq<Topic>) returns (t: nat)
    requires SumBorrowed(ts) > 0
    ensures t < |ts| && ts[t].borrowed > 0
  {
    if ts[0].borrowed > 0 { t := 0; } else { t := SomeBorrower(ts[1..]); t := t + 1; }
  }

  // --- Sums over a queue ------------------------------------------------------------

  lemma {:induction false} AppendQueue(q: seq<Msg>, m: Msg)
    ensures forall b :: InQueue(q + [m], b) == InQueue(q, b) + Occurs(m.chain, b)
    ensures QueueLen(q + [m]) == QueueLen(q) + |m.chain|
  {
    if q == [] {
      assert q + [m] == [m];
      assert [m][1..] == [];
    } else {
      AppendQueue(q[1..], m);
      assert (q + [m])[1..] == q[1..] + [m];
    }
  }

  /** Header fields other than the chain do not move blocks. */
  lemma {:induction false} SameChains(q: seq<Msg>, r: seq<Msg>)
    requires |q| == |r| && forall i :: 0 <= i < |q| ==> q[i].chain == r[i].chain
    ensures forall b :: InQueue(q, b) == InQueue(r, b)
    ensures QueueLen(q) == QueueLen(r)
  {
    if q != [] { SameChains(q[1..], r[1..]); }
  }

  lemma {:induction false} PartOfQueue(q: seq<Msg>, i: nat)
    requires i < |q|
    ensures forall b :: Occurs(q[i].chain, b) <= InQueue(q, b)
    ensures |q[i].chain| <= QueueLen(q)
  {
    if i > 0 { PartOfQueue(q[1..], i - 1); }
  }

  lemma {:induction false} TwoPartsOfQueue(q: seq<Msg>, i: nat, j: nat, b: Block)
    requires i < j < |q|
    ensures Occurs(q[i].chain, b) + Occurs(q[j].chain, b) <= InQueue(q, b)
  {
    if i == 0 {
      PartOfQueue(q[1..], j - 1);
    } else {
      TwoPartsOfQueue(q[1..], i - 1, j - 1, b);
    }
  }

  // --- Lists ------------------------------------------------------------------------

  lemma OccursCons(h: Block, r: seq<Block>, b: Block)
    ensures Occurs([h] + r, b) == (if h == b then 1 else 0) + Occurs(r, b)
  {
  }

  lemma OccursHead(l: seq<Block>, b: Block)
    requires l != []
    ensures Occurs(l, b) == (if l[0] == b then 1 else 0) + Occurs(l[1..], b)
  {
    assert l == [l[0]] + l[1..];
  }

  /** A block that occurs at most once in a list is there at one position only. */
  lemma {:induction false} OnceOnly(l: seq<Block>, i: nat, j: nat)
    requires i < j < |l| && l[i] == l[j]
    ensures Occurs(l, l[i]) >= 2
  {
    assert l == l[..j] + l[j..];
    assert l[i] == l[..j][i] && l[i] == l[j..][0];
    assert l[i] in multiset(l[..j]) && l[i] in multiset(l[j..]);
  }

  /** In a list without repetitions, occurring is membership. */
  lemma {:induction false} OccursOnce(l: seq<Block>, b: Block)
    requires Distinct(l)
    ensures Occurs(l, b) == if b in l then 1 else 0
  {
    if l != [] {
      OccursHead(l, b);
      OccursOnce(l[1..], b);
      assert l[0] !in l[1..];
    }
  }

  lemma {:induction false} DistinctSize<T>(s: seq<T>)
    requires Distinct(s)
    ensures |Elems(s)| == |s|
  {
    if s != [] {
      DistinctSize(s[1..]);
      assert s[0] !in s[1..];
      assert Elems(s) == {s[0]} + Elems(s[1..]);
    }
  }
}
