/** The multi-producer multi-consumer queue of kernel/structure.c: a ring under a mutex, with one
    semaphore counting free slots and one counting items. A step is one semaphore operation or one
    locked section; any number of threads may be between two steps of a push or a pop. */
module Mpmc {
  datatype Policy = Drop | Overwrite

  /** `pushing` and `pushed` count threads that have taken a free slot and not yet filled it, and that
      have filled it and not yet said so; `popping` and `popped` likewise for pops. History: `log` is
      every item ever put in, `gone` how many of them left again, `got` which ones were popped. */
  datatype State<T> = State(
    policy: Policy, buf: seq<T>, head: nat, tail: nat, count: nat, notFull: nat, notEmpty: nat,
    pushing: nat, pushed: nat, popping: nat, popped: nat, log: seq<T>, gone: nat, got: seq<nat>)

  datatype Op<T> =
    | TakeSlot            // v_semaphore_take(not_full) succeeds
    | Put(x: T)           // push's locked section
    | GiveItem            // v_semaphore_give(not_empty)
    | Displace(x: T)      // the locked section of a push that found no free slot and may overwrite
    | TakeItem            // v_semaphore_take(not_empty) succeeds
    | Get                 // pop's locked section
    | GiveSlot            // v_semaphore_give(not_full)

  // --- Steps ----------------------------------------------------------------------------------------

  function Apply<T>(s: State<T>, op: Op<T>): State<T> {
    match op
    case TakeSlot => if s.notFull > 0 then s.(notFull := s.notFull - 1, pushing := s.pushing + 1) else s
    case Put(x) =>
      if s.pushing > 0 && s.head < |s.buf| then
        s.(pushing := s.pushing - 1, pushed := s.pushed + 1, buf := s.buf[s.head := x], head := (s.head + 1) % |s.buf|,
           count := s.count + 1, log := s.log + [x])
      else s
    case GiveItem => if s.pushed > 0 then s.(pushed := s.pushed - 1, notEmpty := Give(s.notEmpty, |s.buf|)) else s
    case Displace(x) =>
      if s.policy.Overwrite? && |s.buf| > 0 && s.count == |s.buf| && s.head < |s.buf| then
        s.(buf := s.buf[s.head := x], head := (s.head + 1) % |s.buf|, tail := (s.tail + 1) % |s.buf|,
           log := s.log + [x], gone := s.gone + 1)
      else s
    case TakeItem => if s.notEmpty > 0 then s.(notEmpty := s.notEmpty - 1, popping := s.popping + 1) else s
    case Get =>
      if s.popping > 0 && s.count > 0 then
        s.(popping := s.popping - 1, popped := s.popped + 1, tail := if s.tail + 1 >= |s.buf| then 0 else s.tail + 1,
           count := s.count - 1, gone := s.gone + 1, got := s.got + [s.gone])
      else s
    case GiveSlot => if s.popped > 0 then s.(popped := s.popped - 1, notFull := Give(s.notFull, |s.buf|)) else s
  }

  /** v_semaphore_give: refused at the limit. */
  function Give(count: nat, limit: nat): nat { if count >= limit then count else count + 1 }

  // --- The invariant --------------------------------------------------------------------------------

  /** Every slot is free, promised to a push, filled, or about to be declared free; every item is
      declared, about to be, or promised to a pop. */
  ghost predicate Tokens<T>(s: State<T>) {
    && s.notFull + s.pushing + s.count + s.popped == |s.buf|
    && s.notEmpty + s.popping + s.pushed == s.count
  }

  ghost function At(n: nat, t: nat, i: nat): (k: nat)
    requires t < n && i <= n
    ensures k < n
  {
    if t + i < n then t + i else t + i - n
  }

  /** The ring holds the last `count` items of the log, oldest at the tail. */
  ghost predicate Ring<T>(s: State<T>) {
    && |s.log| == s.gone + s.count
    && (|s.buf| == 0 ==> s.count == 0)
    && (|s.buf| > 0 ==>
          && s.tail < |s.buf| && s.count <= |s.buf| && s.head == At(|s.buf|, s.tail, s.count)
          && forall i :: 0 <= i < s.count ==> s.buf[At(|s.buf|, s.tail, i)] == s.log[s.gone + i])
  }

  /** Pops took items in the order they were put in, each at most once; without overwriting, all of them. */
  ghost predicate InOrder<T>(s: State<T>) {
    && (forall k :: 0 <= k < |s.got| ==> s.got[k] < s.gone)
    && (forall k, l :: 0 <= k < l < |s.got| ==> s.got[k] < s.got[l])
    && (s.policy.Drop? ==> |s.got| == s.gone && forall k :: 0 <= k < |s.got| ==> s.got[k] == k)
  }

  ghost predicate Inv<T>(s: State<T>) { Tokens(s) && Ring(s) && InOrder(s) }

  lemma NextIs(n: nat, k: nat)
    requires k < n
    ensures (k + 1) % n == if k + 1 < n then k + 1 else 0
  {
    if k + 1 == n { assert n % n == 0; }
  }

  lemma PutRing<T>(s: State<T>, x: T)
    requires Tokens(s) && Ring(s) && s.pushing > 0
    ensures Ring(Apply(s, Put(x))) && s.head < |s.buf| && s.count < |s.buf|
  {
    var r := Apply(s, Put(x));
    var n := |s.buf|;
    NextIs(n, s.head);
    forall i | 0 <= i < r.count ensures r.buf[At(n, r.tail, i)] == r.log[r.gone + i] {
      if i < s.count { assert At(n, s.tail, i) != s.head; }
    }
  }

  lemma GetRing<T>(s: State<T>)
    requires Tokens(s) && Ring(s) && s.popping > 0
    ensures Ring(Apply(s, Get)) && s.count > 0
  {
    var r := Apply(s, Get);
    var n := |s.buf|;
    forall i | 0 <= i < r.count ensures r.buf[At(n, r.tail, i)] == r.log[r.gone + i] {
      assert At(n, r.tail, i) == At(n, s.tail, i + 1);
    }
  }

  lemma DisplaceRing<T>(s: State<T>, x: T)
    requires Ring(s)
    ensures Ring(Apply(s, Displace(x)))
  {
    var r := Apply(s, Displace(x));
    if s.policy.Overwrite? && |s.buf| > 0 && s.count == |s.buf| && s.head < |s.buf| {
      var n := |s.buf|;
      NextIs(n, s.head);
      NextIs(n, s.tail);
      forall i | 0 <= i < r.count ensures r.buf[At(n, r.tail, i)] == r.log[r.gone + i] {
        if i + 1 < n {
          assert At(n, r.tail, i) == At(n, s.tail, i + 1) != s.head;
        }
      }
    }
  }

  lemma StepRing<T>(s: State<T>, op: Op<T>)
    requires Tokens(s) && Ring(s)
    ensures Ring(Apply(s, op))
  {
    hide Tokens;
    match op
    case Put(x) => if s.pushing > 0 { PutRing(s, x); }
    case Get => if s.popping > 0 { GetRing(s); }
    case Displace(x) => DisplaceRing(s, x);
    case _ =>
  }

  lemma StepTokens<T>(s: State<T>, op: Op<T>)
    requires Tokens(s)
    ensures Tokens(Apply(s, op))
  {
  }

  lemma StepOrder<T>(s: State<T>, op: Op<T>)
    requires InOrder(s)
    ensures InOrder(Apply(s, op))
  {
  }

  lemma StepInv<T>(s: State<T>, op: Op<T>)
    requires Inv(s)
    ensures Inv(Apply(s, op))
  {
    hide Tokens, Ring, InOrder, Apply;
    StepRing(s, op);
    StepTokens(s, op);
    StepOrder(s, op);
  }

  ghost function Init<T>(policy: Policy, buf: seq<T>): State<T> {
    State(policy, buf, 0, 0, 0, |buf|, 0, 0, 0, 0, 0, [], 0, [])
  }

  ghost function Run<T>(policy: Policy, buf: seq<T>, ops: seq<Op<T>>): State<T> {
    if ops == [] then Init(policy, buf) else Apply(Run(policy, buf, ops[..|ops| - 1]), ops[|ops| - 1])
  }

  lemma {:induction false} RunsKeepInv<T>(policy: Policy, buf: seq<T>, ops: seq<Op<T>>)
    ensures Inv(Run(policy, buf, ops)) && |Run(policy, buf, ops).buf| == |buf| && Run(policy, buf, ops).policy == policy
  {
    if ops != [] {
      RunsKeepInv(policy, buf, ops[..|ops| - 1]);
      StepInv(Run(policy, buf, ops[..|ops| - 1]), ops[|ops| - 1]);
    }
  }

  /** After every interleaving the tokens add up to the capacity. So a thread with a slot token finds
      the ring not full, one with an item token finds it not empty, and no give is ever refused. */
  lemma {:induction false} TokensConserved<T>(policy: Policy, buf: seq<T>, ops: seq<Op<T>>)
    ensures var s := Run(policy, buf, ops);
      && s.notFull + s.notEmpty + s.pushing + s.pushed + s.popping + s.popped == |buf|
      && (s.pushing > 0 ==> s.count < |buf|) && (s.popping > 0 ==> s.count > 0)
      && (s.pushed > 0 ==> Apply(s, GiveItem).notEmpty == s.notEmpty + 1)
      && (s.popped > 0 ==> Apply(s, GiveSlot).notFull == s.notFull + 1)
  {
    RunsKeepInv(policy, buf, ops);
  }

  /** First in, first out, after every interleaving: pops got items in the order they were put in, none
      twice; what is in the ring is the newest items, in order; and a queue that drops loses none. */
  lemma {:induction false} Fifo<T>(policy: Policy, buf: seq<T>, ops: seq<Op<T>>)
    ensures var s := Run(policy, buf, ops);
      && (forall k, l :: 0 <= k < l < |s.got| ==> s.got[k] < s.got[l])
      && |s.log| == s.gone + s.count
      && (forall i :: 0 <= i < s.count ==> s.tail < |s.buf| && i <= |s.buf| && s.buf[At(|s.buf|, s.tail, i)] == s.log[s.gone + i])
      && (policy.Drop? ==> |s.got| == s.gone && forall k :: 0 <= k < |s.got| ==> s.got[k] == k)
  {
    RunsKeepInv(policy, buf, ops);
  }

  /** Overwriting in place keeps every token, and the queue moves on by one: its oldest item goes and the
      new one is last. */
  lemma {:induction false} DisplaceKeepsTokens<T>(s: State<T>, x: T)
    requires Inv(s) && s.policy.Overwrite? && |s.buf| > 0 && s.count == |s.buf|
    ensures var r := Apply(s, Displace(x));
      && r.notFull == s.notFull == 0 && r.notEmpty == s.notEmpty && r.count == s.count
      && r.log == s.log + [x] && r.gone == s.gone + 1 && Inv(r)
  {
    StepInv(s, Displace(x));
  }

  // --- In place ---------------------------------------------------------------------------------------

  /** mpmc_queue_t. Each method is one step of some thread. */
  class Queue<T> {
    const buf: array<T>
    const policy: Policy
    var head: nat
    var tail: nat
    var count: nat
    var notFull: nat
    var notEmpty: nat
    ghost var s: State<T>

    ghost predicate Valid()
      reads this, buf
    {
      && Inv(s) && s.policy == policy && s.buf == buf[..] && s.head == head && s.tail == tail && s.count == count
      && s.notFull == notFull && s.notEmpty == notEmpty
    }

    constructor (storage: array<T>, p: Policy)
      ensures Valid() && buf == storage && s == Init(p, storage[..])
    {
      buf, policy := storage, p;
      head, tail, count, notFull, notEmpty := 0, 0, 0, storage.Length, 0;
      s := Init(p, storage[..]);
    }

    method TakeFreeSlot() returns (ok: bool)
      requires Valid()
      modifies this
      ensures Valid() && s == Apply(old(s), TakeSlot) && ok == (old(notFull) > 0)
      ensures s == if ok then old(s).(notFull := old(notFull) - 1, pushing := old(s).pushing + 1) else old(s)
    {
      ok := notFull > 0;
      if ok { notFull := notFull - 1; }
      s := Apply(s, TakeSlot);
    }

    /** The locked section of a push that has its slot. */
    method PutItem(x: T)
      requires Valid() && s.pushing > 0
      modifies this, buf
      ensures Valid() && s == Apply(old(s), Put(x))
      ensures s.log == old(s).log + [x] && s.gone == old(s).gone && count == old(count) + 1
      ensures s.pushing + 1 == old(s).pushing && s.pushed == old(s).pushed + 1
    {
      PutRing(s, x);
      StepInv(s, Put(x));
      s := Apply(s, Put(x));
      buf[head] := x;
      head := (head + 1) % buf.Length;
      count := count + 1;
    }

    method GiveNotEmpty() returns (ok: bool)
      requires Valid() && s.pushed > 0
      modifies this
      ensures Valid() && ok && s == Apply(old(s), GiveItem)
      ensures s == old(s).(notEmpty := old(notEmpty) + 1, pushed := old(s).pushed - 1)
    {
      StepInv(s, GiveItem);
      ok := notEmpty < buf.Length;
      if ok { notEmpty := notEmpty + 1; }
      s := Apply(s, GiveItem);
    }

    /** The locked section of an overwriting push that got no slot: true if it replaced the oldest. */
    method DisplaceOldest(x: T) returns (ok: bool)
      requires Valid() && policy.Overwrite?
      modifies this, buf
      ensures Valid() && s == Apply(old(s), Displace(x)) && ok == (buf.Length > 0 && old(count) == buf.Length)
      ensures if ok then s.log == old(s).log + [x] && s.gone == old(s).gone + 1 && count == old(count) else s == old(s)
    {
      StepInv(s, Displace(x));
      s := Apply(s, Displace(x));
      if buf.Length == 0 { return false; }
      ok := count == buf.Length;
      if ok {
        buf[head] := x;
        head := (head + 1) % buf.Length;
        tail := (tail + 1) % buf.Length;
      }
    }

    method TakeNotEmpty() returns (ok: bool)
      requires Valid()
      modifies this
      ensures Valid() && s == Apply(old(s), TakeItem) && ok == (old(notEmpty) > 0)
      ensures s == if ok then old(s).(notEmpty := old(notEmpty) - 1, popping := old(s).popping + 1) else old(s)
    {
      ok := notEmpty > 0;
      if ok { notEmpty := notEmpty - 1; }
      s := Apply(s, TakeItem);
    }

    /** The locked section of a pop that has its item: it gets the oldest one there is. */
    method GetItem() returns (x: T)
      requires Valid() && s.popping > 0
      modifies this
      ensures Valid() && s == Apply(old(s), Get) && old(s).gone < |s.log| && x == s.log[old(s).gone]
      ensures s.gone == old(s).gone + 1 && s.got == old(s).got + [old(s).gone] && count + 1 == old(count) && s.log == old(s).log
      ensures s.popping + 1 == old(s).popping && s.popped == old(s).popped + 1
    {
      GetRing(s);
      StepInv(s, Get);
      assert At(|s.buf|, s.tail, 0) == s.tail;
      x := buf[tail];
      s := Apply(s, Get);
      var next := tail + 1;
      if next >= buf.Length { next := 0; }
      tail := next;
      count := count - 1;
    }

    method GiveNotFull() returns (ok: bool)
      requires Valid() && s.popped > 0
      modifies this
      ensures Valid() && ok && s == Apply(old(s), GiveSlot)
      ensures s == old(s).(notFull := old(notFull) + 1, popped := old(s).popped - 1)
    {
      StepInv(s, GiveSlot);
      ok := notFull < buf.Length;
      if ok { notFull := notFull + 1; }
      s := Apply(s, GiveSlot);
    }
  }
}
