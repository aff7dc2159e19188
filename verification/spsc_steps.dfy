/** The same ring, dropping, used by a producer and a consumer at once. A step is one load or store of an
    index, or one element copied; the barriers keep each end's steps in order. */
module SpscSteps {
  import opened Modular
  import opened Spsc
  import Steps

  /** What spsc_write is doing: nothing, or storing items[done] next, or about to store head. */
  datatype Prod<T> = Idle | Storing(items: seq<T>, done: nat)

  /** What spsc_read is doing: nothing, or loading its next element, or about to store tail. */
  datatype Cons<T> = Resting | Loading(count: nat, out: seq<T>)

  /** `head` and `tail` are the code's. `sent` and `got` are history: what was written and what was read. */
  datatype State<T> = State(slots: seq<T>, head: nat, tail: nat, prod: Prod<T>, cons: Cons<T>, sent: seq<T>, got: seq<T>)

  /** Begin and Look load the other end's index; their own does not move but by themselves. */
  datatype Op<T> = Begin(items: seq<T>) | Store | Publish | Look(count: nat) | Load | Finish

  ghost predicate Sane<T>(s: State<T>) { s.slots != [] && s.head < |s.slots| && s.tail < |s.slots| }

  function Apply<T>(s: State<T>, op: Op<T>): State<T> {
    var c := |s.slots|;
    if c == 0 || s.head >= c || s.tail >= c then s
    else
      match op
      case Begin(items) =>
        var n := Min(|items|, c - 1 - Fill(c, s.head, s.tail));
        if s.prod.Idle? && n > 0 then s.(prod := Storing(items[..n], 0)) else s
      case Store =>
        if s.prod.Storing? && s.prod.done < |s.prod.items| && s.prod.done < c then
          s.(slots := s.slots[Wrap(c, s.head + s.prod.done) := s.prod.items[s.prod.done]], prod := s.prod.(done := s.prod.done + 1))
        else s
      case Publish =>
        if s.prod.Storing? && s.prod.done == |s.prod.items| then
          s.(head := (s.head + |s.prod.items|) % c, prod := Idle, sent := s.sent + s.prod.items)
        else s
      case Look(count) =>
        var n := Min(count, Fill(c, s.head, s.tail));
        if s.cons.Resting? && n > 0 then s.(cons := Loading(n, [])) else s
      case Load =>
        if s.cons.Loading? && |s.cons.out| < s.cons.count && |s.cons.out| < c then
          s.(cons := s.cons.(out := s.cons.out + [s.slots[Wrap(c, s.tail + |s.cons.out|)]]))
        else s
      case Finish =>
        if s.cons.Loading? && |s.cons.out| == s.cons.count then
          s.(tail := (s.tail + s.cons.count) % c, cons := Resting, got := s.got + s.cons.out)
        else s
  }

  // --- The invariant --------------------------------------------------------------------------------------

  /** Where element k is. */
  function Slot<T>(s: State<T>, k: nat): nat
    requires s.slots != []
  {
    k % |s.slots|
  }

  ghost predicate RingLaw<T>(s: State<T>) {
    && Sane(s) && |s.got| <= |s.sent| < |s.got| + |s.slots| && s.got == s.sent[..|s.got|]
    && s.head == Slot(s, |s.sent|) && s.tail == Slot(s, |s.got|)
    && forall k :: |s.got| <= k < |s.sent| ==> s.slots[Slot(s, k)] == s.sent[k]
  }

  /** What is being written fits, and what is written of it is in place. */
  ghost predicate ProdLaw<T>(s: State<T>)
    requires RingLaw(s)
  {
    s.prod.Storing? ==>
      && s.prod.done <= |s.prod.items| && |s.sent| + |s.prod.items| < |s.got| + |s.slots|
      && forall i :: 0 <= i < s.prod.done ==> s.slots[Slot(s, |s.sent| + i)] == s.prod.items[i]
  }

  /** What is being read was written, and what is read of it is that. */
  ghost predicate ConsLaw<T>(s: State<T>)
    requires RingLaw(s)
  {
    s.cons.Loading? ==>
      && |s.cons.out| <= s.cons.count && |s.got| + s.cons.count <= |s.sent|
      && s.cons.out == s.sent[|s.got|..|s.got| + |s.cons.out|]
  }

  ghost predicate Inv<T>(s: State<T>) { RingLaw(s) && ProdLaw(s) && ConsLaw(s) }

  /** An index i places on is the slot of the element with that number. */
  lemma SlotAt(c: nat, w: nat, i: nat)
    requires i < c
    ensures w % c + i < 2 * c && Wrap(c, w % c + i) == (w + i) % c
  {
    WrapIsMod(c, w % c + i);
    ModAdd(w, i, c);
  }

  /** The fill level by the indices is the number of unread elements. */
  lemma FillIs(c: nat, w: nat, r: nat)
    requires r <= w < r + c
    ensures Fill(c, w % c, r % c) == w - r
  {
    var d := Fill(c, w % c, r % c);
    SlotAt(c, r, d);
    assert (r + d) % c == w % c;
    if r + d < w { ModApart(r + d, w, c); } else if w < r + d { ModApart(w, r + d, c); }
  }

  lemma BeginInv<T>(s: State<T>, items: seq<T>)
    requires Inv(s)
    ensures Inv(Apply(s, Begin(items)))
  {
    FillIs(|s.slots|, |s.sent|, |s.got|);
  }

  lemma StoreInv<T>(s: State<T>)
    requires Inv(s)
    ensures Inv(Apply(s, Store))
  {
    hide Fill, Wrap;
    var t := Apply(s, Store);
    if t != s {
      var c, d, w := |s.slots|, s.prod.done, |s.sent|;
      SlotAt(c, w, d);
      assert t == s.(slots := s.slots[(w + d) % c := s.prod.items[d]], prod := s.prod.(done := d + 1));
      hide Apply;
      forall k | |s.got| <= k < w ensures t.slots[Slot(t, k)] == t.sent[k] { ModApart(k, w + d, c); }
      forall i | 0 <= i < d + 1 ensures t.slots[Slot(t, w + i)] == t.prod.items[i] {
        if i < d { ModApart(w + i, w + d, c); }
      }
    }
  }

  lemma PublishInv<T>(s: State<T>)
    requires Inv(s)
    ensures Inv(Apply(s, Publish))
  {
    var t := Apply(s, Publish);
    if t != s {
      ModAdd(|s.sent|, |s.prod.items|, |s.slots|);
      forall k | |t.got| <= k < |t.sent| ensures t.slots[Slot(t, k)] == t.sent[k] {
        if k >= |s.sent| { assert s.slots[Slot(s, |s.sent| + (k - |s.sent|))] == s.prod.items[k - |s.sent|]; }
      }
    }
  }

  lemma LookInv<T>(s: State<T>, count: nat)
    requires Inv(s)
    ensures Inv(Apply(s, Look(count)))
  {
    FillIs(|s.slots|, |s.sent|, |s.got|);
  }

  lemma LoadInv<T>(s: State<T>)
    requires Inv(s)
    ensures Inv(Apply(s, Load))
  {
    if Apply(s, Load) != s {
      var r, d := |s.got|, |s.cons.out|;
      SlotAt(|s.slots|, r, d);
      assert s.slots[Slot(s, r + d)] == s.sent[r + d];
    }
  }

  lemma FinishInv<T>(s: State<T>)
    requires Inv(s)
    ensures Inv(Apply(s, Finish))
  {
    if Apply(s, Finish) != s { ModAdd(|s.got|, s.cons.count, |s.slots|); }
  }

  lemma StepInv<T>(s: State<T>, op: Op<T>)
    requires Inv(s)
    ensures Inv(Apply(s, op))
  {
    hide Inv, Apply;
    match op
    case Begin(items) => BeginInv(s, items);
    case Store => StoreInv(s);
    case Publish => PublishInv(s);
    case Look(count) => LookInv(s, count);
    case Load => LoadInv(s);
    case Finish => FinishInv(s);
  }

  // --- Every run ------------------------------------------------------------------------------------------

  function Init<T>(slots: seq<T>): State<T> { State(slots, 0, 0, Idle, Resting, [], []) }

  function Run<T>(slots: seq<T>, ops: seq<Op<T>>): State<T> {
    if ops == [] then Init(slots) else Apply(Run(slots, ops[..|ops| - 1]), ops[|ops| - 1])
  }

  lemma {:induction false} RunsKeepInv<T>(slots: seq<T>, ops: seq<Op<T>>)
    requires slots != []
    ensures Inv(Run(slots, ops)) && |Run(slots, ops).slots| == |slots|
    decreases |ops|
  {
    if ops != [] {
      RunsKeepInv(slots, ops[..|ops| - 1]);
      StepInv(Run(slots, ops[..|ops| - 1]), ops[|ops| - 1]);
    }
  }

  /** However the two ends interleave, what has been read is what was written, in order and from the
      start, and at most capacity - 1 elements are in between. */
  lemma {:induction false} Fifo<T>(slots: seq<T>, ops: seq<Op<T>>)
    requires slots != []
    ensures var s := Run(slots, ops); s.got <= s.sent && |s.sent| - |s.got| < |slots|
  {
    RunsKeepInv(slots, ops);
  }

  /** Only a store changes a slot, and only the one it is for. */
  lemma OnlyStores<T>(s: State<T>, op: Op<T>)
    ensures |Apply(s, op).slots| == |s.slots|
    ensures Apply(s, op).slots != s.slots ==>
      && Sane(s) && op.Store? && s.prod.Storing? && s.prod.done < |s.prod.items| && s.prod.done < |s.slots|
      && Apply(s, op).slots == s.slots[Wrap(|s.slots|, s.head + s.prod.done) := s.prod.items[s.prod.done]]
  {
    hide Fill, Wrap;
  }

  /** No step stores to the slot of an element that has been written and not read. */
  lemma {:induction false} UnreadUntouched<T>(s: State<T>, op: Op<T>, k: nat)
    requires Inv(s) && |s.got| <= k < |s.sent|
    ensures |Apply(s, op).slots| == |s.slots| && Apply(s, op).slots[Slot(s, k)] == s.slots[Slot(s, k)] == s.sent[k]
  {
    OnlyStores(s, op);
    hide Apply, Wrap;
    if Apply(s, op).slots != s.slots {
      SlotAt(|s.slots|, |s.sent|, s.prod.done);
      ModApart(k, |s.sent| + s.prod.done, |s.slots|);
    }
  }

  /** A write takes as much of what it is offered as there is room for when it looks: the indices tell it
      exactly how much has not been read. */
  lemma {:induction false} TakesWhatFits<T>(s: State<T>, items: seq<T>)
    requires Inv(s) && s.prod.Idle?
    ensures var n := Min(|items|, |s.slots| - 1 - (|s.sent| - |s.got|));
      Apply(s, Begin(items)).prod == if n == 0 then Idle else Storing(items[..n], 0)
  {
    FillIs(|s.slots|, |s.sent|, |s.got|);
  }

  // --- A call at a time -----------------------------------------------------------------------------------

  ghost function On<T>(s: State<T>, ops: seq<Op<T>>): State<T> { Steps.On(Apply, s, ops) }

  function Stores<T>(n: nat): seq<Op<T>> { seq(n, i => Store) }

  function Loads<T>(n: nat): seq<Op<T>> { seq(n, i => Load) }

  lemma {:induction false} Stored<T>(s: State<T>, n: nat)
    requires Inv(s) && s.prod.Storing? && s.prod.done + n == |s.prod.items|
    ensures var r := On(s, Stores(n)); Inv(r) && r == s.(slots := r.slots, prod := Storing(s.prod.items, |s.prod.items|))
    decreases n
  {
    if n > 0 {
      assert Stores<T>(n) == [Store] + Stores(n - 1);
      Steps.OneByOne(Apply, s, Stores(n), Store, Stores(n - 1));
      StepInv(s, Store);
      var m := Apply(s, Store);
      assert m == s.(slots := m.slots, prod := Storing(s.prod.items, s.prod.done + 1));
      Stored(m, n - 1);
    }
  }

  lemma {:induction false} NoStores<T>(s: State<T>, n: nat)
    requires s.prod.Idle?
    ensures On(s, Stores(n)) == s
    decreases n
  {
    if n > 0 {
      assert Stores<T>(n) == [Store] + Stores(n - 1);
      Steps.OneByOne(Apply, s, Stores(n), Store, Stores(n - 1));
      NoStores(s, n - 1);
    }
  }

  /** spsc_write with nobody in between appends as much of what it is offered as there is room for. */
  lemma {:induction false} WritesAlone<T>(s: State<T>, items: seq<T>)
    requires Inv(s) && s.prod.Idle?
    ensures var n := Min(|items|, |s.slots| - 1 - (|s.sent| - |s.got|));
      n >= 0 && var r := On(s, [Begin(items)] + Stores(n) + [Publish]);
      Inv(r) && r.sent == s.sent + items[..n] && r.got == s.got && r.prod.Idle? && r.cons == s.cons
  {
    var n := Min(|items|, |s.slots| - 1 - (|s.sent| - |s.got|));
    TakesWhatFits(s, items);
    StepInv(s, Begin(items));
    var b := Apply(s, Begin(items));
    assert [Begin(items)] + Stores(n) + [Publish] == [Begin(items)] + (Stores(n) + [Publish]);
    Steps.OneByOne(Apply, s, [Begin(items)] + Stores(n) + [Publish], Begin(items), Stores(n) + [Publish]);
    Steps.OnAppend(Apply, b, Stores(n), [Publish]);
    if n == 0 { NoStores(b, n); } else { Stored(b, n); }
    hide Inv;
    var m := On(b, Stores(n));
    Steps.OneByOne(Apply, m, [Publish], Publish, []);
    StepInv(m, Publish);
    hide Wrap, Fill;
    assert Sane(m) by { SaneInv(m); }
  }

  lemma SaneInv<T>(s: State<T>)
    requires Inv(s)
    ensures Sane(s) && |s.got| <= |s.sent| < |s.got| + |s.slots|
    ensures s.cons.Loading? ==> |s.got| + s.cons.count <= |s.sent| && |s.cons.out| <= s.cons.count && s.cons.out == s.sent[|s.got|..|s.got| + |s.cons.out|]
  {
  }

  lemma {:induction false} Loaded<T>(s: State<T>, n: nat)
    requires Inv(s) && s.cons.Loading? && |s.cons.out| + n == s.cons.count
    ensures var r := On(s, Loads(n)); Inv(r) && r.cons.Loading? && r == s.(cons := Loading(s.cons.count, r.cons.out)) && |r.cons.out| == s.cons.count
    decreases n
  {
    SaneInv(s);
    if n > 0 {
      assert Loads<T>(n) == [Load] + Loads(n - 1);
      Steps.OneByOne(Apply, s, Loads(n), Load, Loads(n - 1));
      StepInv(s, Load);
      Loaded(Apply(s, Load), n - 1);
    }
  }

  lemma Looked<T>(s: State<T>, count: nat)
    requires Inv(s) && s.cons.Resting?
    ensures var n := Min(count, |s.sent| - |s.got|);
      n >= 0 && |s.got| + n <= |s.sent| && Apply(s, Look(count)) == s.(cons := if n == 0 then Resting else Loading(n, []))
  {
    FillIs(|s.slots|, |s.sent|, |s.got|);
  }

  lemma Finished<T>(s: State<T>)
    requires Inv(s)
    ensures var r := On(s, [Finish]);
      && Inv(r) && (s.cons.Resting? ==> r == s)
      && (s.cons.Loading? && |s.cons.out| == s.cons.count ==>
            |s.got| + s.cons.count <= |s.sent|
            && r == s.(tail := r.tail, cons := Resting, got := s.got + s.sent[|s.got|..|s.got| + s.cons.count]))
  {
    SaneInv(s);
    StepInv(s, Finish);
    Steps.OneByOne(Apply, s, [Finish], Finish, []);
    hide Inv;
  }

  /** spsc_read with nobody in between gets as much as it asks for of what is there, from the front. */
  lemma {:induction false} ReadsAlone<T>(s: State<T>, count: nat)
    requires Inv(s) && s.cons.Resting?
    ensures var n := Min(count, |s.sent| - |s.got|);
      n >= 0 && |s.got| + n <= |s.sent| && var r := On(s, [Look(count)] + Loads(n) + [Finish]);
      Inv(r) && r.got == s.got + s.sent[|s.got|..|s.got| + n] && r.sent == s.sent && r.cons.Resting? && r.prod == s.prod
  {
    Looked(s, count);
    StepInv(s, Look(count));
    hide Inv, Apply;
    var n: nat := Min(count, |s.sent| - |s.got|);
    var look: Op<T>, loads: seq<Op<T>> := Look(count), Loads(n);
    var b := Apply(s, look);
    assert [look] + loads + [Finish] == [look] + (loads + [Finish]);
    Steps.OneByOne(Apply, s, [look] + loads + [Finish], look, loads + [Finish]);
    Steps.OnAppend(Apply, b, loads, [Finish]);
    if n == 0 { assert loads == []; } else { Loaded(b, n); }
    Finished(On(b, loads));
  }
}
