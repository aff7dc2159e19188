/** The ring of include/upipe.h in place: a bounded queue, however often the indices wrap. */
module Upipe {
  import opened Lists
  import opened Modular
  import opened UpipeRing

  type Slot = seq<bv8>
  class Ring {
    const n: nat
    ghost const k: nat
    var wr: nat
    var rd: nat
    const slots: array<Slot>
    ghost var committed: nat
    ghost var released: nat
    ghost var sent: seq<Slot>

    ghost predicate Valid()
      reads this, slots
    {
      && 1 <= k <= 15 && n == Pow2(k) && slots.Length == n
      && wr == committed % TWO32 && rd == released % TWO32
      && released <= committed <= released + n && |sent| == committed
      && forall j :: released <= j < committed ==> slots[j % n] == sent[j]
    }

    /** What was committed and not released yet, oldest first. */
    ghost function Contents(): seq<Slot>
      reads this, slots
      requires Valid()
    {
      sent[released..committed]
    }

    constructor (ghost exp: nat, count: nat, zero: Slot)
      requires 1 <= exp <= 15 && count == Pow2(exp)
      ensures Valid() && Contents() == [] && n == count && fresh(slots)
    {
      n, k := count, exp;
      wr, rd, committed, released, sent := 0, 0, 0, 0, [];
      slots := new Slot[count](i => zero);
    }

    /** v_upipe_slot. */
    function SlotAt(i: nat): (r: nat)
      reads this, slots
      requires Valid() && i < TWO32
      ensures r < n
    {
      Masked(i, k);
      And(i, n - 1)
    }

    /** v_upipe_reserve: the slot to fill, which holds no unread message, or nothing when all do. */
    method Reserve() returns (slot: Option<nat>)
      requires Valid()
      ensures slot.None? <==> |Contents()| == n
      ensures slot.Some? ==> slot.value == committed % n && forall j :: released <= j < committed ==> j % n != slot.value
    {
      InUse(committed, released, n, k);
      if Sub32(wr, rd) >= n { return None; }
      SlotOf(committed, k);
      slot := Some(SlotAt(wr));
      forall j | released <= j < committed ensures j % n != committed % n { ModApart(j, committed, n); }
    }

    /** The producer writes to the slot it reserved. */
    method Fill(i: nat, x: Slot)
      requires Valid() && |Contents()| < n && i == committed % n
      modifies slots
      ensures Valid() && Contents() == old(Contents()) && slots[i] == x
    {
      forall j | released <= j < committed ensures j % n != i { ModApart(j, committed, n); }
      slots[i] := x;
    }

    /** v_upipe_commit, up to the look at the peer's flag. */
    method Commit()
      requires Valid() && |Contents()| < n
      modifies this`wr, this`committed, this`sent
      ensures Valid() && Contents() == old(Contents()) + [old(slots[committed % n])]
    {
      IncMod(committed);
      sent := sent + [slots[committed % n]];
      wr := Inc32(wr);
      committed := committed + 1;
    }

    /** v_upipe_peek: the oldest unread message, in place. */
    method Peek() returns (slot: Option<nat>)
      requires Valid()
      ensures slot.None? <==> Contents() == []
      ensures slot.Some? ==> slot.value < slots.Length && slots[slot.value] == Contents()[0]
    {
      InUse(committed, released, n, k);
      SameIndex(committed, released, n);
      if wr == rd { return None; }
      SlotOf(released, k);
      slot := Some(SlotAt(rd));
    }

    /** v_upipe_release, up to the look at the peer's flag. */
    method Release()
      requires Valid() && Contents() != []
      modifies this`rd, this`released
      ensures Valid() && Contents() == old(Contents())[1..]
    {
      IncMod(released);
      rd := Inc32(rd);
      released := released + 1;
    }
  }

  lemma Masked(i: nat, k: nat)
    ensures And(i, Pow2(k) - 1) < Pow2(k)
  {
    MaskIsMod(i, k);
  }

  lemma InUse(w: nat, r: nat, n: nat, k: nat)
    requires r <= w <= r + n && 1 <= k <= 15 && n == Pow2(k)
    ensures Sub32(w % TWO32, r % TWO32) == w - r
  {
    SmallRing(k);
    Distance(w, r);
  }

  lemma SmallRing(k: nat)
    requires k <= 15
    ensures Pow2(k) <= 32768
  {
    Pow2Splits(k, 15);
    assert Pow2(7) == 128;
    Pow2Splits(7, 15);
    assert Pow2(8) == 256;
    assert Pow2(k) * 1 <= Pow2(k) * Pow2(15 - k);
  }

  lemma SameIndex(w: nat, r: nat, n: nat)
    requires r <= w && Sub32(w % TWO32, r % TWO32) == w - r
    ensures w % TWO32 == r % TWO32 <==> w == r
  {
  }
}
