/** The single-producer single-consumer ring of kernel/structure.c: an array that behaves as a bounded
    sequence, with one slot always left empty. */
module Spsc {
  import opened Modular

  datatype Policy = Drop | Overwrite

  /** Position k of a ring of c, for k up to twice round. */
  function Wrap(c: nat, k: nat): (r: nat)
    requires k < 2 * c
    ensures r < c
  {
    if k < c then k else k - c
  }

  lemma WrapIsMod(c: nat, k: nat)
    requires k < 2 * c
    ensures k % c == Wrap(c, k)
  {
    if k >= c { DivMod(k, c, 1, k - c); } else { ModSmall(k, c); }
  }

  /** The n elements from position t on. */
  ghost function View<T>(b: seq<T>, t: nat, n: nat): (r: seq<T>)
    requires t < |b| && n <= |b|
    ensures |r| == n && forall i :: 0 <= i < n ==> r[i] == b[Wrap(|b|, t + i)]
  {
    seq(n, i requires 0 <= i < n => b[Wrap(|b|, t + i)])
  }

  /** How far h is ahead of t. */
  function Fill(c: nat, h: nat, t: nat): (n: nat)
    requires h < c && t < c
    ensures n < c && Wrap(c, t + n) == h
  {
    if h >= t then h - t else c - t + h
  }

  lemma ViewDrop<T>(b: seq<T>, t: nat, n: nat, k: nat)
    requires t < |b| && k <= n < |b|
    ensures View(b, Wrap(|b|, t + k), n - k) == View(b, t, n)[k..]
  {
  }

  lemma ViewTake<T>(b: seq<T>, t: nat, n: nat, k: nat)
    requires t < |b| && k <= n < |b|
    ensures View(b, t, k) == View(b, t, n)[..k]
  {
  }

  /** Writing items behind the n elements there are appends them. */
  lemma ViewAppend<T>(b: seq<T>, b': seq<T>, t: nat, n: nat, items: seq<T>)
    requires t < |b| == |b'| && n + |items| < |b|
    requires forall k :: 0 <= k < |b| ==> b'[k] == if Offset(|b|, Wrap(|b|, t + n), k) < |items| then items[Offset(|b|, Wrap(|b|, t + n), k)] else b[k]
    ensures View(b', t, n + |items|) == View(b, t, n) + items
  {
    var c := |b|;
    forall i | 0 <= i < n + |items| ensures View(b', t, n + |items|)[i] == (View(b, t, n) + items)[i] {
      if i < n {
        assert Offset(c, Wrap(c, t + n), Wrap(c, t + i)) == c - n + i;
      } else {
        assert Offset(c, Wrap(c, t + n), Wrap(c, t + i)) == i - n;
      }
    }
  }

  /** How far position k is behind position h, going forward from h. */
  function Offset(c: nat, h: nat, k: nat): (d: nat)
    requires h < c && k < c
    ensures d < c
  {
    if k >= h then k - h else c - h + k
  }

  function Min(a: nat, b: nat): nat { if a <= b then a else b }

  /** The last n elements of a sequence. */
  function Last<T>(s: seq<T>, n: nat): seq<T> { if |s| <= n then s else s[|s| - n..] }

  class Fifo<T> {
    const buf: array<T>
    var head: nat
    var tail: nat
    var policy: Policy

    /** _spsc_descriptor_sane. Indices out of range are tolerated: they are taken modulo capacity. */
    ghost predicate Valid()
      reads this, buf
    {
      0 < buf.Length <= 4096
    }

    /** ... and what the zero-copy calls rely on. */
    ghost predicate InRange()
      reads this, buf
    {
      Valid() && head < buf.Length && tail < buf.Length
    }

    ghost function Contents(): seq<T>
      reads this, buf
      requires Valid()
    {
      View(buf[..], tail % buf.Length, Fill(buf.Length, head % buf.Length, tail % buf.Length))
    }

    constructor (storage: array<T>)
      requires 0 < storage.Length <= 4096
      ensures InRange() && Contents() == [] && buf == storage && policy == Drop
    {
      buf, head, tail, policy := storage, 0, 0, Drop;
    }

    method Available() returns (n: nat)
      requires Valid()
      ensures n == |Contents()|
    {
      var h, t := head % buf.Length, tail % buf.Length;
      n := if h >= t then h - t else buf.Length - t + h;
    }

    method Space() returns (n: nat)
      requires Valid()
      ensures n + |Contents()| == buf.Length - 1
    {
      var h, t := head % buf.Length, tail % buf.Length;
      var free := if h >= t then buf.Length - h + t else t - h;
      n := free - 1;
    }

    /** v_memcpy of a run that does not wrap. */
    method CopyIn(at: nat, src: seq<T>)
      requires at + |src| <= buf.Length
      modifies buf
      ensures forall k :: 0 <= k < buf.Length ==> buf[k] == if at <= k < at + |src| then src[k - at] else old(buf[k])
    {
      var i := 0;
      while i < |src|
        invariant i <= |src|
        invariant forall k :: 0 <= k < buf.Length ==> buf[k] == if at <= k < at + i then src[k - at] else old(buf[k])
      {
        buf[at + i] := src[i];
        i := i + 1;
      }
    }

    /** The copying half of spsc_write: in one piece, or in two round the end. */
    method Store(h: nat, items: seq<T>)
      requires Valid() && h < buf.Length && |items| < buf.Length
      modifies buf
      ensures forall k :: 0 <= k < buf.Length ==>
        buf[k] == if Offset(buf.Length, h, k) < |items| then items[Offset(buf.Length, h, k)] else old(buf[k])
    {
      var toEnd := buf.Length - h;
      if |items| <= toEnd {
        CopyIn(h, items);
      } else {
        CopyIn(h, items[..toEnd]);
        CopyIn(0, items[toEnd..]);
      }
    }

    /** The copying half of spsc_read and spsc_peek. */
    method Fetch(t: nat, count: nat) returns (out: seq<T>)
      requires Valid() && t < buf.Length && count < buf.Length
      ensures out == View(buf[..], t, count)
    {
      var toEnd := buf.Length - t;
      if count <= toEnd {
        out := buf[t..t + count];
      } else {
        out := buf[t..] + buf[..count - toEnd];
      }
    }

    method Peek(count: nat) returns (out: seq<T>)
      requires Valid()
      ensures out == Contents()[..Min(count, |Contents()|)]
    {
      var avail := Available();
      var n := if count > avail then avail else count;
      out := Fetch(tail % buf.Length, n);
      ViewTake(buf[..], tail % buf.Length, avail, n);
    }

    method Read(count: nat) returns (out: seq<T>)
      requires Valid()
      modifies this`tail
      ensures Valid() && out == old(Contents())[..Min(count, |old(Contents())|)]
      ensures Contents() == old(Contents())[Min(count, |old(Contents())|)..]
    {
      var avail := Available();
      var n := if count > avail then avail else count;
      if n == 0 { return []; }
      var t := tail % buf.Length;
      out := Fetch(t, n);
      Forward(t, n, avail);
      tail := (t + n) % buf.Length;
    }

    method Skip(count: nat) returns (n: nat)
      requires Valid()
      modifies this`tail
      ensures Valid() && n == Min(count, |old(Contents())|) && Contents() == old(Contents())[n..]
      ensures tail < buf.Length
    {
      var avail := Available();
      n := if count > avail then avail else count;
      Forward(tail % buf.Length, n, avail);
      ModAdd(tail, n, buf.Length);
      tail := (tail + n) % buf.Length;
    }

    /** Moving the tail on drops elements from the front. */
    lemma Forward(t: nat, n: nat, avail: nat)
      requires Valid() && t == tail % buf.Length && n <= avail == |Contents()|
      ensures (t + n) % buf.Length == Wrap(buf.Length, t + n)
      ensures View(buf[..], Wrap(buf.Length, t + n), avail - n) == Contents()[n..]
      ensures View(buf[..], t, n) == Contents()[..n]
      ensures Fill(buf.Length, head % buf.Length, Wrap(buf.Length, t + n)) == avail - n
      ensures Wrap(buf.Length, t + n) % buf.Length == Wrap(buf.Length, t + n)
    {
      WrapIsMod(buf.Length, t + n);
      ViewDrop(buf[..], t, avail, n);
      ViewTake(buf[..], t, avail, n);
      WrapIsMod(buf.Length, Wrap(buf.Length, t + n));
    }

    lemma Bounded()
      requires Valid()
      ensures |Contents()| < buf.Length
    {
    }

    /** spsc_write. A full ring that drops takes what fits; one that overwrites forgets its oldest
        elements, and takes at most capacity - 1 new ones, the first of those offered. */
    method Write(items: seq<T>) returns (n: nat)
      requires Valid()
      modifies this`head, this`tail, buf
      ensures Valid()
      ensures policy.Drop? ==> n == Min(|items|, buf.Length - 1 - |old(Contents())|) && Contents() == old(Contents()) + items[..n]
      ensures policy.Overwrite? ==>
        n == Min(|items|, buf.Length - 1) && Contents() == Last(old(Contents()) + items[..n], buf.Length - 1)
    {
      hide Contents, View, Fill;
      Bounded();
      n := |items|;
      if n == 0 { return; }
      ghost var before := Contents();
      var avail := Space();
      if n > avail {
        if policy == Drop {
          n := avail;
        } else {
          var over := n - avail;
          if over >= buf.Length { over := buf.Length - 1; }
          var skipped := Skip(over);
          if n >= buf.Length { n := buf.Length - 1; }
          assert Contents() == before[skipped..];
        }
      }
      if n == 0 { return; }
      Append(items[..n]);
    }

    /** The second half of spsc_write: the items that are known to fit. */
    method Append(items: seq<T>)
      requires Valid() && |Contents()| + |items| < buf.Length
      modifies this`head, buf
      ensures Valid() && Contents() == old(Contents()) + items
    {
      ghost var b, t, m := buf[..], tail % buf.Length, |Contents()|;
      var h := head % buf.Length;
      Store(h, items);
      ViewAppend(b, buf[..], t, m, items);
      WrapIsMod(buf.Length, h + |items|);
      WrapIsMod(buf.Length, Wrap(buf.Length, h + |items|));
      head := (h + |items|) % buf.Length;
    }

    /** spsc_write_ptr: a run of free slots to fill in place. There is one exactly when there is room. */
    method WritePtr() returns (at: nat, max: nat)
      requires InRange()
      ensures at == head && at + max <= buf.Length && max <= buf.Length - 1 - |Contents()|
      ensures max == 0 <==> |Contents()| == buf.Length - 1
    {
      ModSmall(head, buf.Length);
      ModSmall(tail, buf.Length);
      at := head;
      if head >= tail {
        max := buf.Length - head;
        if tail == 0 && max > 0 { max := max - 1; }
      } else {
        max := tail - head - 1;
      }
    }

    /** spsc_commit_write: what was written there is appended. */
    method CommitWrite(count: nat)
      requires InRange() && head + count <= buf.Length && |Contents()| + count < buf.Length
      modifies this`head
      ensures InRange() && Contents() == old(Contents()) + buf[old(head)..old(head) + count]
    {
      ModSmall(head, buf.Length);
      ModSmall(tail, buf.Length);
      if count == 0 { return; }
      ghost var m := |Contents()|;
      ViewAppend(buf[..], buf[..], tail, m, buf[head..head + count]);
      var h := head + count;
      if h >= buf.Length { h := h - buf.Length; }
      ModSmall(h, buf.Length);
      head := h;
    }

    /** spsc_read_ptr: a run of elements to read in place, the oldest first. */
    method ReadPtr() returns (at: nat, max: nat)
      requires InRange()
      ensures at == tail && at + max <= buf.Length && max <= |Contents()|
      ensures buf[at..at + max] == Contents()[..max] && (max == 0 <==> Contents() == [])
    {
      ModSmall(head, buf.Length);
      ModSmall(tail, buf.Length);
      at := tail;
      max := if head >= tail then head - tail else buf.Length - tail;
    }

    /** spsc_commit_read: what was read there is gone. */
    method CommitRead(count: nat)
      requires InRange() && tail + count <= buf.Length && count <= |Contents()|
      modifies this`tail
      ensures InRange() && Contents() == old(Contents())[count..]
    {
      ModSmall(tail, buf.Length);
      if count == 0 { return; }
      Forward(tail, count, |Contents()|);
      var t := tail + count;
      if t >= buf.Length { t := t - buf.Length; }
      tail := t;
    }

    method Reset()
      requires Valid()
      modifies this`head, this`tail
      ensures InRange() && Contents() == []
    {
      head, tail := 0, 0;
    }
  }

  // --- What an overwriting write keeps ------------------------------------------------------------------

  /** Writing `items` over a ring of c that holds `was` keeps the newest c - 1 of all elements exactly when
      there are fewer than c items, or their first c - 1 happen to be their last c - 1. */
  lemma {:induction false} KeepsNewest<T>(was: seq<T>, items: seq<T>, c: nat)
    requires c >= 1 && |was| < c
    ensures Last(was + items[..Min(|items|, c - 1)], c - 1) == Last(was + items, c - 1)
      <==> |items| < c || items[..c - 1] == items[|items| - (c - 1)..]
  {
    if |items| < c {
      assert items[..|items|] == items;
    } else {
      assert Last(was + items[..c - 1], c - 1) == items[..c - 1];
      assert Last(was + items, c - 1) == items[|items| - (c - 1)..];
    }
  }

  /** So a caller can rely on it for exactly the lengths below c: for every other length there are items of
      which it loses the newest, whatever the ring held. */
  lemma {:induction false} LosesNewest<T>(c: nat, k: nat, a: T, b: T) returns (items: seq<T>)
    requires c >= 2 && k >= c && a != b
    ensures |items| == k
    ensures forall was: seq<T> :: |was| < c ==> Last(was + items[..Min(k, c - 1)], c - 1) != Last(was + items, c - 1)
  {
    items := seq(k, i => if i == 0 then a else b);
    forall was: seq<T> | |was| < c ensures Last(was + items[..Min(k, c - 1)], c - 1) != Last(was + items, c - 1) {
      KeepsNewest(was, items, c);
      assert items[..c - 1][0] == a && items[k - (c - 1)..][0] == b;
    }
  }

  /** Two items written to an empty ring of two: the first one stays. */
  method OldestStays() returns (out: seq<int>, n: nat)
    ensures n == 1 && out == [1]
    ensures [1] != Last([1, 2], 1)
  {
    var storage := new int[2];
    var f := new Fifo(storage);
    f.policy := Overwrite;
    n := f.Write([1, 2]);
    out := f.Peek(1);
    assert [] + [1, 2][..1] == [1] && out == [1][..1];
  }
}
