/** Pipes under every interleaving of producer and consumer: a drop pipe is a lossless queue whose
    unread slots are never written to; on an overwrite pipe a read is never torn, `missed` is exact,
    and release reports a stale view exactly when the slot was reclaimed. */
module PipeProof {
  import opened Lists
  import opened Modular
  import opened PipeModel

  // --- The invariant --------------------------------------------------------------------------------

  ghost function At(s: Ring, k: nat): Slot
    requires |s.slots| > 0
  {
    s.slots[k % |s.slots|]
  }

  /** Message k's slot holds message k. */
  ghost predicate Holds(s: Ring, k: nat)
    requires |s.slots| > 0
  {
    && k < |s.msgs| && At(s, k).stamp == 2 * k && At(s, k).len == |s.msgs[k]| <= |At(s, k).data|
    && At(s, k).data[..At(s, k).len] == s.msgs[k]
  }

  /** Message k's slot has been handed out again. */
  ghost predicate Lost(s: Ring, k: nat) { Reclaimed(s.Claims(), |s.slots|, k) }

  ghost predicate Shape(s: Ring) {
    && |s.slots| > 0
    && s.pw == (if s.prod.Bumped? then (s.w + |s.slots| - 1) % |s.slots| else s.w % |s.slots|)
    && (s.prod.Bumped? ==> s.w > 0)
    && |s.msgs| == (if s.Busy() then s.w + 1 else s.w)
    && (forall i :: 0 <= i < |s.slots| ==> s.slots[i].len <= |s.slots[i].data|)
    && (forall i :: 0 <= i < |s.slots| ==> |s.slots[i].data| == |s.slots[0].data|)
    && (s.overflow.Drop? ==> !s.marked)
  }

  /** What the producer has done so far to the slot it is writing. */
  ghost predicate Progress(s: Ring)
    requires Shape(s)
  {
    && (s.Busy() ==> |s.msgs[s.w]| <= |At(s, s.w).data|)
    && (s.prod.Writing? ==> s.prod.done <= |s.msgs[s.w]| && At(s, s.w).data[..s.prod.done] == s.msgs[s.w][..s.prod.done])
    && (s.prod.Sized? ==> At(s, s.w).len == |s.msgs[s.w]| && At(s, s.w).data[..At(s, s.w).len] == s.msgs[s.w])
    && (s.prod.Stamped? ==> Holds(s, s.w))
    && (s.overflow.Overwrite? && (s.prod.Writing? || s.prod.Sized?) ==> s.marked)
    && (s.marked && !s.prod.Stamped? ==> At(s, s.w).stamp == 2 * s.w + 1)
    && (s.marked ==> !s.prod.Bumped?)
    && (s.overflow.Overwrite? && s.prod.Stamped? ==> s.marked)
  }

  /** An overwrite pipe keeps the last ring of messages, but for the slot marked next. */
  ghost predicate Keeps(s: Ring)
    requires |s.slots| > 0
  {
    s.overflow.Overwrite? ==> forall k: nat :: k < s.w && !Lost(s, k) ==> Holds(s, k)
  }

  /** A drop pipe keeps what its reader has not read, and never has more than a ring of it. */
  ghost predicate Lossless(s: Ring, u: Reader)
    requires |s.slots| > 0
  {
    s.overflow.Drop? ==>
      && s.w <= u.expected + |s.slots|
      && (s.Busy() ==> s.w < u.expected + |s.slots|)
      && forall k: nat :: u.expected <= k < s.w ==> Holds(s, k)
  }

  /** What a copy or a view has read is the message, if the stamp is still right. */
  ghost predicate Faithful(s: Ring, r: nat, rd: nat, len: nat, buf: Bytes)
    requires |s.slots| > 0
  {
    && r < s.w && rd == r % |s.slots| && |buf| <= len <= |s.slots[rd].data|
    && (s.slots[rd].stamp == 2 * r ==> Holds(s, r) && len == |s.msgs[r]| && buf <= s.msgs[r])
  }

  ghost predicate AllLost(s: Ring, a: nat, b: nat) { forall k: nat :: a <= k < b ==> Lost(s, k) }

  ghost predicate ConsLaw(s: Ring, u: Reader)
    requires |s.slots| > 0
  {
    match u.cons
    case Away => true
    case Scan(fast, _, r, rd) =>
      u.expected <= r <= s.w && rd == r % |s.slots| && AllLost(s, u.expected, r) && (fast ==> r == u.expected)
    case Look(fast, _, r, rd) =>
      u.expected <= r < s.w && rd == r % |s.slots| && AllLost(s, u.expected, r) && (fast ==> r == u.expected)
    case Measure(fast, _, r, rd) =>
      u.expected <= r < s.w && rd == r % |s.slots| && AllLost(s, u.expected, r) && (fast ==> r == u.expected)
    case Reload(r, rd) => u.expected == r < s.w && rd == r % |s.slots|
    case Copy(fast, r, rd, len, buf) =>
      u.expected <= r && Faithful(s, r, rd, len, buf) && AllLost(s, u.expected, r) && (fast ==> r == u.expected)
    case View(rd, len, missed, buf) => Faithful(s, u.expected, rd, len, buf) && (s.overflow.Drop? ==> missed == 0)
  }

  /** The number the reader was waiting for when it got its i-th message. */
  ghost function Due(u: Reader, i: nat): nat
    requires i <= |u.got|
  {
    if i == 0 then u.start else u.got[i - 1].seqno + 1
  }

  ghost predicate Delivered(s: Ring, u: Reader, i: nat)
    requires i < |u.got|
  {
    var d := u.got[i];
    && d.seqno == Due(u, i) + d.missed && d.seqno < s.w && d.seqno < |s.msgs|
    && d.at <= s.Claims()
    && (forall k: nat :: Due(u, i) <= k < d.seqno ==> Reclaimed(d.at, |s.slots|, k))
    && (d.Stale? <==> Reclaimed(d.at, |s.slots|, d.seqno))
    && (d.Whole? ==> d.data == s.msgs[d.seqno])
    && (d.Viewed? ==> d.data <= s.msgs[d.seqno])
    && (s.overflow.Drop? ==> d.missed == 0 && !d.Stale?)
  }

  /** With so many claims on a ring of n, message k's slot was handed out again. */
  ghost predicate Reclaimed(claims: nat, n: nat, k: nat) { claims > k + n }

  ghost function Missing(u: Reader): nat { if u.cons.View? then u.cons.missed else 0 }

  ghost predicate ReaderLaw(s: Ring, u: Reader)
    requires |s.slots| > 0
  {
    && u.expected <= s.w && u.cursor == u.expected % |s.slots|
    && ConsLaw(s, u) && Lossless(s, u)
    && (forall i :: 0 <= i < |u.got| ==> Delivered(s, u, i))
    && u.expected == Due(u, |u.got|) + Missing(u)
    && AllLost(s, Due(u, |u.got|), u.expected)
  }

  /** The length a pop goes by fits its buffer, and so does all it delivers. Only v_bus_pop's own copy can
      have another one, and then the slot was handed out between its two looks. */
  ghost predicate FitLaw(s: Ring, u: Reader)
    requires |s.slots| > 0
  {
    && (u.cons.Reload? && u.cons.rd < |s.slots| ==>
          s.slots[u.cons.rd].stamp == 2 * u.cons.r ==> s.slots[u.cons.rd].len <= u.cap)
    && (u.cons.Copy? && u.cons.rd < |s.slots| && u.cons.len > u.cap ==>
          u.cons.fast && s.slots[u.cons.rd].stamp != 2 * u.cons.r)
    && (forall i :: 0 <= i < |u.got| && u.got[i].Whole? ==> |u.got[i].data| <= u.got[i].cap)
  }

  /** The stamp of a published message is only ever in that message's slot. */
  ghost predicate StampsHome(s: Ring)
    requires |s.slots| > 0
  {
    forall i :: 0 <= i < |s.slots| && s.slots[i].stamp % 2 == 0 ==> (s.slots[i].stamp / 2) % |s.slots| == i
  }

  /** A reader that attached one slot behind its number: it looks for every message in the slot before
      the message's own. */
  ghost predicate AstrayLaw(s: Ring, u: Reader)
    requires |s.slots| > 0
  {
    var n := |s.slots|;
    && u.got == [] && u.expected == u.start <= s.w && u.cursor == (u.expected + n - 1) % n
    && (u.cons.Away? || u.cons.Scan? || u.cons.Look?)
    && (u.cons.Scan? ==> u.expected <= u.cons.r <= s.w && u.cons.rd == (u.cons.r + n - 1) % n)
    && (u.cons.Look? ==> u.expected <= u.cons.r < s.w && u.cons.rd == (u.cons.r + n - 1) % n)
    && Lossless(s, u)
  }

  ghost predicate Astray(s: Ring, u: Reader) { u.late && |s.slots| > 1 }

  ghost predicate Attached(s: Ring, u: Reader)
    requires |s.slots| > 0
  {
    if Astray(s, u) then AstrayLaw(s, u) else ReaderLaw(s, u) && FitLaw(s, u)
  }

  ghost predicate RingLaw(s: Ring) { Shape(s) && Progress(s) && Keeps(s) }

  ghost predicate Inv(s: State) {
    RingLaw(s.ring) && StampsHome(s.ring) && (s.reader.Some? ==> Attached(s.ring, s.reader.value))
  }

  // --- Consumer steps ---------------------------------------------------------------------------------

  /** A slot whose stamp is not the one of a published message was handed out again; and the other
      way round. Only an overwrite pipe does that to a message not read yet. */
  lemma StampTells(s: Ring, k: nat)
    requires Shape(s) && Progress(s) && Keeps(s) && s.overflow.Overwrite? && k < s.w
    ensures At(s, k).stamp == 2 * k <==> !Lost(s, k)
  {
    if Lost(s, k) { SameSlot(s, k); } else { assert Holds(s, k); }
  }

  /** The newest number below c that shares k's slot. */
  lemma {:induction false} Newest(k: nat, c: nat, n: nat) returns (j: nat)
    requires n > 0 && k < c
    ensures k <= j < c <= j + n && j % n == k % n
    decreases c - k
  {
    if c <= k + n {
      j := k;
    } else {
      ModWrap(k, n);
      j := Newest(k + n, c, n);
    }
  }

  lemma SameSlot(s: Ring, k: nat)
    requires Shape(s) && Progress(s) && Keeps(s) && s.overflow.Overwrite? && k < s.w && Lost(s, k)
    ensures At(s, k).stamp > 2 * k
  {
    var j := Newest(k, s.Claims(), |s.slots|);
    if j < s.w {
      assert !Lost(s, j);
      assert Holds(s, j);
    }
  }

  /** In either kind of pipe: an unread message's slot either still holds it, or was lost. */
  lemma Unread(s: Ring, u: Reader, r: nat)
    requires RingLaw(s) && Lossless(s, u) && u.expected <= r < s.w
    ensures At(s, r).stamp == 2 * r <==> !Lost(s, r)
    ensures !Lost(s, r) ==> Holds(s, r)
    ensures s.overflow.Drop? ==> !Lost(s, r)
  {
    if s.overflow.Overwrite? { StampTells(s, r); } else { assert Holds(s, r); }
  }

  lemma Transit(s: Ring, u: Reader, cons: Cons)
    requires RingLaw(s) && ReaderLaw(s, u) && !u.cons.View? && !cons.View? && ConsLaw(s, u.(cons := cons))
    ensures ReaderLaw(s, u.(cons := cons))
  {
    var v := u.(cons := cons);
    forall i | 0 <= i < |v.got| ensures Delivered(s, v, i) { assert Delivered(s, u, i) && Due(v, i) == Due(u, i); }
  }

  /** The reader goes on to message r + 1, with something to show for r and all before it. */
  lemma Received(s: Ring, u: Reader, v: Reader, d: Delivery)
    requires RingLaw(s) && ReaderLaw(s, u)
    requires v == u.(expected := d.seqno + 1, cursor := v.cursor, cons := Away, got := u.got + [d])
    requires u.expected <= d.seqno < s.w && d.seqno == Due(u, |u.got|) + d.missed && AllLost(s, Due(u, |u.got|), d.seqno)
    requires v.cursor == (d.seqno + 1) % |s.slots|
    requires d.Whole? ==> d.data == s.msgs[d.seqno]
    requires d.Viewed? ==> d.data <= s.msgs[d.seqno]
    requires d.at == s.Claims() && (d.Stale? <==> Lost(s, d.seqno))
    requires s.overflow.Drop? ==> d.missed == 0 && !d.Stale?
    ensures ReaderLaw(s, v)
  {
    hide RingLaw, Lossless;
    ShapeFacts(s, u);
    forall i | 0 <= i < |v.got| ensures Delivered(s, v, i) {
      assert Due(v, i) == Due(u, i);
      if i < |u.got| { DeliveredSame(s, u, v, i); } else { LastDelivered(s, u, v, d); }
    }
    LosslessOn(s, u, v);
  }

  lemma DeliveredSame(s: Ring, u: Reader, v: Reader, i: nat)
    requires i < |u.got| <= |v.got| && v.got[i] == u.got[i] && Due(v, i) == Due(u, i) && Delivered(s, u, i)
    ensures Delivered(s, v, i)
  {
  }

  lemma LastDelivered(s: Ring, u: Reader, v: Reader, d: Delivery)
    requires v.got == u.got + [d] && Due(v, |u.got|) == Due(u, |u.got|) && s.w <= |s.msgs|
    requires d.seqno == Due(u, |u.got|) + d.missed && d.seqno < s.w && AllLost(s, Due(u, |u.got|), d.seqno)
    requires d.Whole? ==> d.data == s.msgs[d.seqno]
    requires d.Viewed? ==> d.data <= s.msgs[d.seqno]
    requires d.at == s.Claims() && (d.Stale? <==> Lost(s, d.seqno))
    requires s.overflow.Drop? ==> d.missed == 0 && !d.Stale?
    ensures Delivered(s, v, |u.got|)
  {
    forall k: nat | Due(u, |u.got|) <= k < d.seqno ensures Reclaimed(d.at, |s.slots|, k) { assert Lost(s, k); }
  }

  lemma LosslessOn(s: Ring, u: Reader, v: Reader)
    requires |s.slots| > 0 && Lossless(s, u) && u.expected <= v.expected
    ensures Lossless(s, v)
  {
  }

  /** Lapped: the jump lands on the slot of the oldest message that may still be there. */
  lemma JumpSlot(r: nat, rd: nat, w: nat, n: nat)
    requires n > 0 && rd == r % n && r + n < w
    ensures (rd + (w - n - r) % n) % n == (w - n) % n
  {
    ModJump(r, w - n - r, n);
    assert r + (w - n - r) == w - n;
  }

  lemma ScanLaw(s: Ring, u: Reader)
    requires RingLaw(s) && ReaderLaw(s, u) && u.cons.Scan?
    ensures ReaderLaw(s, ScanStep(s, u))
  {
    hide RingLaw, Lossless, Delivered;
    ShapeFacts(s, u);
    var n, r := |s.slots|, u.cons.r;
    if s.w > r + n && !u.cons.fast {
      JumpSlot(r, u.cons.rd, s.w, n);
      var cons := Look(false, u.cons.view, s.w - n, (s.w - n) % n);
      forall k: nat | u.expected <= k < s.w - n ensures Lost(s, k) {}
      assert ScanStep(s, u) == u.(cons := cons);
      Transit(s, u, cons);
    } else if s.w <= r && !u.cons.fast {
      Transit(s, u, Away);
    } else if s.w <= r || s.w > r + n {
      Transit(s, u, Scan(false, u.cons.view, u.expected, u.cursor));
    } else {
      Transit(s, u, Look(u.cons.fast, u.cons.view, r, u.cons.rd));
    }
  }

  lemma SkipLaw(s: Ring, u: Reader)
    requires RingLaw(s) && ReaderLaw(s, u) && (u.cons.Look? || u.cons.Copy?)
    requires u.cons.rd < |s.slots| && s.slots[u.cons.rd].stamp != 2 * u.cons.r
    ensures ReaderLaw(s, u.(cons := Skip(s, u)))
  {
    Unread(s, u, u.cons.r);
    ModNext(u.cons.r, |s.slots|);
    hide RingLaw, Lossless;
    Transit(s, u, Skip(s, u));
  }

  lemma LookLaw(s: Ring, u: Reader)
    requires RingLaw(s) && ReaderLaw(s, u) && u.cons.Look?
    ensures u.cons.rd < |s.slots| && ReaderLaw(s, LookStep(s, u))
  {
    hide RingLaw, Lossless;
    ShapeFacts(s, u);
    if s.slots[u.cons.rd].stamp == 2 * u.cons.r {
      Transit(s, u, LookStep(s, u).cons);
    } else {
      SkipLaw(s, u);
    }
  }

  lemma ShapeFacts(s: Ring, u: Reader)
    requires RingLaw(s) && Lossless(s, u)
    ensures |s.slots| > 0 && s.w <= |s.msgs|
    ensures forall i :: 0 <= i < |s.slots| ==> s.slots[i].len <= |s.slots[i].data|
    ensures forall r: nat :: u.expected <= r < s.w && At(s, r).stamp == 2 * r ==> Holds(s, r)
  {
    forall r: nat | u.expected <= r < s.w && At(s, r).stamp == 2 * r ensures Holds(s, r) { Unread(s, u, r); }
  }

  lemma ReloadLaw(s: Ring, u: Reader)
    requires RingLaw(s) && ReaderLaw(s, u) && u.cons.Reload?
    ensures u.cons.rd < |s.slots| && ReaderLaw(s, ReloadStep(s, u))
  {
    hide RingLaw, Lossless;
    ShapeFacts(s, u);
    Transit(s, u, ReloadStep(s, u).cons);
  }

  lemma MeasureLaw(s: Ring, u: Reader)
    requires RingLaw(s) && ReaderLaw(s, u) && u.cons.Measure?
    ensures u.cons.rd < |s.slots| && ReaderLaw(s, MeasureStep(s, u))
  {
    hide RingLaw, Lossless;
    ShapeFacts(s, u);
    Unread(s, u, u.expected);
    var v := MeasureStep(s, u);
    if u.cons.view {
      forall i | 0 <= i < |v.got| ensures Delivered(s, v, i) { assert Due(v, i) == Due(u, i); DeliveredSame(s, u, v, i); }
      assert Due(v, |v.got|) == Due(u, |u.got|);
      LosslessOn(s, u, v);
      forall k: nat | Due(v, |v.got|) <= k < v.expected ensures Lost(s, k) { assert k < u.expected || u.expected <= k < u.cons.r; }
      assert Faithful(s, v.expected, u.cons.rd, s.slots[u.cons.rd].len, []);
    } else {
      Transit(s, u, v.cons);
    }
  }

  lemma CopyLaw(s: Ring, u: Reader)
    requires RingLaw(s) && ReaderLaw(s, u) && u.cons.Copy?
    ensures u.cons.rd < |s.slots| && ReaderLaw(s, CopyStep(s, u))
  {
    hide RingLaw, Lossless;
    ShapeFacts(s, u);
    var x, k := s.slots[u.cons.rd], |u.cons.buf|;
    if k < u.cons.len {
      assert x.stamp == 2 * u.cons.r ==> x.data[k] == s.msgs[u.cons.r][k];
      Transit(s, u, CopyStep(s, u).cons);
    } else if x.stamp == 2 * u.cons.r {
      assert u.cons.buf == s.msgs[u.cons.r];
      Unread(s, u, u.cons.r);
      Unread(s, u, u.expected);
      ModNext(u.cons.r, |s.slots|);
      var v := CopyStep(s, u);
      Received(s, u, v, v.got[|u.got|]);
    } else {
      SkipLaw(s, u);
    }
  }

  lemma ViewLaw(s: Ring, u: Reader)
    requires RingLaw(s) && ReaderLaw(s, u) && u.cons.View?
    ensures u.cons.rd < |s.slots| && ReaderLaw(s, ViewStep(s, u))
  {
    hide RingLaw, Lossless;
    ShapeFacts(s, u);
    var x, k, v := s.slots[u.cons.rd], |u.cons.buf|, ViewStep(s, u);
    if k < u.cons.len {
      assert x.stamp == 2 * u.expected ==> x.data[k] == s.msgs[u.expected][k];
      forall i | 0 <= i < |v.got| ensures Delivered(s, v, i) { assert Delivered(s, u, i) && Due(v, i) == Due(u, i); }
      assert Due(v, |v.got|) == Due(u, |u.got|);
      LosslessOn(s, u, v);
    }
  }

  lemma ReleaseLaw(s: Ring, u: Reader)
    requires RingLaw(s) && ReaderLaw(s, u) && u.cons.View?
    ensures ReaderLaw(s, ReleaseStep(s, u))
  {
    Unread(s, u, u.expected);
    hide RingLaw, Lossless;
    ModNext(u.expected, |s.slots|);
    var v := ReleaseStep(s, u);
    Received(s, u, v, v.got[|u.got|]);
  }

  lemma StartLaw(s: Ring, u: Reader, fast: bool, view: bool, cap: nat)
    requires RingLaw(s) && ReaderLaw(s, u) && u.cons.Away?
    ensures ReaderLaw(s, StartStep(u, fast, view, cap))
  {
    var v := u.(cap := cap);
    forall i | 0 <= i < |v.got| ensures Delivered(s, v, i) { assert Delivered(s, u, i) && Due(v, i) == Due(u, i); }
    assert ReaderLaw(s, v);
    Transit(s, v, Scan(fast, view, u.expected, u.cursor));
  }

  lemma ConsumerLaw(s: Ring, u: Reader, op: Op)
    requires RingLaw(s) && ReaderLaw(s, u)
    ensures ReaderLaw(s, Consume(s, u, op))
  {
    hide ReaderLaw;
    match op
    case Pop(fast, cap) => if u.cons.Away? { StartLaw(s, u, fast, false, cap); }
    case Peek(fast) => if u.cons.Away? { StartLaw(s, u, fast, true, 0); }
    case Release => if u.cons.View? { ReleaseLaw(s, u); }
    case Step =>
      match u.cons {
        case Scan(_, _, _, _) => ScanLaw(s, u);
        case Look(_, _, _, _) => LookLaw(s, u);
        case Measure(_, _, _, _) => MeasureLaw(s, u);
        case Reload(_, _) => ReloadLaw(s, u);
        case Copy(_, _, _, _, _) => CopyLaw(s, u);
        case View(_, _, _, _) => ViewLaw(s, u);
        case Away =>
      }
    case _ =>
  }

  // --- Producer steps ---------------------------------------------------------------------------------

  /** The producer changed nothing but the slot of message w, and no stamp there names an older one
      (overwrite), or it had claimed the slot (drop). */
  ghost predicate Wrote(s: Ring, t: Ring)
    requires |s.slots| > 0
  {
    && t.overflow == s.overflow && |t.slots| == |s.slots| && t.w == s.w && s.Claims() <= t.Claims()
    && s.w <= |s.msgs| && s.w <= |t.msgs| && t.msgs[..s.w] == s.msgs[..s.w]
    && (forall i :: 0 <= i < |s.slots| && i != s.w % |s.slots| ==> t.slots[i] == s.slots[i])
    && (forall i :: 0 <= i < |s.slots| ==> |t.slots[i].data| == |s.slots[i].data|)
    && (s.overflow.Overwrite? ==> t.slots == s.slots || At(t, s.w).stamp >= 2 * s.w)
    && (s.overflow.Drop? ==> t.slots == s.slots || s.Busy())
  }

  /** A message that is still there after the producer's step was there before, and is unharmed. */
  lemma StillHolds(s: Ring, t: Ring, k: nat)
    requires |s.slots| > 0 && Wrote(s, t) && k < s.w && Holds(s, k) && k % |s.slots| != s.w % |s.slots|
    ensures Holds(t, k)
  {
    assert t.msgs[k] == t.msgs[..s.w][k] == s.msgs[..s.w][k];
  }

  lemma SameSlots(s: Ring, t: Ring, k: nat)
    requires |s.slots| > 0 && Wrote(s, t) && k < s.w && Holds(s, k) && t.slots == s.slots
    ensures Holds(t, k)
  {
    assert t.msgs[k] == t.msgs[..s.w][k] == s.msgs[..s.w][k];
  }

  /** The slot of message w belongs to no unread message: less than a ring separates them. */
  lemma OtherSlot(s: Ring, u: Reader, k: nat)
    requires |s.slots| > 0 && s.w < u.expected + |s.slots| && u.expected <= k < s.w
    ensures k % |s.slots| != s.w % |s.slots|
  {
    ModApart(k, s.w, |s.slots|);
  }

  lemma FaithfulStill(s: Ring, t: Ring, u: Reader, r: nat, rd: nat, len: nat, buf: Bytes)
    requires |s.slots| > 0 && Wrote(s, t) && Lossless(s, u) && u.expected <= r && Faithful(s, r, rd, len, buf)
    ensures Faithful(t, r, rd, len, buf)
  {
    if t.slots == s.slots {
      if s.slots[rd].stamp == 2 * r { SameSlots(s, t, r); assert t.msgs[r] == t.msgs[..s.w][r] == s.msgs[..s.w][r]; }
    } else if rd != s.w % |s.slots| {
      if s.slots[rd].stamp == 2 * r { StillHolds(s, t, r); assert t.msgs[r] == t.msgs[..s.w][r] == s.msgs[..s.w][r]; }
    } else {
      assert s.overflow.Drop? ==> false by { if s.overflow.Drop? { OtherSlot(s, u, r); } }
    }
  }

  lemma LostStill(s: Ring, t: Ring, a: nat, b: nat)
    requires AllLost(s, a, b) && s.Claims() <= t.Claims() && |t.slots| == |s.slots|
    ensures AllLost(t, a, b)
  {
    forall k: nat | a <= k < b ensures Lost(t, k) { assert Lost(s, k); }
  }

  lemma DeliveredStill(s: Ring, t: Ring, u: Reader, i: nat)
    requires |t.slots| == |s.slots| && s.Claims() <= t.Claims() && s.w <= t.w && s.w <= |s.msgs| && s.w <= |t.msgs|
    requires t.overflow == s.overflow
    requires t.msgs[..s.w] == s.msgs[..s.w] && i < |u.got| && Delivered(s, u, i)
    ensures Delivered(t, u, i)
  {
    var d := u.got[i];
    assert t.msgs[d.seqno] == t.msgs[..s.w][d.seqno] == s.msgs[..s.w][d.seqno];
  }

  lemma ConsStill(s: Ring, t: Ring, u: Reader)
    requires |s.slots| > 0 && Wrote(s, t) && Lossless(s, u) && ConsLaw(s, u)
    ensures ConsLaw(t, u)
  {
    match u.cons
    case Away =>
    case Scan(fast, _, r, rd) => LostStill(s, t, u.expected, r);
    case Look(fast, _, r, rd) => LostStill(s, t, u.expected, r);
    case Measure(fast, _, r, rd) => LostStill(s, t, u.expected, r);
    case Reload(_, _) =>
    case Copy(fast, r, rd, len, buf) =>
      LostStill(s, t, u.expected, r);
      FaithfulStill(s, t, u, r, rd, len, buf);
    case View(rd, len, missed, buf) => FaithfulStill(s, t, u, u.expected, rd, len, buf);
  }

  lemma LosslessStill(s: Ring, t: Ring, u: Reader)
    requires |s.slots| > 0 && Wrote(s, t) && Lossless(s, u)
    requires s.overflow.Drop? && t.Busy() ==> s.w < u.expected + |s.slots|
    ensures Lossless(t, u)
  {
    if s.overflow.Drop? {
      forall k: nat | u.expected <= k < s.w ensures Holds(t, k) {
        assert Holds(s, k);
        if t.slots == s.slots {
          SameSlots(s, t, k);
        } else {
          OtherSlot(s, u, k);
          StillHolds(s, t, k);
        }
      }
    }
  }

  lemma ReaderStill(s: Ring, t: Ring, u: Reader)
    requires |s.slots| > 0 && Wrote(s, t) && ReaderLaw(s, u)
    requires s.overflow.Drop? && t.Busy() ==> s.w < u.expected + |s.slots|
    ensures ReaderLaw(t, u)
  {
    hide Lossless, ConsLaw;
    ConsStill(s, t, u);
    LosslessStill(s, t, u);
    forall i | 0 <= i < |u.got| ensures Delivered(t, u, i) { DeliveredStill(s, t, u, i); }
    LostStill(s, t, Due(u, |u.got|), u.expected);
  }

  lemma KeepsStill(s: Ring, t: Ring)
    requires Shape(s) && Wrote(s, t) && Keeps(s) && (s.overflow.Overwrite? && t.slots != s.slots ==> t.marked)
    ensures Keeps(t)
  {
    if s.overflow.Overwrite? {
      forall k: nat | k < t.w && !Lost(t, k) ensures Holds(t, k) {
        assert !Lost(s, k) && Holds(s, k);
        if t.slots == s.slots {
          SameSlots(s, t, k);
        } else {
          ModApart(k, s.w, |s.slots|);
          StillHolds(s, t, k);
        }
      }
    }
  }

  /** pipe_claim, the copy, and the stores up to the stamp. */
  lemma WriteLaw(s: Ring, reader: Option<Reader>, op: Op)
    requires RingLaw(s) && (op.Claim? || op.PutByte? || op.PutLen? || op.Stamp?)
    ensures |s.slots| > 0
    ensures var t := Produce(s, reader, op); RingLaw(t) && Wrote(s, t)
  {
    var t := Produce(s, reader, op);
    if t != s {
      assert s.pw == s.w % |s.slots|;
      if op.PutByte? { PutByteFacts(s); }
      if op.Claim? { assert t.msgs[s.w] == op.payload; }
      KeepsStill(s, t);
    }
  }

  lemma PutByteFacts(s: Ring)
    requires RingLaw(s) && PutByteStep(s) != s
    ensures var t := PutByteStep(s); At(t, s.w).data[..s.prod.done + 1] == s.msgs[s.w][..s.prod.done + 1]
  {
    var t := PutByteStep(s);
    var d, k := At(s, s.w).data, s.prod.done;
    assert At(t, s.w).data[..k + 1] == d[..k] + [s.msgs[s.w][k]];
    assert s.msgs[s.w][..k + 1] == s.msgs[s.w][..k] + [s.msgs[s.w][k]];
  }

  lemma BumpLaw(s: Ring)
    requires RingLaw(s) && s.prod.Stamped?
    ensures RingLaw(BumpStep(s))
  {
    var t := BumpStep(s);
    var n := |s.slots|;
    assert (t.w + n - 1) % n == s.w % n by { ModWrap(s.w, n); }
    forall k: nat | s.overflow.Overwrite? && k < t.w && !Lost(t, k) ensures Holds(t, k) {
      assert Holds(s, k);
    }
  }

  lemma BumpReader(s: Ring, u: Reader)
    requires RingLaw(s) && s.prod.Stamped? && ReaderLaw(s, u)
    ensures ReaderLaw(BumpStep(s), u)
  {
    var t := BumpStep(s);
    assert t.msgs[..s.w] == s.msgs[..s.w];
    forall i | 0 <= i < |u.got| ensures Delivered(t, u, i) { DeliveredStill(s, t, u, i); }
    LostStill(s, t, Due(u, |u.got|), u.expected);
    if !u.cons.Away? && !u.cons.View? && !u.cons.Reload? { LostStill(s, t, u.expected, u.cons.r); }
    forall k: nat | s.overflow.Drop? && u.expected <= k < t.w ensures Holds(t, k) { assert Holds(s, k); }
  }

  lemma AdvanceLaw(s: Ring)
    requires RingLaw(s) && s.prod.Bumped?
    ensures |s.slots| > 0 && RingLaw(AdvanceStep(s)) && Wrote(s, AdvanceStep(s))
  {
    var t := AdvanceStep(s);
    var n := |s.slots|;
    ModNext(s.w + n - 1, n);
    ModWrap(s.w, n);
    KeepsStill(s, t);
  }

  lemma CancelLaw(s: Ring)
    requires RingLaw(s) && s.prod.Writing?
    ensures |s.slots| > 0 && RingLaw(CancelStep(s)) && Wrote(s, CancelStep(s))
  {
    KeepsStill(s, CancelStep(s));
  }

  lemma ProducerRing(s: Ring, reader: Option<Reader>, op: Op)
    requires RingLaw(s) && ProducerOp(op)
    ensures RingLaw(Produce(s, reader, op))
  {
    hide RingLaw;
    if Produce(s, reader, op) != s {
      if op.Bump? {
        BumpLaw(s);
      } else if op.Advance? {
        AdvanceLaw(s);
      } else if op.Cancel? {
        CancelLaw(s);
      } else {
        WriteLaw(s, reader, op);
      }
    }
  }

  lemma ProducerReader(s: Ring, u: Reader, op: Op)
    requires RingLaw(s) && ReaderLaw(s, u) && ProducerOp(op)
    ensures ReaderLaw(Produce(s, Some(u), op), u)
  {
    hide RingLaw, ReaderLaw;
    var t := Produce(s, Some(u), op);
    if t != s {
      if op.Bump? {
        BumpReader(s, u);
      } else {
        if op.Advance? {
          AdvanceLaw(s);
        } else if op.Cancel? {
          CancelLaw(s);
        } else {
          WriteLaw(s, Some(u), op);
        }
        Written(s, t, u);
      }
    }
  }

  /** ReaderStill, with the room the producer found or already had. */
  lemma Written(s: Ring, t: Ring, u: Reader)
    requires |s.slots| > 0 && Wrote(s, t) && ReaderLaw(s, u)
    requires t.Busy() ==> s.Busy() || !Full(s, Some(u))
    ensures ReaderLaw(t, u)
  {
    ReaderStill(s, t, u);
  }

  lemma ProducerHome(s: Ring, reader: Option<Reader>, op: Op)
    requires RingLaw(s) && StampsHome(s) && ProducerOp(op)
    ensures |Produce(s, reader, op).slots| > 0 && StampsHome(Produce(s, reader, op))
  {
  }

  // --- What fits ----------------------------------------------------------------------------------------

  /** A slot the reader is after is left alone, or its stamp is no longer the one it looks for. */
  lemma FitStill(s: Ring, u: Reader, op: Op)
    requires RingLaw(s) && ReaderLaw(s, u) && FitLaw(s, u) && ProducerOp(op)
    ensures |s.slots| > 0
    ensures var t := Produce(s, Some(u), op); |t.slots| == |s.slots| && FitLaw(t, u)
  {
    var t := Produce(s, Some(u), op);
    if t.slots != s.slots && (u.cons.Reload? || u.cons.Copy?) {
      assert op.Claim? || op.PutByte? || op.PutLen? || op.Stamp?;
      WriteLaw(s, Some(u), op);
      if u.cons.rd == s.w % |s.slots| && s.overflow.Drop? { OtherSlot(s, u, u.cons.r); }
    }
  }

  lemma ConsumerFits(s: Ring, u: Reader, op: Op)
    requires RingLaw(s) && ReaderLaw(s, u) && FitLaw(s, u)
    ensures FitLaw(s, Consume(s, u, op))
  {
    hide Lossless, Delivered, Progress, Keeps;
  }

  // --- A reader gone astray -----------------------------------------------------------------------------

  lemma AstrayStart(s: Ring)
    requires RingLaw(s) && s.prod.Bumped?
    ensures AstrayLaw(s, Join(s))
  {
  }

  /** The slot it looks at never has the stamp it looks for. */
  lemma AstrayStamp(s: Ring, r: nat)
    requires |s.slots| > 1 && StampsHome(s)
    ensures s.slots[(r + |s.slots| - 1) % |s.slots|].stamp != 2 * r
  {
    ModApart(r, r + |s.slots| - 1, |s.slots|);
  }

  lemma AstrayScan(s: Ring, u: Reader)
    requires |s.slots| > 1 && AstrayLaw(s, u) && u.cons.Scan?
    ensures AstrayLaw(s, ScanStep(s, u))
  {
    var n, r := |s.slots|, u.cons.r;
    if s.w > r + n {
      ModJump(r + n - 1, s.w - n - r, n);
      assert (r + n - 1) + (s.w - n - r) == (s.w - n) + n - 1;
    }
  }

  lemma AstrayLook(s: Ring, u: Reader)
    requires |s.slots| > 1 && StampsHome(s) && AstrayLaw(s, u) && u.cons.Look?
    ensures u.cons.rd < |s.slots| && AstrayLaw(s, LookStep(s, u))
  {
    AstrayStamp(s, u.cons.r);
    ModNext(u.cons.r + |s.slots| - 1, |s.slots|);
  }

  lemma AstrayConsumer(s: Ring, u: Reader, op: Op)
    requires |s.slots| > 1 && StampsHome(s) && AstrayLaw(s, u)
    ensures AstrayLaw(s, Consume(s, u, op))
  {
    if op.Step? && u.cons.Scan? {
      AstrayScan(s, u);
    } else if op.Step? && u.cons.Look? {
      AstrayLook(s, u);
    }
  }

  lemma AstrayProducer(s: Ring, u: Reader, op: Op)
    requires RingLaw(s) && |s.slots| > 1 && AstrayLaw(s, u) && ProducerOp(op)
    ensures |Produce(s, Some(u), op).slots| == |s.slots| && AstrayLaw(Produce(s, Some(u), op), u)
  {
    Unharmed(s, u, op);
    hide RingLaw, Lossless;
  }

  /** A drop pipe keeps what its reader has not read. */
  lemma Unharmed(s: Ring, u: Reader, op: Op)
    requires RingLaw(s) && Lossless(s, u) && ProducerOp(op)
    ensures |s.slots| == |Produce(s, Some(u), op).slots| && Lossless(Produce(s, Some(u), op), u)
  {
    hide Shape, Keeps;
    var t := Produce(s, Some(u), op);
    if t != s {
      if op.Bump? {
        forall k: nat | s.overflow.Drop? && u.expected <= k < t.w ensures Holds(t, k) { assert Holds(s, k); }
      } else {
        if op.Advance? { AdvanceLaw(s); } else if op.Cancel? { CancelLaw(s); } else { WriteLaw(s, Some(u), op); }
        LosslessStill(s, t, u);
      }
    }
  }

  // --- Every run --------------------------------------------------------------------------------------

  lemma JoinLaw(s: Ring)
    requires RingLaw(s)
    ensures Attached(s, Join(s))
  {
    if s.prod.Bumped? {
      AstrayStart(s);
      if |s.slots| == 1 { assert s.w % 1 == 0 && s.pw == 0; }
    }
  }

  lemma Same(s: Ring, reader: Option<Reader>, u: Reader, op: Op)
    ensures |Produce(s, reader, op).slots| == |s.slots| && Consume(s, u, op).late == u.late
  {
  }

  lemma StepInv(s: State, op: Op)
    requires Inv(s)
    ensures Inv(Apply(s, op))
  {
    hide RingLaw, StampsHome, ReaderLaw, FitLaw, AstrayLaw;
    var r := s.ring;
    if ProducerOp(op) {
      ProducerRing(r, s.reader, op);
      ProducerHome(r, s.reader, op);
      if s.reader.Some? {
        var u := s.reader.value;
        Same(r, s.reader, u, op);
        if Astray(r, u) {
          AstrayProducer(r, u, op);
        } else {
          ProducerReader(r, u, op);
          FitStill(r, u, op);
        }
      }
    } else if op.Subscribe? {
      if s.reader.None? { JoinLaw(r); }
    } else if s.reader.Some? {
      var u := s.reader.value;
      Same(r, s.reader, u, op);
      if Astray(r, u) {
        AstrayConsumer(r, u, op);
      } else {
        ConsumerLaw(r, u, op);
        ConsumerFits(r, u, op);
      }
    }
  }

  lemma {:induction false} RunsKeepInv(overflow: Overflow, n: nat, room: nat, ops: seq<Op>)
    requires n > 0
    ensures Inv(Run(overflow, n, room, ops))
  {
    if ops != [] {
      RunsKeepInv(overflow, n, room, ops[..|ops| - 1]);
      StepInv(Run(overflow, n, room, ops[..|ops| - 1]), ops[|ops| - 1]);
    }
  }
}
