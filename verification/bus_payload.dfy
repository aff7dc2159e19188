/** blocks_for and copy_payload: a message's bytes in the flat block memory, behind the header of
    its first block and through the chain. */
module BusPayload {
  import opened Lists
  import opened BusState
  import opened BusRep

  /** First payload byte that goes into the i-th block of a chain. */
  ghost function Start(size: nat, i: nat): (r: nat)
    requires size >= HDR_SIZE
  {
    if i == 0 then 0 else size - HDR_SIZE + (i - 1) * size
  }

  /** Where in its block the payload starts. */
  ghost function Off(i: nat): nat { if i == 0 then HDR_SIZE else 0 }

  lemma StartStep(size: nat, i: nat)
    requires size >= HDR_SIZE
    ensures Start(size, i + 1) == Start(size, i) + size - Off(i)
  {
  }

  lemma {:induction false} StartGrows(size: nat, i: nat, j: nat)
    requires size >= HDR_SIZE && i <= j
    ensures Start(size, i) <= Start(size, j)
  {
    if i < j {
      StartGrows(size, i, j - 1);
      StartStep(size, j - 1);
    }
  }

  /** blocks_for is exact: that many blocks hold the payload, and one fewer would not. */
  lemma {:induction false} BlocksForExact(size: nat, len: nat)
    requires size >= HDR_SIZE
    ensures var n := BlocksFor(size, len);
      && n >= 1 && len <= Start(size, n)
      && forall m: nat :: 1 <= m < n ==> Start(size, m) < len
  {
    var first := size - HDR_SIZE;
    var n := BlocksFor(size, len);
    if len > first {
      var d := len - first;
      var q := (d + size - 1) / size;
      assert n == 1 + q;
      assert q * size <= d + size - 1 < q * size + size;
      assert (q - 1) * size == q * size - size;
      forall m: nat | 1 <= m < n ensures Start(size, m) < len { StartGrows(size, m, n - 1); }
    }
  }

  /** The chain from `head` on, through `next`. */
  ghost predicate ChainFrom(next: seq<nat>, head: nat, chain: seq<nat>) {
    && chain != [] && head == chain[0] && Distinct(chain)
    && (forall i :: 0 <= i < |chain| ==> chain[i] < |next|)
    && forall i :: 0 <= i < |chain| - 1 ==> next[chain[i]] == chain[i + 1]
  }

  /** Byte j of block b. */
  ghost function At(size: nat, b: nat, j: nat): nat { b * size + j }

  /** The blocks of the chain, from the header on, hold these bytes, at least up to block n. */
  ghost predicate Stored(mem: seq<bv8>, size: nat, chain: seq<nat>, bytes: seq<bv8>, n: nat)
    requires size >= HDR_SIZE && n <= |chain|
  {
    forall i, j {:trigger At(size, chain[i], j)} :: 0 <= i < n && Off(i) <= j < size && Start(size, i) + (j - Off(i)) < |bytes|
      ==> At(size, chain[i], j) < |mem| && mem[At(size, chain[i], j)] == bytes[Start(size, i) + (j - Off(i))]
  }

  lemma BlocksApart(size: nat, b: nat, j: nat, c: nat, k: nat)
    requires j < size && k < size && b != c
    ensures At(size, b, j) != At(size, c, k)
  {
    if b < c {
      assert (b + 1) * size <= c * size;
    } else {
      assert (c + 1) * size <= b * size;
    }
  }

  lemma BlockFits(size: nat, b: nat, count: nat, total: nat)
    requires b < count && total == count * size
    ensures b * size + size <= total
  {
    assert (b + 1) * size <= count * size;
  }

  /** v_memcpy into the block memory. */
  method MemCopy(mem: array<bv8>, at: nat, src: seq<bv8>)
    requires at + |src| <= mem.Length
    modifies mem
    ensures forall k :: 0 <= k < mem.Length ==> mem[k] == if at <= k < at + |src| then src[k - at] else old(mem[k])
  {
    var i := 0;
    while i < |src|
      invariant i <= |src|
      invariant forall k :: 0 <= k < mem.Length ==> mem[k] == if at <= k < at + i then src[k - at] else old(mem[k])
    {
      mem[at + i] := src[i];
      i := i + 1;
    }
  }

  /** One more block written, the others as they were. */
  lemma StoredMore(was: seq<bv8>, mem: seq<bv8>, size: nat, chain: seq<nat>, bytes: seq<bv8>, i: nat, n: nat)
    requires size >= HDR_SIZE && i < |chain| && Distinct(chain) && |mem| == |was| && n <= size - Off(i)
    requires Stored(was, size, chain, bytes, i)
    requires Start(size, i) + n <= |bytes| && At(size, chain[i], size) <= |mem|
    requires n == size - Off(i) || Start(size, i) + n == |bytes|
    requires forall k :: 0 <= k < |mem| ==>
      mem[k] == if At(size, chain[i], Off(i)) <= k < At(size, chain[i], Off(i)) + n then bytes[Start(size, i) + (k - At(size, chain[i], Off(i)))] else was[k]
    ensures Stored(mem, size, chain, bytes, i + 1)
  {
    forall a, j | 0 <= a < i + 1 && Off(a) <= j < size && Start(size, a) + (j - Off(a)) < |bytes|
      ensures At(size, chain[a], j) < |mem| && mem[At(size, chain[a], j)] == bytes[Start(size, a) + (j - Off(a))]
    {
      var p := At(size, chain[a], j);
      if a < i {
        var q := At(size, chain[i], Off(i));
        assert !(q <= p < q + n) by {
          if q <= p < q + n { BlocksApart(size, chain[a], j, chain[i], Off(i) + (p - q)); }
        }
      }
    }
  }

  /** Bytes that are not payload of this chain: headers, and every other block. */
  ghost predicate Elsewhere(size: nat, chain: seq<nat>, k: nat) {
    forall i, j :: 0 <= i < |chain| && Off(i) <= j < size ==> At(size, chain[i], j) != k
  }

  /** copy_payload towards the message. The walk stays on the chain, writes the whole payload
      behind the header, and writes nothing else. */
  method CopyIn(mem: array<bv8>, size: nat, next: seq<nat>, msg: nat, payload: seq<bv8>, ghost chain: seq<nat>)
    requires size >= HDR_SIZE && mem.Length == |next| * size && ChainFrom(next, msg, chain)
    requires BlocksFor(size, |payload|) <= |chain|
    modifies mem
    ensures Stored(mem[..], size, chain, payload, |chain|)
    ensures forall k :: 0 <= k < mem.Length && Elsewhere(size, chain, k) ==> mem[k] == old(mem[k])
  {
    hide BlocksFor, Stored, Start, At, ChainFrom;
    var b, off, done := msg, HDR_SIZE, 0;
    ghost var i := 0;
    CopyStart(mem[..], size, next, msg, chain, payload);
    while done < |payload|
      invariant i <= |chain| && done <= |payload| && done <= Start(size, i)
      invariant done < |payload| ==> done == Start(size, i) && i < |chain| && b == chain[i] && off == Off(i)
      invariant Stored(mem[..], size, chain, payload, i)
      invariant forall k :: 0 <= k < mem.Length && Elsewhere(size, chain, k) ==> mem[k] == old(mem[k])
      decreases |chain| - i
    {
      ghost var was := mem[..];
      ChainAt(next, msg, chain, i);
      Room(size, b, |next|, mem.Length);
      var n := if size - off > |payload| - done then |payload| - done else size - off;
      MemCopy(mem, b * size + off, payload[done..done + n]);
      WrittenHere(size, chain, i, n, was, mem[..]);
      StoredMore(was, mem[..], size, chain, payload, i, n);
      StartStep(size, i);
      done := done + n;
      MoreBlocks(size, |payload|, chain, i + 1);
      b := next[b];
      off := 0;
      i := i + 1;
    }
    StoredRest(mem[..], size, chain, payload, i);
  }

  lemma CopyStart(mem: seq<bv8>, size: nat, next: seq<nat>, msg: nat, chain: seq<nat>, bytes: seq<bv8>)
    requires size >= HDR_SIZE && ChainFrom(next, msg, chain)
    ensures chain != [] && msg == chain[0] && Start(size, 0) == 0 && Stored(mem, size, chain, bytes, 0)
  {
  }

  lemma ChainAt(next: seq<nat>, msg: nat, chain: seq<nat>, i: nat)
    requires ChainFrom(next, msg, chain) && i < |chain|
    ensures chain[i] < |next| && Distinct(chain) && (i + 1 < |chain| ==> next[chain[i]] == chain[i + 1])
  {
  }

  lemma Room(size: nat, b: nat, count: nat, total: nat)
    requires b < count && total == count * size
    ensures At(size, b, size) <= total && b * size + size <= total && forall j :: At(size, b, j) == b * size + j
  {
    BlockFits(size, b, count, total);
  }

  /** The bytes just written are payload bytes of block i. */
  lemma WrittenHere(size: nat, chain: seq<nat>, i: nat, n: nat, was: seq<bv8>, mem: seq<bv8>)
    requires i < |chain| && n <= size - Off(i) && |mem| == |was| && At(size, chain[i], size) <= |mem|
    requires forall k :: 0 <= k < |mem| && !(At(size, chain[i], Off(i)) <= k < At(size, chain[i], Off(i)) + n) ==> mem[k] == was[k]
    ensures forall k :: 0 <= k < |mem| && Elsewhere(size, chain, k) ==> mem[k] == was[k]
  {
    forall k | 0 <= k < |mem| && Elsewhere(size, chain, k) ensures mem[k] == was[k] {
      var p := At(size, chain[i], Off(i));
      assert p <= k ==> At(size, chain[i], Off(i) + (k - p)) == k;
    }
  }

  /** While payload is left there is a block for it. */
  lemma MoreBlocks(size: nat, len: nat, chain: seq<nat>, i: nat)
    requires size >= HDR_SIZE && BlocksFor(size, len) <= |chain| && i <= |chain|
    ensures Start(size, i) < len ==> i < |chain|
  {
    BlocksForExact(size, len);
    StartGrows(size, BlocksFor(size, len), |chain|);
  }

  lemma StoredRest(mem: seq<bv8>, size: nat, chain: seq<nat>, bytes: seq<bv8>, i: nat)
    requires size >= HDR_SIZE && i <= |chain| && Stored(mem, size, chain, bytes, i) && |bytes| <= Start(size, i)
    ensures Stored(mem, size, chain, bytes, |chain|)
  {
    forall a | i <= a < |chain| ensures Start(size, a) >= |bytes| {
      StartGrows(size, i, a);
    }
  }

  /** copy_payload away from the message. */
  method CopyOut(mem: array<bv8>, size: nat, next: seq<nat>, msg: nat, len: nat, ghost chain: seq<nat>) returns (out: seq<bv8>)
    requires size >= HDR_SIZE && mem.Length == |next| * size && ChainFrom(next, msg, chain)
    requires BlocksFor(size, len) <= |chain|
    ensures |out| == len && Stored(mem[..], size, chain, out, |chain|)
  {
    hide BlocksFor, Stored, Start, At, ChainFrom;
    var b, off := msg, HDR_SIZE;
    out := [];
    ghost var i := 0;
    CopyStart(mem[..], size, next, msg, chain, out);
    while |out| < len
      invariant i <= |chain| && |out| <= len && |out| <= Start(size, i)
      invariant |out| < len ==> |out| == Start(size, i) && i < |chain| && b == chain[i] && off == Off(i)
      invariant Stored(mem[..], size, chain, out, i)
      decreases |chain| - i
    {
      ChainAt(next, msg, chain, i);
      Room(size, b, |next|, mem.Length);
      var n := if size - off > len - |out| then len - |out| else size - off;
      ReadMore(mem[..], size, chain, out, i, n);
      out := out + mem[b * size + off..b * size + off + n];
      StartStep(size, i);
      MoreBlocks(size, len, chain, i + 1);
      b := next[b];
      off := 0;
      i := i + 1;
    }
    StoredRest(mem[..], size, chain, out, i);
  }

  lemma ReadMore(mem: seq<bv8>, size: nat, chain: seq<nat>, out: seq<bv8>, i: nat, n: nat)
    requires size >= HDR_SIZE && i < |chain| && Stored(mem, size, chain, out, i) && |out| == Start(size, i)
    requires n <= size - Off(i) && At(size, chain[i], size) <= |mem|
    ensures At(size, chain[i], Off(i)) + n <= |mem|
    ensures Stored(mem, size, chain, out + mem[At(size, chain[i], Off(i))..At(size, chain[i], Off(i)) + n], i + 1)
  {
    hide Start;
    var p := At(size, chain[i], Off(i));
    var all := out + mem[p..p + n];
    forall a, j | 0 <= a < i + 1 && Off(a) <= j < size && Start(size, a) + (j - Off(a)) < |all|
      ensures At(size, chain[a], j) < |mem| && mem[At(size, chain[a], j)] == all[Start(size, a) + (j - Off(a))]
    {
      if a < i {
        StartStep(size, a);
        StartGrows(size, a + 1, i);
        assert Start(size, a) + (j - Off(a)) < |out|;
      } else {
        assert At(size, chain[a], j) == p + (j - Off(i));
      }
    }
  }

  /** Every payload byte is in some block of the chain. */
  lemma {:induction false} BlockOf(size: nat, k: nat, n: nat) returns (i: nat, j: nat)
    requires size >= HDR_SIZE && k < Start(size, n)
    ensures i < n && Off(i) <= j < size && k == Start(size, i) + (j - Off(i))
  {
    StartStep(size, n - 1);
    if k >= Start(size, n - 1) {
      i, j := n - 1, k - Start(size, n - 1) + Off(n - 1);
    } else {
      i, j := BlockOf(size, k, n - 1);
    }
  }

  /** The memory holds one payload of a given length, and no other. */
  lemma StoredUnique(mem: seq<bv8>, size: nat, chain: seq<nat>, p: seq<bv8>, q: seq<bv8>)
    requires size >= HDR_SIZE && |p| == |q| && BlocksFor(size, |p|) <= |chain|
    requires Stored(mem, size, chain, p, |chain|) && Stored(mem, size, chain, q, |chain|)
    ensures p == q
  {
    BlocksForExact(size, |p|);
    StartGrows(size, BlocksFor(size, |p|), |chain|);
    forall k | 0 <= k < |p| ensures p[k] == q[k] {
      var i, j := BlockOf(size, k, |chain|);
      assert mem[At(size, chain[i], j)] == p[k];
    }
  }

  /** Copying in and then out is the identity, for every block size, length and chain. */
  method RoundTrip(mem: array<bv8>, size: nat, next: seq<nat>, msg: nat, payload: seq<bv8>, ghost chain: seq<nat>) returns (out: seq<bv8>)
    requires size >= HDR_SIZE && mem.Length == |next| * size && ChainFrom(next, msg, chain)
    requires BlocksFor(size, |payload|) <= |chain|
    modifies mem
    ensures out == payload
  {
    hide BlocksFor, Stored, ChainFrom;
    CopyIn(mem, size, next, msg, payload, chain);
    out := CopyOut(mem, size, next, msg, |payload|, chain);
    StoredUnique(mem[..], size, chain, payload, out);
  }

  // --- Block by block -----------------------------------------------------------------------------------

  /** Where block i's share of a payload starts, or its end. */
  ghost function ShareStart(size: nat, len: nat, i: nat): (k: nat)
    requires size >= HDR_SIZE
    ensures k <= len
  {
    if Start(size, i) < len then Start(size, i) else len
  }

  /** Block i's share: what the bus keeps as the block's cell. */
  ghost function Piece(size: nat, p: seq<bv8>, i: nat): seq<bv8>
    requires size >= HDR_SIZE
  {
    StartStep(size, i);
    p[ShareStart(size, |p|, i)..ShareStart(size, |p|, i + 1)]
  }

  ghost function Pieces(size: nat, p: seq<bv8>, n: nat): (r: seq<Bytes>)
    requires size >= HDR_SIZE
    ensures |r| == n && forall i :: 0 <= i < n ==> r[i] == Piece(size, p, i)
  {
    seq(n, i requires 0 <= i < n => Piece(size, p, i))
  }

  ghost function Joined(r: seq<Bytes>): seq<bv8> { if r == [] then [] else Joined(r[..|r| - 1]) + r[|r| - 1] }

  lemma {:induction false} PiecesJoin(size: nat, p: seq<bv8>, n: nat)
    requires size >= HDR_SIZE
    ensures Joined(Pieces(size, p, n)) == p[..ShareStart(size, |p|, n)]
  {
    if n > 0 {
      PiecesJoin(size, p, n - 1);
      assert Pieces(size, p, n)[..n - 1] == Pieces(size, p, n - 1);
      StartStep(size, n - 1);
    }
  }

  /** The share of block i is in memory, behind the block's header if it has one. */
  ghost predicate InBlock(mem: seq<bv8>, size: nat, b: nat, i: nat, share: seq<bv8>) {
    At(size, b, Off(i)) + |share| <= |mem| && mem[At(size, b, Off(i))..At(size, b, Off(i)) + |share|] == share
  }

  /** What copy_payload leaves in the flat memory is a payload cut into the cells of the chain's blocks, and
      the cells put together again are the payload: what BusImpl stores and delivers block by block. */
  lemma {:induction false} StoredInCells(mem: seq<bv8>, size: nat, chain: seq<nat>, p: seq<bv8>)
    requires size >= HDR_SIZE && BlocksFor(size, |p|) <= |chain|
    requires forall i :: 0 <= i < |chain| ==> At(size, chain[i], size) <= |mem|
    ensures Stored(mem, size, chain, p, |chain|) <==> forall i :: 0 <= i < |chain| ==> InBlock(mem, size, chain[i], i, Piece(size, p, i))
    ensures Joined(Pieces(size, p, |chain|)) == p
  {
    PiecesJoin(size, p, |chain|);
    BlocksForExact(size, |p|);
    StartGrows(size, BlocksFor(size, |p|), |chain|);
    hide BlocksFor;
    assert p[..|p|] == p;
    if Stored(mem, size, chain, p, |chain|) {
      forall i | 0 <= i < |chain| ensures InBlock(mem, size, chain[i], i, Piece(size, p, i)) { ShareStored(mem, size, chain, p, i); }
    }
    if forall i :: 0 <= i < |chain| ==> InBlock(mem, size, chain[i], i, Piece(size, p, i)) {
      forall i, j | 0 <= i < |chain| && Off(i) <= j < size && Start(size, i) + (j - Off(i)) < |p|
        ensures At(size, chain[i], j) < |mem| && mem[At(size, chain[i], j)] == p[Start(size, i) + (j - Off(i))]
      {
        assert InBlock(mem, size, chain[i], i, Piece(size, p, i));
        ByteOfShare(mem, size, chain[i], i, p, j);
      }
    }
  }

  lemma ShareStored(mem: seq<bv8>, size: nat, chain: seq<nat>, p: seq<bv8>, i: nat)
    requires size >= HDR_SIZE && i < |chain| && Stored(mem, size, chain, p, |chain|) && At(size, chain[i], size) <= |mem|
    ensures InBlock(mem, size, chain[i], i, Piece(size, p, i))
  {
    var share, at := Piece(size, p, i), At(size, chain[i], Off(i));
    StartStep(size, i);
    assert At(size, chain[i], size) == at + (size - Off(i));
    assert |share| <= size - Off(i);
    forall k | 0 <= k < |share| ensures mem[at + k] == share[k] {
      assert At(size, chain[i], Off(i) + k) == at + k;
      assert Start(size, i) + k < |p|;
    }
  }

  lemma ByteOfShare(mem: seq<bv8>, size: nat, b: nat, i: nat, p: seq<bv8>, j: nat)
    requires size >= HDR_SIZE && InBlock(mem, size, b, i, Piece(size, p, i))
    requires Off(i) <= j < size && Start(size, i) + (j - Off(i)) < |p|
    ensures At(size, b, j) < |mem| && mem[At(size, b, j)] == p[Start(size, i) + (j - Off(i))]
  {
    StartStep(size, i);
    var share, at, k := Piece(size, p, i), At(size, b, Off(i)), j - Off(i);
    assert At(size, b, j) == at + k && k < |share|;
    assert mem[at..at + |share|][k] == mem[at + k];
  }
}
