/** The shared ring of include/upipe.h: free-running 32-bit indices, masked into a power-of-two
    number of slots. */
module UpipeRing {
  import opened Modular

  const TWO32: nat := 0x1_0000_0000

  function Pow2(k: nat): (r: nat)
    ensures r > 0
  {
    if k == 0 then 1 else 2 * Pow2(k - 1)
  }

  /** Bitwise and of two naturals. */
  function And(a: nat, b: nat): (r: nat)
    ensures r <= b
    decreases b
  {
    if a == 0 || b == 0 then 0 else (a % 2) * (b % 2) + 2 * And(a / 2, b / 2)
  }

  lemma ModMul(a: nat, m: nat)
    requires m > 0
    ensures a % (2 * m) == a % 2 + 2 * ((a / 2) % m)
  {
    var q, r := (a / 2) / m, (a / 2) % m;
    assert a == 2 * (q * m + r) + a % 2;
    assert a == (2 * m) * q + (2 * r + a % 2) by {
      assert 2 * (q * m) == (2 * m) * q;
    }
    DivMod(a, 2 * m, q, 2 * r + a % 2);
  }

  /** Masking with n - 1 is the remainder modulo n, for a power of two. */
  lemma {:induction false} MaskIsMod(i: nat, k: nat)
    ensures And(i, Pow2(k) - 1) == i % Pow2(k)
  {
    if k > 0 {
      var m := Pow2(k - 1);
      MaskIsMod(i / 2, k - 1);
      ModMul(i, m);
      assert (2 * m - 1) / 2 == m - 1 && (2 * m - 1) % 2 == 1;
      if i == 0 { assert 0 % (2 * m) == 0; }
    }
  }

  lemma {:induction false} Pow2Splits(k: nat, l: nat)
    requires k <= l
    ensures Pow2(l) == Pow2(k) * Pow2(l - k)
  {
    if k > 0 {
      Pow2Splits(k - 1, l - 1);
      assert Pow2(l) == 2 * (Pow2(k - 1) * Pow2(l - k));
    }
  }

  /** Counting modulo 2^32 first does not change the slot. */
  lemma ModMod(i: nat, n: nat, c: nat)
    requires n > 0 && c > 0
    ensures (i % (n * c)) % n == i % n
  {
    var m := n * c;
    assert m > 0;
    var q, r := i / m, i % m;
    assert i == m * q + r;
    assert r == n * (r / n) + r % n;
    assert m * q == n * (c * q);
    assert i == n * (c * q + r / n) + r % n;
    DivMod(i, n, c * q + r / n, r % n);
  }

  lemma Pow2At32()
    ensures Pow2(32) == TWO32
  {
    assert Pow2(8) == 256;
    Pow2Splits(8, 16);
    Pow2Splits(16, 32);
    assert Pow2(16) == 65536;
  }

  /** The slot of index i, wrapped or not. */
  lemma {:induction false} SlotOf(i: nat, k: nat)
    requires k <= 32
    ensures And(i % TWO32, Pow2(k) - 1) == i % Pow2(k)
  {
    MaskIsMod(i % TWO32, k);
    Pow2At32();
    Pow2Splits(k, 32);
    ModMod(i, Pow2(k), Pow2(32 - k));
  }

  /** p->wr - p->rd in 32-bit arithmetic. */
  function Sub32(a: nat, b: nat): (r: nat)
    requires a < TWO32 && b < TWO32
    ensures r < TWO32
  {
    if a >= b then a - b else a + TWO32 - b
  }

  function Inc32(a: nat): (r: nat)
    requires a < TWO32
    ensures r < TWO32
  {
    if a + 1 == TWO32 then 0 else a + 1
  }

  /** The difference of the wrapped indices is the number of slots in use. */
  lemma {:induction false} Distance(w: nat, r: nat)
    requires r <= w < r + TWO32
    ensures Sub32(w % TWO32, r % TWO32) == w - r
  {
    var a, b := w / TWO32, r / TWO32;
    assert w == TWO32 * a + w % TWO32 && r == TWO32 * b + r % TWO32;
    assert a == b || a == b + 1;
  }

  lemma IncMod(w: nat)
    ensures Inc32(w % TWO32) == (w + 1) % TWO32
  {
    var a := w / TWO32;
    assert w == TWO32 * a + w % TWO32;
    if w % TWO32 + 1 == TWO32 {
      DivMod(w + 1, TWO32, a + 1, 0);
    } else {
      DivMod(w + 1, TWO32, a, w % TWO32 + 1);
    }
  }
}
