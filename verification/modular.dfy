/** Remainders, as used for positions on a ring. */
module Modular {
  /** Quotient and remainder are the only ones that fit. */
  lemma DivMod(a: int, n: nat, q: int, r: nat)
    requires n > 0 && r < n && a == n * q + r
    ensures a % n == r && a / n == q
  {
    var d := a / n - q;
    assert n * d == r - a % n;
    assert d >= 1 ==> n * d >= n;
    assert d <= -1 ==> n * d + n <= 0;
  }

  lemma ModAdd(k: nat, d: nat, n: nat)
    requires n > 0
    ensures (k % n + d) % n == (k + d) % n
  {
    var a := k % n + d;
    assert k + d == n * (k / n + a / n) + a % n;
    DivMod(k + d, n, k / n + a / n, a % n);
  }

  lemma ModNext(k: nat, n: nat)
    requires n > 0
    ensures (k % n + 1) % n == (k + 1) % n
  {
    ModAdd(k, 1, n);
  }

  /** Jumping ahead by a distance, or by the distance modulo the ring, ends in the same slot. */
  lemma ModJump(k: nat, d: nat, n: nat)
    requires n > 0
    ensures (k % n + d % n) % n == (k + d) % n
  {
    ModAdd(k, d % n, n);
    ModAdd(d, k, n);
  }

  /** Numbers less than a ring apart are in different slots. */
  lemma ModApart(j: nat, k: nat, n: nat)
    requires 0 < n && j < k < j + n
    ensures j % n != k % n
  {
    var q := k / n - j / n;
    assert k - j == n * q + (k % n - j % n);
    assert q >= 1 ==> n * q >= n;
    assert q <= 0 ==> n * q <= 0;
  }

  lemma ModWrap(k: nat, n: nat)
    requires n > 0
    ensures (k + n) % n == k % n
  {
    DivMod(k + n, n, k / n + 1, k % n);
  }

  lemma ModSmall(k: nat, n: nat)
    requires k < n
    ensures k % n == k
  {
  }
}
