/** Quotients, remainders and the bitwise masks built from them. */
module Arithmetic {

  lemma QuotRem(z: int, k: int, q: int, r: int)
    requires k > 0 && z == k * q + r && 0 <= r < k
    ensures z / k == q && z % k == r
  {
    Unique(k, q, r, z / k, z % k);
  }

  lemma Unique(k: int, q: int, r: int, q': int, r': int)
    requires k > 0 && 0 <= r < k && 0 <= r' < k && k * q + r == k * q' + r'
    ensures q == q' && r == r'
  {
    if q < q' { Gap(k, q, q'); } else if q' < q { Gap(k, q', q); }
  }

  lemma {:induction false} Gap(k: int, q: int, q': int)
    requires k > 0 && q < q'
    ensures k * q + k <= k * q'
    decreases q' - q
  {
    assert k * q' == k * (q' - 1) + k;
    if q < q' - 1 { Gap(k, q, q' - 1); }
  }

  /** A multiple of k does not change the remainder. */
  lemma ModAddMultiple(k: int, z: int, r: int)
    requires k > 0
    ensures (k * z + r) % k == r % k
  {
    assert k * (z + r / k) == k * z + k * (r / k);
    QuotRem(k * z + r, k, z + r / k, r % k);
  }

  /** Reducing first by a multiple of k does not change the remainder by k. */
  lemma ModMod(x: int, k: int, q: int)
    requires k > 0 && q > 0
    ensures k * q > 0 && x % (k * q) % k == x % k
  {
    Gap(k, 0, q);
    var m := k * q;
    var d, r := x / m, x % m;
    assert x == m * d + r;
    assert m * d == k * (q * d);
    ModAddMultiple(k, q * d, r);
  }

  /** Two numbers closer than k have different remainders. */
  lemma ModDistinct(a: int, b: int, k: int)
    requires k > 0 && 0 < b - a < k
    ensures a % k != b % k
  {
    if a % k == b % k {
      var qa, qb := a / k, b / k;
      assert a == k * qa + a % k && b == k * qb + b % k;
      if qa < qb { Gap(k, qa, qb); } else if qb < qa { Gap(k, qb, qa); }
    }
  }

  function Pow2(n: nat): (p: nat)
    ensures p > 0
  {
    if n == 0 then 1 else 2 * Pow2(n - 1)
  }

  lemma {:induction false} Pow2Add(a: nat, b: nat)
    ensures Pow2(a + b) == Pow2(a) * Pow2(b)
  {
    if a > 0 { Pow2Add(a - 1, b); }
  }

  lemma {:induction false} Pow2Monotone(a: nat, b: nat)
    requires a <= b
    ensures Pow2(a) <= Pow2(b)
  {
    if a < b { Pow2Monotone(a, b - 1); }
  }

  /** Bitwise and of two natural numbers. */
  function And(x: nat, y: nat): nat {
    if x == 0 || y == 0 then 0 else 2 * And(x / 2, y / 2) + (x % 2) * (y % 2)
  }

  lemma ModDouble(x: nat, m: nat)
    requires m > 0
    ensures x % (2 * m) == 2 * (x / 2 % m) + x % 2
  {
    var h := x / 2;
    var q, r := h / m, h % m;
    assert h == m * q + r;
    assert (2 * m) * q == 2 * (m * q);
    QuotRem(x, 2 * m, q, 2 * r + x % 2);
  }

  lemma AndOdd(x: nat, m: nat)
    requires m > 0
    ensures And(x, 2 * m - 1) == 2 * And(x / 2, m - 1) + x % 2
  {
    assert (2 * m - 1) / 2 == m - 1 && (2 * m - 1) % 2 == 1;
  }

  /** Masking with 2^n - 1 is reducing by 2^n. */
  lemma {:induction false} AndMask(x: nat, n: nat)
    ensures And(x, Pow2(n) - 1) == x % Pow2(n)
  {
    if n > 0 {
      AndMask(x / 2, n - 1);
      AndOdd(x, Pow2(n - 1));
      ModDouble(x, Pow2(n - 1));
    }
  }
}
