/** Remainders of sums, for variable divisors. */
module Modulo {

  lemma ProductAtLeast(a: int, k: int)
    requires a > 0 && k >= 1
    ensures a * k >= a
  {
    assert a * k == a + a * (k - 1);
  }

  /** A product smaller than one of its factors is zero. */
  lemma SmallProduct(a: int, k: int)
    requires a > 0 && -a < a * k < a
    ensures k == 0
  {
    if k >= 1 { ProductAtLeast(a, k); }
    if k <= -1 { ProductAtLeast(a, -k); }
  }

  /** The quotient and remainder are determined by their equation. */
  lemma RemainderIs(x: int, a: int, q: int, r: int)
    requires a > 0 && 0 <= r < a && x == a * q + r
    ensures x / a == q && x % a == r
  {
    var p, m := x / a, x % a;
    assert x == a * p + m;
    assert a * (p - q) == r - m;
    SmallProduct(a, p - q);
  }

  /** A multiple plus a small offset leaves the offset. */
  lemma OffsetFromMultiple(x: int, d: int, a: int)
    requires a > 0 && x % a == 0 && 0 <= d < a
    ensures (x + d) % a == d
  {
    assert x == a * (x / a);
    RemainderIs(x + d, a, x / a, d);
  }

  lemma NextMultiple(x: int, a: int)
    requires a > 0 && x % a == 0
    ensures (x + a) % a == 0
  {
    var q := x / a;
    assert x == a * q;
    assert x + a == a * (q + 1) by { assert a * (q + 1) == a * q + a; }
    RemainderIs(x + a, a, q + 1, 0);
  }

  lemma PreviousMultiple(x: int, a: int)
    requires a > 0 && x % a == 0
    ensures (x - a) % a == 0
  {
    var q := x / a;
    assert x == a * q;
    assert x - a == a * (q - 1) by { assert a * (q - 1) == a * q - a; }
    RemainderIs(x - a, a, q - 1, 0);
  }

  /** A remainder can be taken by a divisor of the modulus. */
  lemma RemainderOfRemainder(x: nat, n: int, m: int)
    requires n > 0 && m > 0 && n % m == 0
    ensures (x % n) % m == x % m
  {
    var q, r, k := x / n, x % n, n / m;
    assert x == n * q + r && n == m * k;
    var s, t := r / m, r % m;
    assert r == m * s + t;
    assert x == m * (k * q + s) + t by {
      assert m * (k * q + s) == m * (k * q) + m * s;
      assert m * (k * q) == (m * k) * q;
    }
    RemainderIs(x, m, k * q + s, t);
  }
}
