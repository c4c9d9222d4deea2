/** Unsigned 64-bit arithmetic: every operation is reduced modulo 2^64. */
module Wrapping {

  /** Quotient and remainder are unique. */
  lemma ModUnique(x: int, q: int, r: int, m: int)
    requires 0 < m && 0 <= r < m && x == q * m + r
    ensures x % m == r
  {
    assert x == m * (x / m) + x % m;
    var d := q - x / m;
    assert d * m == x % m - r;
    MultipleSize(d, m);
  }

  lemma MultipleSize(d: int, m: int)
    requires 0 < m
    ensures d >= 1 ==> d * m >= m
    ensures d <= -1 ==> d * m <= -m
  {
  }

  lemma ModShift(x: int, k: int, m: int)
    requires 0 < m
    ensures (x + k * m) % m == x % m
  {
    assert (x / m + k) * m == (x / m) * m + k * m;
    ModUnique(x + k * m, x / m + k, x % m, m);
  }

  lemma ModTimes(a: int, b: int, m: int)
    requires 0 < m
    ensures ((a % m) * b) % m == (a * b) % m
  {
    var q := a / m;
    assert a == q * m + a % m;
    assert a * b == (a % m) * b + (q * b) * m by {
      assert (q * m) * b == (q * b) * m;
      assert (q * m + a % m) * b == (q * m) * b + (a % m) * b;
    }
    ModShift((a % m) * b, q * b, m);
  }

  lemma ModPlus(a: int, b: int, m: int)
    requires 0 < m
    ensures (a % m + b) % m == (a + b) % m
  {
    ModShift(a % m + b, a / m, m);
  }

  /** A sum of two products may be reduced before, in between and after. */
  lemma ModDot(a: int, b: int, c: int, d: int, m: int)
    requires 0 < m
    ensures ((((a % m) * (b % m)) % m) + (((c % m) * (d % m)) % m)) % m == (a * b + c * d) % m
  {
    ModTimes(a, b % m, m);
    ModTimes(b, a, m);
    ModTimes(c, d % m, m);
    ModTimes(d, c, m);
    ModPlus(a * b, (c * d) % m, m);
    ModPlus(c * d, a * b, m);
  }
}
