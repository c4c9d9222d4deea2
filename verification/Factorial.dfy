/** The factorials of the repository: `calculate_factorial` of os_hw3 and `factorial` of os_hw8. */
module Factorial {
  import opened Prelude
  import opened Wrapping

  function Factorial(n: nat): nat {
    if n == 0 then 1 else n * Factorial(n - 1)
  }

  lemma {:induction false} FactorialGrows(k: nat, n: nat)
    requires k <= n
    ensures 1 <= Factorial(k) <= Factorial(n)
  {
    if k < n {
      FactorialGrows(k, n - 1);
      TimesGrows(Factorial(n - 1), n);
    } else if n > 0 {
      FactorialGrows(n - 1, n - 1);
      TimesGrows(Factorial(n - 1), n);
    }
  }

  lemma TimesGrows(a: nat, b: nat)
    requires b > 0
    ensures a <= a * b && a <= b * a
  {
  }

  lemma Commute(a: nat, b: nat)
    ensures a * b == b * a
  {
  }

  lemma SmallMod(a: nat, m: nat)
    requires a < m
    ensures a % m == a
  {
  }

  /** One more factor `i` of a product `a`, reduced modulo `m`. */
  lemma NextProduct(a: nat, i: nat, m: nat)
    requires i > 0 && m > 0
    ensures ((a % m) * i) % m == (i * a) % m
    ensures a < m ==> (a % m) * i == i * a
    ensures a <= i * a
  {
    assert a <= i * a by {
      TimesGrows(a, i);
    }
    assert ((a % m) * i) % m == (i * a) % m by {
      ModTimes(a, i, m);
      Commute(a, i);
    }
    if a < m {
      SmallMod(a, m);
      Commute(a, i);
    }
  }

  /** `calculate_factorial`: n! modulo 2^64, and whether a product on the way overflowed. */
  method CalculateFactorial(n: nat) returns (result: nat, overflow: bool)
    ensures result == Factorial(n) % 0x1_0000_0000_0000_0000
    ensures overflow <==> Factorial(n) >= 0x1_0000_0000_0000_0000
  {
    overflow, result := false, 1;
    assert Factorial(1) == 1;
    var i := 2;
    while i <= n
      invariant 2 <= i && (i <= n + 1 || i == 2)
      invariant result == Factorial(i - 1) % 0x1_0000_0000_0000_0000
      invariant overflow <==> Factorial(i - 1) >= 0x1_0000_0000_0000_0000
      decreases n + 1 - i
    {
      var product := result * i;
      overflow := overflow || product >= 0x1_0000_0000_0000_0000;
      result := product % 0x1_0000_0000_0000_0000;
      NextProduct(Factorial(i - 1), i, 0x1_0000_0000_0000_0000);
      i := i + 1;
    }
    assert n == 0 ==> Factorial(0) == 1;
  }

  /** The flag of `calculate_factorial` is raised from 21 on. */
  lemma OverflowFrom21(n: nat)
    ensures Factorial(n) >= 0x1_0000_0000_0000_0000 <==> n >= 21
  {
    assert Factorial(10) == 3628800;
    assert Factorial(20) == 2432902008176640000;
    assert Factorial(21) == 51090942171709440000;
    if n >= 21 {
      FactorialGrows(21, n);
    } else {
      FactorialGrows(n, 20);
    }
  }

  // --- factors of two -------------------------------------------------------------------------

  lemma {:induction false} Pow2Plus(a: nat, b: nat)
    ensures Pow2(a + b) == Pow2(a) * Pow2(b)
  {
    if a > 0 {
      Pow2Plus(a - 1, b);
      assert Pow2(a + b) == 2 * Pow2(a - 1 + b);
      assert (2 * Pow2(a - 1)) * Pow2(b) == 2 * (Pow2(a - 1) * Pow2(b));
    }
  }

  /** How often two divides `n`. */
  function TwosOf(n: nat): nat {
    if n == 0 || n % 2 == 1 then 0 else 1 + TwosOf(n / 2)
  }

  function OddPartOf(n: nat): nat {
    if n == 0 || n % 2 == 1 then n else OddPartOf(n / 2)
  }

  /** How often two divides n!. */
  function Twos(n: nat): nat {
    if n == 0 then 0 else n / 2 + Twos(n / 2)
  }

  function OddPart(n: nat): nat {
    if n == 0 then 1 else OddPart(n - 1) * OddPartOf(n)
  }

  lemma {:induction false} SplitNumber(n: nat)
    requires n > 0
    ensures n == Pow2(TwosOf(n)) * OddPartOf(n) && OddPartOf(n) % 2 == 1
  {
    if n % 2 == 0 {
      SplitNumber(n / 2);
      var p, o := Pow2(TwosOf(n / 2)), OddPartOf(n / 2);
      assert Pow2(TwosOf(n)) == 2 * p;
      assert (2 * p) * o == 2 * (p * o);
    }
  }

  /** Each factor adds its own twos (Legendre's count, one factor at a time). */
  lemma {:induction false} TwosStep(n: nat)
    requires n > 0
    ensures Twos(n) == Twos(n - 1) + TwosOf(n)
  {
    if n % 2 == 0 {
      TwosStep(n / 2);
      assert (n - 1) / 2 == n / 2 - 1;
    } else {
      assert (n - 1) / 2 == n / 2;
    }
  }

  lemma OddTimesOdd(a: nat, b: nat)
    requires a % 2 == 1 && b % 2 == 1
    ensures (a * b) % 2 == 1
  {
    assert a * b == 2 * ((a / 2) * b) + b;
  }

  /** n! is two to the power `Twos(n)`, times an odd number. */
  lemma {:induction false} FactorialSplits(n: nat)
    ensures Factorial(n) == Pow2(Twos(n)) * OddPart(n)
    ensures OddPart(n) % 2 == 1
  {
    if n > 0 {
      FactorialSplits(n - 1);
      SplitNumber(n);
      TwosStep(n);
      OddTimesOdd(OddPart(n - 1), OddPartOf(n));
      Pow2Plus(Twos(n - 1), TwosOf(n));
      Regroup(Pow2(TwosOf(n)), OddPartOf(n), Pow2(Twos(n - 1)), OddPart(n - 1));
    }
  }

  lemma Regroup(a: nat, b: nat, c: nat, d: nat)
    ensures (a * b) * (c * d) == (c * a) * (d * b)
  {
    assert (a * b) * (c * d) == a * (b * (c * d)) == a * (c * (d * b)) == (a * c) * (d * b);
  }

  lemma Cancel(k: nat, a: int, b: int)
    requires k > 0 && k * a == k * b
    ensures a == b
  {
    assert (a - b) * k == k * a - k * b;
    MultipleSize(a - b, k);
  }

  /** An odd multiple of `a` is no multiple of `a * 2b`. */
  lemma OddMultiple(a: nat, s: nat, b: nat)
    requires a > 0 && b > 0 && s % 2 == 1 && a * (2 * b) > 0
    ensures (a * s) % (a * (2 * b)) != 0
  {
    var q := (a * s) / (a * (2 * b));
    if a * s == (a * (2 * b)) * q {
      assert (a * (2 * b)) * q == a * (2 * (b * q));
      Cancel(a, s, 2 * (b * q));
    }
  }

  lemma MultipleIsZero(m: nat, k: nat, s: nat)
    requires m > 0
    ensures ((m * k) * s) % m == 0
  {
    assert (m * k) * s == (k * s) * m + 0;
    ModUnique((m * k) * s, k * s, 0, m);
  }

  lemma EnoughTwos(n: nat, w: nat)
    requires Twos(n) >= w
    ensures Factorial(n) % Pow2(w) == 0
  {
    FactorialSplits(n);
    Pow2Plus(w, Twos(n) - w);
    MultipleIsZero(Pow2(w), Pow2(Twos(n) - w), OddPart(n));
  }

  /** In arithmetic modulo 2^w, n! is zero exactly when it has at least w factors of two. */
  lemma ZeroIffEnoughTwos(n: nat, w: nat)
    ensures Factorial(n) % Pow2(w) == 0 <==> Twos(n) >= w
  {
    if Twos(n) >= w {
      EnoughTwos(n, w);
    } else {
      FactorialSplits(n);
      Pow2Plus(Twos(n), w - Twos(n));
      OddMultiple(Pow2(Twos(n)), OddPart(n), Pow2(w - Twos(n) - 1));
    }
  }

  lemma {:induction false} TwosGrow(k: nat, n: nat)
    requires k <= n
    ensures Twos(k) <= Twos(n)
    decreases n - k
  {
    if k < n {
      TwosStep(k + 1);
      TwosGrow(k + 1, n);
    }
  }

  lemma Pow64()
    ensures Pow2(64) == 0x1_0000_0000_0000_0000
  {
    assert Pow2(8) == 0x100;
    Pow2Plus(8, 8);
    assert Pow2(16) == 0x1_0000;
    Pow2Plus(16, 16);
    assert Pow2(32) == 0x1_0000_0000;
    Pow2Plus(32, 32);
  }

  lemma TwosOf66()
    ensures Twos(66) == 64 && Twos(65) == 63
  {
    assert Twos(8) == 7 && Twos(16) == 15 && Twos(32) == 31;
  }

  /** The result of `calculate_factorial` is zero from 66 on, and 66! is 2^64 times an odd number. */
  lemma ZeroFrom66(n: nat)
    ensures Factorial(n) % 0x1_0000_0000_0000_0000 == 0 <==> n >= 66
    ensures Factorial(66) == 0x1_0000_0000_0000_0000 * OddPart(66) && OddPart(66) % 2 == 1
  {
    Pow64();
    ZeroIffEnoughTwos(n, 64);
    FactorialSplits(66);
    TwosOf66();
    if n >= 66 {
      TwosGrow(66, n);
    } else {
      TwosGrow(n, 65);
    }
  }

  // --- os_hw8 ---------------------------------------------------------------------------------

  newtype int32 = x: int | -0x8000_0000 <= x < 0x8000_0000

  /** The factorial of a possibly negative number, as an empty product. */
  function Product(n: int): nat {
    if n <= 0 then 1 else Factorial(n)
  }

  /** `factorial`: no product leaves the 32-bit range as long as n! does not. */
  method FactorialOfInt(n: int32) returns (p: int32)
    requires Product(n as int) < 0x8000_0000
    ensures p as int == Product(n as int)
  {
    p := 1;
    if n < 1 {
      return;
    }
    var i: int32 := 1;
    OnlySmallFactorialsFit(n as int);
    while i <= n
      invariant 1 <= i <= n + 1
      invariant p as int == Factorial(i as int - 1)
    {
      FactorialGrows(i as int, n as int);
      assert Factorial(i as int) == i as int * Factorial(i as int - 1);
      p := p * i;
      i := i + 1;
    }
  }

  /** 32 bits hold the factorials up to 12. */
  lemma OnlySmallFactorialsFit(n: int)
    ensures Product(n) < 0x8000_0000 <==> n <= 12
  {
    assert Factorial(12) == 479001600;
    assert Factorial(13) == 6227020800;
    if n >= 13 {
      FactorialGrows(13, n);
    } else if n > 0 {
      FactorialGrows(n, 12);
    }
  }
}
