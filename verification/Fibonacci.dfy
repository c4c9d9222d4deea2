/** The Fibonacci numbers of os_hw3: matrix squaring in 64-bit unsigned arithmetic. */
module Fibonacci {
  import opened Wrapping

  /** Fibonacci numbers counted from F(0) = F(1) = 1. */
  function Fib(n: nat): nat {
    if n < 2 then 1 else Fib(n - 1) + Fib(n - 2)
  }

  /** The number before F(n), and zero before the first. */
  function Before(n: nat): nat {
    if n == 0 then 0 else Fib(n - 1)
  }

  /** The number two before F(n), continued to the left. */
  function Early(n: nat): nat {
    if n == 0 then 1 else if n == 1 then 0 else Fib(n - 2)
  }

  datatype Matrix = Matrix(a: int, b: int, c: int, d: int)

  /** The n-th power of the matrix (0 1; 1 1). */
  function Power(n: nat): Matrix {
    Matrix(Early(n), Before(n), Before(n), Fib(n))
  }

  function Mul(x: Matrix, y: Matrix): Matrix {
    Matrix(x.a * y.a + x.b * y.c, x.a * y.b + x.b * y.d, x.c * y.a + x.d * y.c, x.c * y.b + x.d * y.d)
  }

  /** Reduction to an unsigned type with `m` values. */
  function Wrap(x: int, m: int): int
    requires m > 0
  {
    x % m
  }

  function WrapAll(x: Matrix, m: int): Matrix
    requires m > 0
  {
    Matrix(Wrap(x.a, m), Wrap(x.b, m), Wrap(x.c, m), Wrap(x.d, m))
  }

  /** One entry of a product of matrices of unsigned numbers: every product and the sum wrap. */
  function WrapDot(a: int, b: int, c: int, d: int, m: int): int
    requires m > 0
  {
    Wrap(Wrap(a * b, m) + Wrap(c * d, m), m)
  }

  function WrapMul(x: Matrix, y: Matrix, m: int): Matrix
    requires m > 0
  {
    Matrix(WrapDot(x.a, y.a, x.b, y.c, m), WrapDot(x.a, y.b, x.b, y.d, m),
           WrapDot(x.c, y.a, x.d, y.c, m), WrapDot(x.c, y.b, x.d, y.d, m))
  }

  predicate Natural(x: Matrix) {
    0 <= x.a && 0 <= x.b && 0 <= x.c && 0 <= x.d
  }

  /** No entry exceeds `bound`. */
  predicate Within(x: Matrix, bound: int) {
    x.a <= bound && x.b <= bound && x.c <= bound && x.d <= bound
  }

  // --- powers ---------------------------------------------------------------------------------

  lemma Distribute(x: int, y: int, z: int)
    ensures (x + y) * z == x * z + y * z
    ensures z * (x - y) == z * x - z * y
  {
  }

  /** The addition formulas. */
  lemma {:induction false} FibPlus(m: nat, n: nat)
    ensures Fib(m + n) == Fib(m) * Fib(n) + Before(m) * Before(n)
    ensures Before(m + n) == Fib(m) * Before(n) + Before(m) * Fib(n) - Before(m) * Before(n)
  {
    if m == 0 {
      assert 1 * Fib(n) == Fib(n) && 1 * Before(n) == Before(n);
    } else {
      FibPlus(m - 1, n);
      Distribute(Fib(m - 1), Before(m - 1), Fib(n));
      Distribute(Fib(m - 1), Before(m - 1), Before(n));
      assert Fib(m) == Fib(m - 1) + Before(m - 1);
      assert Fib(m + n) == Fib(m - 1 + n) + Before(m - 1 + n);
    }
  }

  lemma MulForm(w: int, x: int, y: int, z: int, u: int, v: int, e: int, f: int, b: int)
    requires w == x - y && z == u - v && e == f - b
    requires f == x * u + y * v && b == x * v + y * u - y * v
    ensures Mul(Matrix(w, y, y, x), Matrix(z, v, v, u)) == Matrix(e, b, b, f)
  {
    assert w * z == x * u - x * v - y * u + y * v;
    assert w * v == x * v - y * v;
    assert y * z == y * u - y * v;
  }

  /** Powers multiply by adding their exponents. */
  lemma PowerPlus(m: nat, n: nat)
    ensures Mul(Power(m), Power(n)) == Power(m + n)
  {
    EarlyIsDifference(m);
    EarlyIsDifference(n);
    EarlyIsDifference(m + n);
    FibPlus(m, n);
    MulForm(Early(m), Fib(m), Before(m), Early(n), Fib(n), Before(n), Early(m + n), Fib(m + n), Before(m + n));
  }

  lemma EarlyIsDifference(n: nat)
    ensures Early(n) == Fib(n) - Before(n)
  {
  }

  lemma {:induction false} FibGrows(m: nat, n: nat)
    requires m <= n
    ensures 1 <= Fib(m) <= Fib(n) && Before(n) <= Fib(n)
    decreases n
  {
    if m < n {
      FibGrows(m, n - 1);
      if n > 1 {
        FibGrows(n - 2, n - 1);
      }
    } else if n > 0 {
      FibGrows(n - 1, n - 1);
      if n > 1 {
        FibGrows(n - 2, n - 1);
      }
    }
  }

  /** No power up to the n-th has an entry above F(n). */
  lemma PowerWithin(m: nat, n: nat)
    requires m <= n
    ensures Natural(Power(m)) && Within(Power(m), Fib(n))
  {
    FibGrows(m, n);
    FibGrows(m, m);
    if m >= 2 {
      FibGrows(m - 2, m - 1);
    }
  }

  // --- wrapping -------------------------------------------------------------------------------

  lemma WrapMulWrapped(x: Matrix, y: Matrix, m: int)
    requires m > 0
    ensures WrapMul(WrapAll(x, m), WrapAll(y, m), m) == WrapAll(Mul(x, y), m)
  {
    ModDot(x.a, y.a, x.b, y.c, m);
    ModDot(x.a, y.b, x.b, y.d, m);
    ModDot(x.c, y.a, x.d, y.c, m);
    ModDot(x.c, y.b, x.d, y.d, m);
  }

  lemma WrapSmall(x: int, m: int)
    requires 0 <= x < m
    ensures Wrap(x, m) == x
  {
    ModUnique(x, 0, x, m);
  }

  /** As long as F(top) fits, the powers up to `top` do not wrap. */
  lemma SmallPower(k: nat, top: nat, m: int)
    requires k <= top && Fib(top) < m
    ensures WrapAll(Power(k), m) == Power(k) && Within(Power(k), m - 1)
  {
    PowerWithin(k, top);
    WrapSmall(Early(k), m);
    WrapSmall(Before(k), m);
    WrapSmall(Fib(k), m);
  }

  /** No product and no sum of a multiplication of unsigned matrices wraps: their entries are no
      negative numbers, so no part of a sum exceeds it. */
  predicate Exact(x: Matrix, y: Matrix, m: int) {
    Within(Mul(x, y), m - 1)
  }

  lemma ExactDot(a: nat, b: nat, c: nat, d: nat, m: int)
    requires a * b + c * d < m
    ensures Wrap(a * b, m) == a * b && Wrap(c * d, m) == c * d && WrapDot(a, b, c, d, m) == a * b + c * d
  {
    assert 0 <= a * b && 0 <= c * d;
    WrapSmall(a * b, m);
    WrapSmall(c * d, m);
    WrapSmall(a * b + c * d, m);
  }

  /** An exact multiplication is the integer one. */
  lemma ExactMultiplication(x: Matrix, y: Matrix, m: int)
    requires Natural(x) && Natural(y) && m > 0 && Exact(x, y, m)
    ensures WrapMul(x, y, m) == Mul(x, y)
  {
    ExactDot(x.a, y.a, x.b, y.c, m);
    ExactDot(x.a, y.b, x.b, y.d, m);
    ExactDot(x.c, y.a, x.d, y.c, m);
    ExactDot(x.c, y.b, x.d, y.d, m);
  }

  lemma WrapMulPower(x: Matrix, y: Matrix, k: nat, n: nat, m: int)
    requires m > 0 && x == WrapAll(Power(k), m) && y == WrapAll(Power(n), m)
    ensures WrapMul(x, y, m) == WrapAll(Power(k + n), m)
  {
    WrapMulWrapped(Power(k), Power(n), m);
    PowerPlus(k, n);
  }

  lemma ExactPower(k: nat, n: nat, top: nat, m: int)
    requires k + n <= top && Fib(top) < m
    ensures Exact(Power(k), Power(n), m)
  {
    PowerPlus(k, n);
    SmallPower(k + n, top, m);
    WithinEqual(Mul(Power(k), Power(n)), Power(k + n), m - 1);
  }

  lemma WithinEqual(x: Matrix, y: Matrix, bound: int)
    requires x == y && Within(y, bound)
    ensures Within(x, bound)
  {
  }

  /** In the calculation of F(top), a multiplication is exact if F(top) fits. */
  lemma ExactUpTo(x: Matrix, y: Matrix, k: nat, n: nat, top: nat, m: int)
    requires m > 0 && x == WrapAll(Power(k), m) && y == WrapAll(Power(n), m) && k + n <= top
    ensures Fib(top) < m ==> Exact(x, y, m)
  {
    if Fib(top) < m {
      SmallPower(k, top, m);
      SmallPower(n, top, m);
      ExactPower(k, n, top, m);
    }
  }

  /** Multiplying in unsigned arithmetic. Unless `mayWrap`, callers must show that nothing wraps. */
  method Multiply(x: Matrix, y: Matrix, m: int, ghost mayWrap: bool, ghost k: nat, ghost n: nat) returns (r: Matrix)
    requires m > 0 && x == WrapAll(Power(k), m) && y == WrapAll(Power(n), m)
    requires !mayWrap ==> Exact(x, y, m)
    ensures r == WrapAll(Power(k + n), m)
  {
    r := WrapMul(x, y, m);
    WrapMulPower(x, y, k, n, m);
  }

  lemma WrapSum(a: int, c: int, f: int, m: int)
    requires m > 0 && a + c == f
    ensures Wrap(Wrap(a, m) + Wrap(c, m), m) == Wrap(f, m)
  {
    ModPlus(a, Wrap(c, m), m);
    ModPlus(c, a, m);
  }

  /** The sum of the first column of a power is a Fibonacci number. */
  lemma ColumnSum(n: nat, m: int)
    requires m > 0
    ensures Wrap(Wrap(Early(n), m) + Wrap(Before(n), m), m) == Wrap(Fib(n), m)
    ensures Fib(n) < m ==> Wrap(Early(n), m) + Wrap(Before(n), m) == Fib(n)
  {
    EarlyIsDifference(n);
    WrapSum(Early(n), Before(n), Fib(n), m);
    if Fib(n) < m {
      WrapSmall(Early(n), m);
      WrapSmall(Before(n), m);
    }
  }

  /** What the calculation returns: the sum of the first column, which does not wrap if F(n) fits. */
  method FirstColumn(fib: Matrix, n: nat, m: int) returns (sum: int)
    requires m > 0 && fib == WrapAll(Power(n), m)
    ensures sum == Wrap(Fib(n), m)
    ensures Fib(n) < m ==> sum == fib.a + fib.c == Fib(n)
  {
    ghost var a, c := Wrap(Early(n), m), Wrap(Before(n), m);
    assert fib.a == a && fib.c == c;
    ColumnSum(n, m);
    sum := Wrap(fib.a + fib.c, m);
    if Fib(n) < m {
      WrapSmall(Fib(n), m);
    }
  }

  /** The matrices the calculation starts with. */
  lemma FirstPowers(m: int)
    requires m > 1
    ensures Matrix(1, 0, 0, 1) == WrapAll(Power(0), m) && Matrix(0, 1, 1, 1) == WrapAll(Power(1), m)
  {
    WrapSmall(0, m);
    WrapSmall(1, m);
  }

  /** `step * rest`, adding up `step` doubled once for each bit of `rest`. */
  function Times(step: nat, rest: nat): nat
    decreases rest
  {
    if rest == 0 then 0 else (if rest % 2 != 0 then step else 0) + Times(step + step, rest / 2)
  }

  lemma {:induction false} TimesIsProduct(step: nat, rest: nat)
    ensures Times(step, rest) == step * rest
    decreases rest
  {
    if rest > 0 {
      TimesIsProduct(step + step, rest / 2);
      DoubleHalf(step, rest / 2, rest % 2, rest);
    }
  }

  lemma DoubleHalf(step: nat, half: nat, bit: nat, rest: nat)
    requires rest == half + half + bit && bit <= 1
    ensures step * rest == (step + step) * half + (if bit != 0 then step else 0)
  {
    Distribute(half + half, bit, step);
    Distribute(half, half, step);
    Distribute(step, step, half);
  }

  lemma {:induction false} TimesAtLeast(step: nat, rest: nat)
    ensures rest > 0 ==> step <= Times(step, rest)
    decreases rest
  {
    if rest > 1 {
      TimesAtLeast(step + step, rest / 2);
    }
  }

  /** The loop of `calculate_fibonacci_num`, for an unsigned type with `m` values. Only when F(n)
      does not fit may any multiplication wrap. */
  method SquareAndMultiply(n: nat, m: int) returns (sum: int)
    requires m > 1
    ensures sum == Wrap(Fib(n), m)
    ensures Fib(n) < m ==> sum == Fib(n)
  {
    var pow := Matrix(0, 1, 1, 1);
    var fib := Matrix(1, 0, 0, 1);
    var rest := n;
    ghost var mayWrap := Fib(n) >= m;
    ghost var done, step := 0, 1;
    TimesIsProduct(1, n);
    FirstPowers(m);
    while true
      invariant step > 0 && n == done + Times(step, rest) && (rest == 0 ==> n == 0)
      invariant fib == WrapAll(Power(done), m) && pow == WrapAll(Power(step), m)
      decreases rest
    {
      TimesAtLeast(step, rest);
      if rest % 2 != 0 {
        ExactUpTo(fib, pow, done, step, n, m);
        fib := Multiply(fib, pow, m, mayWrap, done, step);
        done := done + step;
      }
      rest := rest / 2;
      if rest == 0 {
        break;
      }
      TimesAtLeast(step + step, rest);
      ExactUpTo(pow, pow, step, step, n, m);
      pow := Multiply(pow, pow, m, mayWrap, step, step);
      step := step + step;
    }
    sum := FirstColumn(fib, n, m);
  }

  /** `calculate_fibonacci_num`: F(n) modulo 2^64, and whether F(n) does not fit. */
  method CalculateFibonacciNum(n: nat) returns (fibNum: int, overflow: bool)
    ensures fibNum == Fib(n) % 0x1_0000_0000_0000_0000
    ensures overflow <==> Fib(n) >= 0x1_0000_0000_0000_0000
    ensures !overflow ==> fibNum == Fib(n)
  {
    overflow := n >= 93;
    OverflowFrom93(n);
    fibNum := SquareAndMultiply(n, 0x1_0000_0000_0000_0000);
  }

  lemma SumsOfSquares()
    ensures Fib(92) == 12200160415121876738 && Fib(93) == 19740274219868223167
  {
    assert Fib(22) == 28657 && Fib(23) == 46368;
    FibPlus(22, 23);
    FibPlus(23, 23);
    FibPlus(23, 24);
    assert Fib(45) == 1836311903 && Fib(46) == 2971215073 && Fib(47) == 4807526976;
    FibPlus(46, 46);
    FibPlus(46, 47);
  }

  /** The largest index whose Fibonacci number fits 64 bits is 92. */
  lemma OverflowFrom93(n: nat)
    ensures Fib(n) >= 0x1_0000_0000_0000_0000 <==> n >= 93
  {
    SumsOfSquares();
    if n >= 93 {
      FibGrows(93, n);
    } else {
      FibGrows(n, 92);
    }
  }
}
