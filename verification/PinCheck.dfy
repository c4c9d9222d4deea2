/** The parity check of pins in os_ihw2 and os_ihw4. */
module PinCheck {
  import opened Prelude

  /** `__builtin_parity`: the number of one bits, modulo 2. */
  function Parity(x: nat): nat {
    if x == 0 then 0 else (x % 2 + Parity(x / 2)) % 2
  }

  /** Bit `i` of `x` is one. */
  ghost predicate Bit(x: nat, i: nat) {
    (x / Pow2(i)) % 2 == 1
  }

  /** The positions below `n` with a one bit. */
  ghost function OneBits(x: nat, n: nat): set<nat> {
    set i: nat | i < n && Bit(x, i)
  }

  lemma DivTwice(x: nat, p: nat)
    requires p > 0
    ensures x / (2 * p) == x / 2 / p
  {
    var q, r := x / 2 / p, x / 2 % p;
    assert x / 2 == q * p + r;
    assert x == 2 * (q * p + r) + x % 2;
    assert x == (2 * p) * q + (2 * r + x % 2);
    Quotient(x, 2 * p, q, 2 * r + x % 2);
  }

  lemma AtLeastOne(d: int, e: int)
    requires d > 0
    ensures e >= 1 ==> d * e >= d
    ensures e <= -1 ==> d * e <= -d
  {
  }

  lemma Quotient(x: nat, d: nat, q: nat, r: nat)
    requires d > 0 && r < d && x == d * q + r
    ensures x / d == q
  {
    assert d * (x / d - q) == r - x % d by {
      assert d * (x / d - q) == d * (x / d) - d * q;
    }
    AtLeastOne(d, x / d - q);
  }

  lemma TopBit(x: nat, n: nat)
    ensures |OneBits(x, n + 1)| == |OneBits(x, n)| + if Bit(x, n) then 1 else 0
  {
    assert OneBits(x, n + 1) == OneBits(x, n) + if Bit(x, n) then {n} else {};
  }

  /** The bits of `x` are its lowest one and those of its half. */
  lemma {:induction false} LowBit(x: nat, n: nat)
    ensures |OneBits(x, n + 1)| == x % 2 + |OneBits(x / 2, n)|
  {
    TopBit(x, n);
    if n == 0 {
      assert OneBits(x, 0) == {} && OneBits(x / 2, 0) == {};
    } else {
      LowBit(x, n - 1);
      TopBit(x / 2, n - 1);
      DivTwice(x, Pow2(n - 1));
    }
  }

  lemma SumParity(a: nat, b: nat)
    ensures (a + b % 2) % 2 == (a + b) % 2
  {
  }

  /** The parity is that of the number of positions with a one bit. */
  lemma {:induction false} ParityCountsBits(x: nat, n: nat)
    requires x < Pow2(n)
    ensures Parity(x) == |OneBits(x, n)| % 2
  {
    if n == 0 {
      assert OneBits(x, 0) == {};
    } else {
      LowBit(x, n - 1);
      assert x / 2 < Pow2(n - 1);
      ParityCountsBits(x / 2, n - 1);
      SumParity(x % 2, |OneBits(x / 2, n - 1)|);
    }
  }

  lemma Pow32()
    ensures Pow2(32) == 0x1_0000_0000
  {
    assert Pow2(8) == 256;
    assert Pow2(16) == 65536;
    assert Pow2(24) == 0x100_0000;
  }

  /** `check_pin_crookness`: a pin passes when its identifier, as uint32_t, has odd parity. */
  predicate IsStraight(pin: int) {
    Parity(pin % 0x1_0000_0000) == 1
  }

  /** That is, when an odd number of its 32 bits are one. */
  lemma StraightMeansOddBits(pin: int)
    ensures IsStraight(pin) <==> |OneBits(pin % 0x1_0000_0000, 32)| % 2 == 1
  {
    Pow32();
    ParityCountsBits(pin % 0x1_0000_0000, 32);
  }
}
