/** How versions 2 and 3 of the encoder of ihw4 compare chunk numbers for qsort. */
module Comparer {

  /** Conversion of an integer to a 32-bit signed int. */
  function ToInt32(x: int): int {
    (x + 0x8000_0000) % 0x1_0000_0000 - 0x8000_0000
  }

  /** `results_comparer`: the difference of two size_t values, cut down to int. */
  function Compare(a: nat, b: nat): int {
    ToInt32((a - b) % 0x1_0000_0000_0000_0000)
  }

  /** The comparer orders chunk numbers correctly exactly up to 2^31 chunks. */
  lemma ComparerIsAnOrderIff(count: nat)
    ensures (forall a: nat, b: nat | a < count && b < count :: Compare(a, b) <= 0 <==> a <= b)
            <==> count <= 0x8000_0000
  {
    if count <= 0x8000_0000 {
      forall a: nat, b: nat | a < count && b < count
        ensures Compare(a, b) <= 0 <==> a <= b
      {
        CompareSmall(a, b);
      }
    } else {
      CompareFails();
    }
  }

  /** 2^31 compares as less than 0. */
  lemma CompareFails()
    ensures Compare(0x8000_0000, 0) == -0x8000_0000
  {
  }

  lemma CompareSmall(a: nat, b: nat)
    requires -0x8000_0000 <= a - b < 0x8000_0000
    ensures Compare(a, b) == a - b
  {
    if a >= b {
      assert (a - b) % 0x1_0000_0000_0000_0000 == a - b;
    } else {
      assert (a - b) % 0x1_0000_0000_0000_0000 == a - b + 0x1_0000_0000_0000_0000;
      var d := a - b + 0x8000_0000;
      assert a - b + 0x1_0000_0000_0000_0000 + 0x8000_0000 == d + 0x1_0000_0000 * 0x1_0000_0000;
      assert (d + 0x1_0000_0000 * 0x1_0000_0000) % 0x1_0000_0000 == d;
    }
  }
}
