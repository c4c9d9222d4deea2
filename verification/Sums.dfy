/** Sums of a weight over a sequence: the accounting used by every protocol proof. */
module Sums {

  /** The sum of `f(k, x)` over the elements `x` of `xs`. */
  ghost function Total<K, T>(f: (K, T) -> int, k: K, xs: seq<T>): int
  {
    if xs == [] then 0 else f(k, xs[0]) + Total(f, k, xs[1..])
  }

  lemma {:induction false} TotalConcat<K, T>(f: (K, T) -> int, k: K, xs: seq<T>, ys: seq<T>)
    ensures Total(f, k, xs + ys) == Total(f, k, xs) + Total(f, k, ys)
  {
    if xs == [] {
      assert xs + ys == ys;
    } else {
      assert (xs + ys)[1..] == xs[1..] + ys;
      TotalConcat(f, k, xs[1..], ys);
    }
  }

  lemma TotalAppend<K, T>(f: (K, T) -> int, k: K, xs: seq<T>, x: T)
    ensures Total(f, k, xs + [x]) == Total(f, k, xs) + f(k, x)
  {
    TotalConcat(f, k, xs, [x]);
    assert [x][1..] == [];
  }

  /** Replacing one element changes the sum by the difference of the two weights. */
  lemma {:induction false} TotalUpdate<K, T>(f: (K, T) -> int, k: K, xs: seq<T>, i: nat, x: T)
    requires i < |xs|
    ensures Total(f, k, xs[i := x]) == Total(f, k, xs) - f(k, xs[i]) + f(k, x)
  {
    if i == 0 {
      assert xs[0 := x][1..] == xs[1..];
    } else {
      assert xs[i := x][1..] == xs[1..][i - 1 := x];
      TotalUpdate(f, k, xs[1..], i - 1, x);
    }
  }

  lemma {:induction false} TotalAtLeast<K, T>(f: (K, T) -> int, k: K, xs: seq<T>, lo: int)
    requires forall x | x in xs :: lo <= f(k, x)
    ensures lo * |xs| <= Total(f, k, xs)
  {
    if xs != [] {
      TotalAtLeast(f, k, xs[1..], lo);
    }
  }

  lemma {:induction false} TotalAtMost<K, T>(f: (K, T) -> int, k: K, xs: seq<T>, hi: int)
    requires forall x | x in xs :: f(k, x) <= hi
    ensures Total(f, k, xs) <= hi * |xs|
  {
    if xs != [] {
      TotalAtMost(f, k, xs[1..], hi);
    }
  }

  lemma TotalConstant<K, T>(f: (K, T) -> int, k: K, xs: seq<T>, c: int)
    requires forall x | x in xs :: f(k, x) == c
    ensures Total(f, k, xs) == c * |xs|
  {
    TotalAtLeast(f, k, xs, c);
    TotalAtMost(f, k, xs, c);
  }

  lemma {:induction false} TotalMonotone<K, T>(f: (K, T) -> int, g: (K, T) -> int, k: K, xs: seq<T>)
    requires forall x | x in xs :: f(k, x) <= g(k, x)
    ensures Total(f, k, xs) <= Total(g, k, xs)
  {
    if xs != [] {
      TotalMonotone(f, g, k, xs[1..]);
    }
  }

  /** One term of a sum of non-negative terms is at most the sum. */
  lemma {:induction false} TotalMember<K, T>(f: (K, T) -> int, k: K, xs: seq<T>, i: nat)
    requires i < |xs|
    requires forall x | x in xs :: 0 <= f(k, x)
    ensures 0 <= f(k, xs[i]) <= Total(f, k, xs)
  {
    if i == 0 {
      TotalAtLeast(f, k, xs[1..], 0);
    } else {
      TotalMember(f, k, xs[1..], i - 1);
    }
  }

  /** A positive sum has a positive term. */
  lemma {:induction false} TotalPositive<K, T>(f: (K, T) -> int, k: K, xs: seq<T>) returns (i: nat)
    requires 0 < Total(f, k, xs)
    ensures i < |xs| && 0 < f(k, xs[i])
  {
    if 0 < f(k, xs[0]) {
      i := 0;
    } else {
      i := TotalPositive(f, k, xs[1..]);
      i := i + 1;
    }
  }

  /** If no term exceeds 1 and the sum reaches the length, every term is 1. */
  lemma {:induction false} TotalFull<K, T>(f: (K, T) -> int, k: K, xs: seq<T>, i: nat)
    requires i < |xs| <= Total(f, k, xs)
    requires forall x | x in xs :: f(k, x) <= 1
    ensures f(k, xs[i]) == 1
  {
    if i == 0 {
      TotalAtMost(f, k, xs[1..], 1);
    } else {
      TotalFull(f, k, xs[1..], i - 1);
    }
  }
}
