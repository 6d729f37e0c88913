/** Finite sums over an index range `0 .. n-1`, the only kind of summation the tensor algebra needs. */
module Sums {

  /** f(0) + f(1) + ... + f(n - 1). */
  function Sum(n: nat, f: int -> real): real
    decreases n
  {
    if n == 0 then 0.0 else Sum(n - 1, f) + f(n - 1)
  }

  /** A sum only looks at the summand on the summed range. */
  lemma {:induction false} SumCongruence(n: nat, f: int -> real, g: int -> real)
    requires forall i :: 0 <= i < n ==> f(i) == g(i)
    ensures Sum(n, f) == Sum(n, g)
  {
    if n > 0 {
      SumCongruence(n - 1, f, g);
    }
  }

  /** Sums are linear in the summand. */
  lemma {:induction false} SumLinear(n: nat, a: real, f: int -> real, b: real, g: int -> real, h: int -> real)
    requires forall i :: 0 <= i < n ==> h(i) == a * f(i) + b * g(i)
    ensures Sum(n, h) == a * Sum(n, f) + b * Sum(n, g)
  {
    if n > 0 {
      SumLinear(n - 1, a, f, b, g, h);
      calc {
        Sum(n, h);
        Sum(n - 1, h) + h(n - 1);
        a * Sum(n - 1, f) + b * Sum(n - 1, g) + (a * f(n - 1) + b * g(n - 1));
        a * (Sum(n - 1, f) + f(n - 1)) + b * (Sum(n - 1, g) + g(n - 1));
      }
    }
  }

  /** A summand that vanishes everywhere except at `j` sums to its value there. */
  lemma {:induction false} SumSingle(n: nat, j: int, v: real, f: int -> real)
    requires forall i :: 0 <= i < n ==> f(i) == (if i == j then v else 0.0)
    ensures Sum(n, f) == (if 0 <= j < n then v else 0.0)
  {
    if n > 0 {
      SumSingle(n - 1, j, v, f);
    }
  }

  /** A summand that vanishes on the whole range sums to zero. */
  lemma {:induction false} SumZero(n: nat, f: int -> real)
    requires forall i :: 0 <= i < n ==> f(i) == 0.0
    ensures Sum(n, f) == 0.0
  {
    if n > 0 {
      SumZero(n - 1, f);
    }
  }

  /** Σ_l F(i, l), the i-th row sum of a double sum. */
  function RowSum(F: (int, int) -> real, m: nat, i: int): real {
    Sum(m, l => F(i, l))
  }

  /** Σ_i F(i, l), the l-th column sum of a double sum. */
  function ColumnSum(F: (int, int) -> real, n: nat, l: int): real {
    Sum(n, i => F(i, l))
  }

  /** The order of a double sum does not matter. */
  lemma {:induction false} SumSwap(n: nat, m: nat, F: (int, int) -> real)
    ensures Sum(n, i => RowSum(F, m, i)) == Sum(m, l => ColumnSum(F, n, l))
  {
    if n > 0 {
      var k := n - 1;
      SumSwap(k, m, F);
      forall l | 0 <= l < m
        ensures ColumnSum(F, n, l) == 1.0 * ColumnSum(F, k, l) + 1.0 * F(k, l)
      {
      }
      SumLinear(m, 1.0, l => ColumnSum(F, k, l), 1.0, l => F(k, l), l => ColumnSum(F, n, l));
    } else {
      SumZero(m, l => ColumnSum(F, n, l));
    }
  }

  /** Unfolding for the two-dimensional case. */
  lemma SumTwo(f: int -> real)
    ensures Sum(2, f) == f(0) + f(1)
  {
  }
}
