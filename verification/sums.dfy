/** Finite sums of reals indexed by 0 .. n-1, with the algebra the score
    formulas need: extensionality, linearity, sign, and exchange of the order
    of a double sum. */
module Sums {

  /** f(0) + f(1) + ... + f(n-1). */
  function Sum(n: nat, f: nat -> real): real
  {
    if n == 0 then 0.0 else Sum(n - 1, f) + f(n - 1)
  }

  lemma {:induction false} SumExt(n: nat, f: nat -> real, g: nat -> real)
    requires forall i :: 0 <= i < n ==> f(i) == g(i)
    ensures Sum(n, f) == Sum(n, g)
  {
    if n > 0 {
      SumExt(n - 1, f, g);
    }
  }

  lemma {:induction false} SumAdd(n: nat, f: nat -> real, g: nat -> real, h: nat -> real)
    requires forall i :: 0 <= i < n ==> h(i) == f(i) + g(i)
    ensures Sum(n, h) == Sum(n, f) + Sum(n, g)
  {
    if n > 0 {
      SumAdd(n - 1, f, g, h);
    }
  }

  /** A constant factor moves out of a sum. */
  lemma {:induction false} SumScale(n: nat, c: real, f: nat -> real, g: nat -> real)
    requires forall i :: 0 <= i < n ==> g(i) == c * f(i)
    ensures Sum(n, g) == c * Sum(n, f)
  {
    if n > 0 {
      SumScale(n - 1, c, f, g);
    }
  }

  lemma {:induction false} SumNonNegative(n: nat, f: nat -> real)
    requires forall i :: 0 <= i < n ==> f(i) >= 0.0
    ensures Sum(n, f) >= 0.0
  {
    if n > 0 {
      SumNonNegative(n - 1, f);
    }
  }

  lemma {:induction false} SumOfZeros(n: nat, f: nat -> real)
    requires forall i :: 0 <= i < n ==> f(i) == 0.0
    ensures Sum(n, f) == 0.0
  {
    if n > 0 {
      SumOfZeros(n - 1, f);
    }
  }

  /** Exchange of summation order:
      sum over i < m of (sum over j < n of f(i, j)) equals
      sum over j < n of (sum over i < m of f(i, j)).
      `rows` and `cols` are the inner sums, named by the caller. */
  lemma {:induction false} SumSwap(m: nat, n: nat, f: (nat, nat) -> real, rows: nat -> real, cols: nat -> real)
    requires forall i: nat :: i < m ==> rows(i) == Sum(n, (j: nat) => f(i, j))
    requires forall j: nat :: j < n ==> cols(j) == Sum(m, (i: nat) => f(i, j))
    ensures Sum(m, rows) == Sum(n, cols)
  {
    if m == 0 {
      SumOfZeros(n, cols);
    } else {
      var shorter := (j: nat) => Sum(m - 1, (i: nat) => f(i, j));
      var last := (j: nat) => f(m - 1, j);
      SumSwap(m - 1, n, f, rows, shorter);
      forall j | 0 <= j < n ensures cols(j) == shorter(j) + last(j) {
      }
      SumAdd(n, shorter, last, cols);
    }
  }
}
