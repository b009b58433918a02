/** Finite sums, the meaning of the SQL SUM queries and of "the sum over sessions". */
module Sums {

  function Sum(f: nat -> int, n: nat): int {
    if n == 0 then 0 else Sum(f, n - 1) + f(n - 1)
  }

  lemma {:induction false} SumAgree(f: nat -> int, g: nat -> int, n: nat)
    requires forall i | 0 <= i < n :: f(i) == g(i)
    ensures Sum(f, n) == Sum(g, n)
  {
    if n > 0 {
      SumAgree(f, g, n - 1);
    }
  }

  lemma {:induction false} SumChange(f: nat -> int, g: nat -> int, n: nat, k: nat)
    requires k < n
    requires forall i | 0 <= i < n :: i != k ==> f(i) == g(i)
    ensures Sum(g, n) == Sum(f, n) + g(k) - f(k)
  {
    if k == n - 1 {
      SumAgree(f, g, n - 1);
    } else {
      SumChange(f, g, n - 1, k);
    }
  }

  lemma {:induction false} SumZero(f: nat -> int, n: nat)
    requires forall i | 0 <= i < n :: f(i) == 0
    ensures Sum(f, n) == 0
  {
    if n > 0 {
      SumZero(f, n - 1);
    }
  }

  lemma {:induction false} SumNonNegative(f: nat -> int, n: nat)
    requires forall i | 0 <= i < n :: f(i) >= 0
    ensures Sum(f, n) >= 0
  {
    if n > 0 {
      SumNonNegative(f, n - 1);
    }
  }

  lemma {:induction false} SumAtMost(f: nat -> int, g: nat -> int, n: nat)
    requires forall i | 0 <= i < n :: f(i) <= g(i)
    ensures Sum(f, n) <= Sum(g, n)
  {
    if n > 0 {
      SumAtMost(f, g, n - 1);
    }
  }

  /** Adding more non-positive terms can only lower a sum. */
  lemma {:induction false} SumFalls(f: nat -> int, m: nat, n: nat)
    requires m <= n
    requires forall i | m <= i < n :: f(i) <= 0
    ensures Sum(f, n) <= Sum(f, m)
  {
    if m < n {
      SumFalls(f, m, n - 1);
    }
  }
}
