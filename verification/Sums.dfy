/** Finite sums over row numbers, for counting rows and adding up a column. */
module Sums {

  function Sum(n: nat, f: nat -> int): int {
    if n == 0 then 0 else Sum(n - 1, f) + f(n - 1)
  }

  /** Two columns that agree below `n` add up to the same. */
  lemma {:induction false} SumSame(n: nat, f: nat -> int, g: nat -> int)
    requires forall i: nat | i < n :: f(i) == g(i)
    ensures Sum(n, f) == Sum(n, g)
  {
    if n > 0 { SumSame(n - 1, f, g); }
  }

  /** Changing one row changes the sum by the difference. */
  lemma {:induction false} SumPoint(n: nat, f: nat -> int, g: nat -> int, l: nat)
    requires l < n && forall i: nat | i < n && i != l :: f(i) == g(i)
    ensures Sum(n, g) == Sum(n, f) - f(l) + g(l)
  {
    if l == n - 1 { SumSame(n - 1, f, g); } else { SumPoint(n - 1, f, g, l); }
  }

  lemma {:induction false} SumLeq(n: nat, f: nat -> int, g: nat -> int)
    requires forall i: nat | i < n :: f(i) <= g(i)
    ensures Sum(n, f) <= Sum(n, g)
  {
    if n > 0 { SumLeq(n - 1, f, g); }
  }

  lemma {:induction false} SumAdd(n: nat, f: nat -> int, g: nat -> int, h: nat -> int)
    requires forall i: nat | i < n :: h(i) == f(i) + g(i)
    ensures Sum(n, h) == Sum(n, f) + Sum(n, g)
  {
    if n > 0 { SumAdd(n - 1, f, g, h); }
  }
}
