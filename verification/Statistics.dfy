/**
 The pass@k estimator: its product loop, the binomial ratio the loop computes, and the thing that ratio
 counts, which is the k-element subsets of the attempts that contain a solved one.  Real arithmetic.
 */
module Statistics {
  import opened Wrappers

  /** Pascal's recursion. */
  function Choose(n: nat, k: nat): nat {
    if k == 0 then 1
    else if n == 0 then 0
    else Choose(n - 1, k - 1) + Choose(n - 1, k)
  }

  /** All `k`-element subsets. */
  ghost function KSubsets(s: set<nat>, k: nat): set<set<nat>> {
    set t | t <= s && |t| == k
  }

  /** The chance that `k` of `n` attempts, `c` of them solved, include a solved one. */
  ghost function PassRatio(n: nat, c: nat, k: nat): real
    requires c <= n && Choose(n, k) > 0
  {
    1.0 - Ratio(n, n - c, k)
  }

  /** C(m, k) / C(n, k). */
  ghost function Ratio(n: nat, m: nat, k: nat): real
    requires Choose(n, k) > 0
  {
    Choose(m, k) as real / Choose(n, k) as real
  }

  /** One factor of the product moves the binomial ratio one step. */
  lemma RatioStep(n: nat, m: nat, i: nat)
    requires i < m <= n
    ensures Choose(n, i) > 0 && Choose(n, i + 1) > 0
    ensures Ratio(n, m, i + 1) == Ratio(n, m, i) * ((m - i) as real / (n - i) as real)
  {
    ChoosePositive(n, i);
    ChoosePositive(n, i + 1);
    Absorb(m, i);
    Absorb(n, i);
    IntegerFractionStep(i + 1, Choose(m, i), Choose(n, i), Choose(m, i + 1), Choose(n, i + 1), m - i, n - i);
  }

  lemma CrossMultiply(a: real, b: real, c: real, d: real, j: real)
    requires j > 0.0 && b > 0.0 && d > 0.0 && j * a == c && j * b == d
    ensures a / b == c / d
  {
  }

  lemma IntegerFractionStep(j: int, a: int, b: int, a': int, b': int, p: int, q: int)
    requires j > 0 && b > 0 && b' > 0 && q > 0 && j * a' == p * a && j * b' == q * b
    ensures a' as real / b' as real == (a as real / b as real) * (p as real / q as real)
  {
  }

  lemma {:induction false} ChoosePositive(n: nat, k: nat)
    ensures k <= n ==> Choose(n, k) >= 1
    ensures k > n ==> Choose(n, k) == 0
  {
    if k > 0 && n > 0 {
      ChoosePositive(n - 1, k - 1);
      ChoosePositive(n - 1, k);
    }
  }

  lemma AbsorbArithmetic(m: int, j: int, x: int, y: int, z: int)
    requires j * y == (m - j) * x && (j + 1) * z == (m - 1 - j) * y
    ensures (j + 1) * (y + z) == (m - j) * (x + y)
  {
  }

  /** (j + 1) C(m, j + 1) = (m - j) C(m, j). */
  lemma {:induction false} Absorb(m: nat, j: nat)
    requires j <= m
    ensures (j + 1) * Choose(m, j + 1) == (m - j) * Choose(m, j)
    decreases m
  {
    if m > 0 {
      ChoosePositive(m - 1, j);
      ChoosePositive(m - 1, j + 1);
      if j < m {
        Absorb(m - 1, j);
        if j > 0 {
          Absorb(m - 1, j - 1);
          AbsorbArithmetic(m, j, Choose(m - 1, j - 1), Choose(m - 1, j), Choose(m - 1, j + 1));
        }
      }
    }
  }

  /** The estimator as written; out-of-range inputs throw, and so does a `k` above the number of attempts. */
  method PassAtK(n: int, c: int, k: int) returns (reply: Reply<real>)
    ensures reply.Ok? <==> 0 <= c <= n && 1 <= k <= n
    ensures reply.Ok? ==> Choose(n, k) > 0 && reply.value == PassRatio(n, c, k)
  {
    if n < 0 || c < 0 || c > n || k < 1 {
      return Refused(ConfigInvalid);
    }
    if k > n {
      return Refused(ConfigInvalid);
    }
    RatioEdges(n, n - c, k);
    if c == 0 {
      return Ok(0.0);
    }
    if n - c < k {
      return Ok(1.0);
    }
    var product := Product(n, c, k);
    reply := Ok(1.0 - product);
  }

  method Product(n: nat, c: nat, k: nat) returns (product: real)
    requires k <= n - c
    ensures Choose(n, k) > 0 && product == Ratio(n, n - c, k)
  {
    RatioEdges(n, n - c, 0);
    product := 1.0;
    for i := 0 to k
      invariant Choose(n, i) > 0 && product == Ratio(n, n - c, i)
    {
      RatioStep(n, n - c, i);
      product := product * ((n - c - i) as real / (n - i) as real);
    }
  }

  lemma RatioEdges(n: nat, m: nat, k: nat)
    requires m <= n && k <= n
    ensures Choose(n, k) > 0
    ensures k == 0 || m == n ==> Ratio(n, m, k) == 1.0
    ensures m < k ==> Ratio(n, m, k) == 0.0
  {
    ChoosePositive(n, k);
    ChoosePositive(m, k);
    QuotientOrder(Choose(m, k) as real, Choose(n, k) as real, Choose(n, k) as real);
  }

  /******* What the ratio counts *******/

  ghost function With(a: set<set<nat>>, x: nat): set<set<nat>> {
    set t | t in a :: t + {x}
  }

  lemma {:induction false} InjectiveImage(a: set<set<nat>>, x: nat)
    requires forall t | t in a :: x !in t
    ensures |With(a, x)| == |a|
  {
    if a == {} {
      assert With(a, x) == {};
    } else {
      var t :| t in a;
      var rest := a - {t};
      InjectiveImage(rest, x);
      forall u | u in rest ensures u + {x} != t + {x} {
        assert u == (u + {x}) - {x} && t == (t + {x}) - {x};
      }
      assert With(a, x) == With(rest, x) + {t + {x}} && t + {x} !in With(rest, x);
    }
  }

  lemma DisjointUnion(a: set<set<nat>>, b: set<set<nat>>)
    requires a !! b
    ensures |a + b| == |a| + |b|
  {
  }

  /** A subset either avoids `x` or is `x` and a smaller subset of the others. */
  lemma {:induction false} SubsetsSplit(s: set<nat>, x: nat, k: nat)
    requires x in s && k > 0
    ensures KSubsets(s, k) == KSubsets(s - {x}, k) + With(KSubsets(s - {x}, k - 1), x)
    ensures KSubsets(s - {x}, k) !! With(KSubsets(s - {x}, k - 1), x)
  {
    forall t ensures t in KSubsets(s, k) <==> t in KSubsets(s - {x}, k) + With(KSubsets(s - {x}, k - 1), x) {
      if x in t {
        assert t == (t - {x}) + {x};
      }
    }
  }

  /** Pascal's recursion, for the subsets themselves. */
  lemma CountSplit(s: set<nat>, x: nat, k: nat)
    requires x in s && k > 0
    ensures |KSubsets(s, k)| == |KSubsets(s - {x}, k)| + |KSubsets(s - {x}, k - 1)|
  {
    SubsetsSplit(s, x, k);
    InjectiveImage(KSubsets(s - {x}, k - 1), x);
    DisjointUnion(KSubsets(s - {x}, k), With(KSubsets(s - {x}, k - 1), x));
  }

  lemma NoneOfEmpty(k: nat)
    requires k > 0
    ensures KSubsets({}, k) == {}
  {
  }

  lemma OnlyEmpty(s: set<nat>)
    ensures KSubsets(s, 0) == {{}} && |KSubsets(s, 0)| == 1
  {
  }

  /** There are C(|s|, k) subsets of size k. */
  lemma {:induction false} SubsetsCounted(s: set<nat>, k: nat)
    ensures |KSubsets(s, k)| == Choose(|s|, k)
    decreases |s|
  {
    if k == 0 {
      OnlyEmpty(s);
    } else if s == {} {
      NoneOfEmpty(k);
    } else {
      var x :| x in s;
      SubsetsCounted(s - {x}, k);
      SubsetsCounted(s - {x}, k - 1);
      CountSplit(s, x, k);
    }
  }

  /** The `k`-subsets of the attempts that contain a solved one. */
  ghost function Hits(attempts: set<nat>, solved: set<nat>, k: nat): set<set<nat>> {
    set t | t in KSubsets(attempts, k) && t * solved != {}
  }

  /** A `k`-subset contains a solved attempt or lies among the unsolved ones. */
  lemma HitsAndMisses(attempts: set<nat>, solved: set<nat>, k: nat)
    requires solved <= attempts
    ensures |KSubsets(attempts, k)| == |Hits(attempts, solved, k)| + |KSubsets(attempts - solved, k)|
  {
    var hits, missed := Hits(attempts, solved, k), KSubsets(attempts - solved, k);
    forall t | t in KSubsets(attempts, k) ensures t in hits || t in missed {
      if t * solved == {} {
        forall x | x in t ensures x in attempts - solved { assert x !in t * solved; }
      }
    }
    forall t | t in missed ensures t in KSubsets(attempts, k) && t !in hits {
      forall x ensures x !in t * solved { assert x in t ==> x in attempts - solved; }
    }
    assert KSubsets(attempts, k) == hits + missed && hits !! missed;
    DisjointUnion(hits, missed);
  }

  lemma Complement(b: real, d: real)
    requires d > 0.0
    ensures 1.0 - b / d == (d - b) / d
  {
    var x := b / d;
    assert x * d == b;
    assert (1.0 - x) * d == d - x * d;
    CrossMultiply(1.0 - x, 1.0, d - b, d, d);
  }

  /** pass@k is exactly the fraction of `k`-subsets of the attempts that contain a solved attempt. */
  lemma PassIsFractionOfSubsets(attempts: set<nat>, solved: set<nat>, k: nat)
    requires solved <= attempts && 1 <= k <= |attempts|
    ensures |solved| <= |attempts| && Choose(|attempts|, k) > 0 && |KSubsets(attempts, k)| > 0
    ensures PassRatio(|attempts|, |solved|, k) ==
            |Hits(attempts, solved, k)| as real / |KSubsets(attempts, k)| as real
  {
    assert |attempts - solved| == |attempts| - |solved|;
    ChoosePositive(|attempts|, k);
    SubsetsCounted(attempts, k);
    SubsetsCounted(attempts - solved, k);
    HitsAndMisses(attempts, solved, k);
    Complement(Choose(|attempts| - |solved|, k) as real, Choose(|attempts|, k) as real);
  }

  /******* Its shape *******/

  lemma {:induction false} ChooseMonotone(m: nat, n: nat, k: nat)
    requires m <= n
    ensures Choose(m, k) <= Choose(n, k)
    decreases n
  {
    if m < n && k > 0 { ChooseMonotone(m, n - 1, k); }
  }

  lemma QuotientOrder(a: real, b: real, d: real)
    requires d > 0.0
    ensures a <= b ==> a / d <= b / d
    ensures a / d == 0.0 <==> a == 0.0
    ensures a / d == 1.0 <==> a == d
    ensures a < d ==> a / d < 1.0
  {
  }

  /**
   It lies in [0, 1], is 0 exactly when nothing was solved and 1 exactly when every k-subset must contain
   a solved one.
   */
  lemma PassInUnitInterval(n: nat, c: nat, k: nat)
    requires 0 <= c <= n && 1 <= k <= n
    ensures Choose(n, k) > 0 && 0.0 <= PassRatio(n, c, k) <= 1.0
    ensures PassRatio(n, c, k) == 1.0 <==> n - c < k
    ensures PassRatio(n, c, k) == 0.0 <==> c == 0
  {
    ChoosePositive(n, k);
    ChoosePositive(n - c, k);
    ChooseMonotone(n - c, n, k);
    QuotientOrder(0.0, Choose(n - c, k) as real, Choose(n, k) as real);
    QuotientOrder(Choose(n - c, k) as real, Choose(n, k) as real, Choose(n, k) as real);
    if c > 0 {
      ChooseMonotone(n - c, n - 1, k);
      ChoosePositive(n - 1, k - 1);
    }
  }

  /** More solved attempts never lower it. */
  lemma PassMonotoneInSolved(n: nat, c: nat, d: nat, k: nat)
    requires 0 <= c <= d <= n && 1 <= k <= n
    ensures Choose(n, k) > 0 && PassRatio(n, c, k) <= PassRatio(n, d, k)
  {
    ChoosePositive(n, k);
    ChooseMonotone(n - d, n - c, k);
    QuotientOrder(Choose(n - d, k) as real, Choose(n - c, k) as real, Choose(n, k) as real);
  }

  /** Looking at more attempts never lowers it. */
  lemma {:induction false} PassMonotoneInK(n: nat, c: nat, k: nat, k': nat)
    requires 0 <= c <= n && 1 <= k <= k' <= n
    ensures Choose(n, k) > 0 && Choose(n, k') > 0 && PassRatio(n, c, k) <= PassRatio(n, c, k')
    decreases k' - k
  {
    ChoosePositive(n, k);
    if k < k' {
      OneMoreAttempt(n, c, k);
      PassMonotoneInK(n, c, k + 1, k');
    }
  }

  lemma OneMoreAttempt(n: nat, c: nat, k: nat)
    requires 0 <= c <= n && 1 <= k < n
    ensures Choose(n, k) > 0 && Choose(n, k + 1) > 0 && PassRatio(n, c, k) <= PassRatio(n, c, k + 1)
  {
    ChoosePositive(n, k);
    ChoosePositive(n, k + 1);
    ChoosePositive(n - c, k);
    ChoosePositive(n - c, k + 1);
    if k < n - c {
      Absorb(n - c, k);
      Absorb(n, k);
      QuotientFalls(k + 1, Choose(n - c, k), Choose(n, k), Choose(n - c, k + 1), Choose(n, k + 1), n - c - k, n - k);
    } else {
      QuotientSign(Choose(n - c, k) as real, Choose(n, k) as real);
      QuotientSign(0.0, Choose(n, k + 1) as real);
    }
  }

  lemma QuotientSign(a: real, d: real)
    requires d > 0.0 && a >= 0.0
    ensures a / d >= 0.0 && (a == 0.0 ==> a / d == 0.0)
  {
  }

  /** Multiplying by a factor at most 1 does not raise a ratio. */
  lemma QuotientFalls(j: int, a: int, b: int, a': int, b': int, p: int, q: int)
    requires j > 0 && a >= 0 && b > 0 && b' > 0 && 0 <= p <= q && q > 0 && j * a' == p * a && j * b' == q * b
    ensures a' as real / b' as real <= a as real / b as real
  {
    IntegerFractionStep(j, a, b, a', b', p, q);
    QuotientSign(a as real, b as real);
    QuotientOrder(p as real, q as real, q as real);
    ScaleDown(a as real / b as real, p as real / q as real);
  }

  lemma ScaleDown(r: real, f: real)
    requires r >= 0.0 && f <= 1.0
    ensures r * f <= r
  {
  }

  lemma {:induction false} ChooseOne(n: nat)
    ensures Choose(n, 1) == n
  {
    if n > 0 { ChooseOne(n - 1); assert Choose(n - 1, 0) == 1; }
  }

  /** At k = 1 it is the success rate. */
  lemma PassAtOneIsSuccessRate(n: nat, c: nat)
    requires 1 <= n && c <= n
    ensures Choose(n, 1) > 0 && PassRatio(n, c, 1) == c as real / n as real
  {
    ChooseOne(n);
    ChooseOne(n - c);
    Complement((n - c) as real, n as real);
  }
}
