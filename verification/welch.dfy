/** The statistics of an A/B comparison, over the reals. The square root and the incomplete
    beta function are parameters; of the first only its defining equation is used, of the
    second nothing. */
module Welch {
  import opened Options

  datatype Arithmetic = Arithmetic(root: real -> real, beta: (real, real, real) -> real)

  ghost predicate Roots(m: Arithmetic) {
    forall x :: x >= 0.0 ==> m.root(x) >= 0.0 && m.root(x) * m.root(x) == x
  }

  // ------------------------------------------------------------------
  // Means and deviations.

  function Sum(xs: seq<real>): real { if xs == [] then 0.0 else Sum(xs[..|xs| - 1]) + xs[|xs| - 1] }

  function Deviation(x: real, c: real): real { (x - c) * (x - c) }

  function Deviations(xs: seq<real>, c: real): seq<real> {
    seq(|xs|, i requires 0 <= i < |xs| => Deviation(xs[i], c))
  }

  /** The sum of squared distances from `c`. */
  function Squares(xs: seq<real>, c: real): real { Sum(Deviations(xs, c)) }

  function Mean(xs: seq<real>): real { if xs == [] then 0.0 else Sum(xs) / (|xs| as real) }

  function Variance(xs: seq<real>): real { if |xs| < 2 then 0.0 else Squares(xs, Mean(xs)) / ((|xs| - 1) as real) }

  function Std(xs: seq<real>, m: Arithmetic): real { if |xs| < 2 then 0.0 else m.root(Variance(xs)) }

  lemma SquareSign(x: real)
    ensures x * x >= 0.0 && (x * x == 0.0 <==> x == 0.0) && (-x) * (-x) == x * x
  {
    if x > 0.0 {
      ProductSign(x, x);
    } else if x < 0.0 {
      ProductSign(-x, -x);
    } else {
      assert x * x == 0.0 * x;
    }
  }

  /** A positive factor keeps the sign. */
  lemma ProductSign(x: real, d: real)
    requires d > 0.0
    ensures x * d > 0.0 <==> x > 0.0
    ensures x * d == 0.0 <==> x == 0.0
  {
    if x > 0.0 { assert x * d > 0.0; } else if x < 0.0 { assert (-x) * d > 0.0; }
  }

  lemma {:induction false} SumNonNegative(ds: seq<real>)
    requires forall i :: 0 <= i < |ds| ==> ds[i] >= 0.0
    ensures Sum(ds) >= 0.0
    ensures Sum(ds) == 0.0 <==> forall i :: 0 <= i < |ds| ==> ds[i] == 0.0
  {
    if ds != [] {
      var n := |ds| - 1;
      SumNonNegative(ds[..n]);
      assert forall i :: 0 <= i < n ==> ds[..n][i] == ds[i];
    }
  }

  lemma SquaresNonNegative(xs: seq<real>, c: real)
    ensures Squares(xs, c) >= 0.0
    ensures Squares(xs, c) == 0.0 <==> forall i :: 0 <= i < |xs| ==> xs[i] == c
  {
    var ds := Deviations(xs, c);
    forall i | 0 <= i < |xs| ensures ds[i] >= 0.0 && (ds[i] == 0.0 <==> xs[i] == c) { SquareSign(xs[i] - c); }
    SumNonNegative(ds);
  }

  lemma VarianceNonNegative(xs: seq<real>)
    ensures Variance(xs) >= 0.0
  {
    if |xs| >= 2 {
      SquaresNonNegative(xs, Mean(xs));
      QuotientSign(Squares(xs, Mean(xs)), (|xs| - 1) as real);
    }
  }

  lemma StdSquared(xs: seq<real>, m: Arithmetic)
    requires Roots(m)
    ensures Std(xs, m) >= 0.0 && Std(xs, m) * Std(xs, m) == Variance(xs)
  {
    VarianceNonNegative(xs);
  }

  // ------------------------------------------------------------------
  // Welch's test.

  datatype Statistic = Finite(t: real) | PlusInfinity | MinusInfinity

  datatype Test = Test(t: Statistic, df: real, p: real)

  function StudentTwoSidedP(t: Statistic, df: real, m: Arithmetic): real {
    if df <= 0.0 || t == Finite(0.0) then 1.0
    else if !t.Finite? then 0.0
    else
      assert t.t * t.t >= 0.0;
      m.beta(df / 2.0, 0.5, df / (df + t.t * t.t))
  }

  /** One arm: its size, its mean, and the variance of its mean. */
  datatype Arm = Arm(n: nat, mean: real, spread: real)

  function ArmOf(xs: seq<real>, m: Arithmetic): Arm
    requires xs != []
  {
    Arm(|xs|, Mean(xs), Spread(xs, m))
  }

  /** An arm's variance of the mean, computed from its standard deviation. */
  function Spread(xs: seq<real>, m: Arithmetic): real
    requires xs != []
  {
    Std(xs, m) * Std(xs, m) / (|xs| as real)
  }

  function Ratio(a: real, b: real, p: real, q: real): real
    requires p > 0.0 && q > 0.0 && a + b != 0.0
  {
    SharesPositive(a, b, p, q);
    (a + b) * (a + b) / (a * a / p + b * b / q)
  }

  function Freedom(v1: real, v2: real, n1: nat, n2: nat): (df: real)
    requires n1 >= 2 && n2 >= 2 && v1 >= 0.0 && v2 >= 0.0 && v1 + v2 != 0.0
  {
    Ratio(v1, v2, (n1 - 1) as real, (n2 - 1) as real)
  }

  /** The standard error of the gap between the means, and its degrees of freedom. */
  datatype Error = Error(size: real, df: real)

  /** No error where neither arm varies. */
  function ErrorOf(v1: real, v2: real, n1: nat, n2: nat, m: Arithmetic): Option<Error>
    requires n1 >= 2 && n2 >= 2 && v1 >= 0.0 && v2 >= 0.0
  {
    if v1 + v2 == 0.0 then None else Some(Error(m.root(v1 + v2), Freedom(v1, v2, n1, n2)))
  }

  function StatisticOf(gap: real, e: Option<Error>): Statistic
    requires e.Some? ==> e.value.size != 0.0
  {
    match e
    case None => if gap == 0.0 then Finite(0.0) else if gap > 0.0 then PlusInfinity else MinusInfinity
    case Some(e) => Finite(gap / e.size)
  }

  /** Without an error the gap is certain, or there is none. */
  function Verdict(t: Statistic, e: Option<Error>, pooled: real, m: Arithmetic): (r: Test)
    ensures r.t == t
  {
    match e
    case None => Test(t, pooled, if t == Finite(0.0) then 1.0 else 0.0)
    case Some(e) => Test(t, e.df, StudentTwoSidedP(t, e.df, m))
  }

  function Judge(gap: real, e: Option<Error>, pooled: real, m: Arithmetic): Test
    requires e.Some? ==> e.value.size != 0.0
  {
    Verdict(StatisticOf(gap, e), e, pooled, m)
  }

  function Gap(a: Arm, b: Arm): real { b.mean - a.mean }

  function PooledFreedom(a: Arm, b: Arm): real { (a.n + b.n - 2) as real }

  predicate Testable(a: Arm) { a.n >= 2 && a.spread >= 0.0 }

  function ErrorBetween(a: Arm, b: Arm, m: Arithmetic): Option<Error>
    requires Testable(a) && Testable(b)
  {
    ErrorOf(a.spread, b.spread, a.n, b.n, m)
  }

  function TestOf(a: Arm, b: Arm, m: Arithmetic): Test
    requires Roots(m) && Testable(a) && Testable(b)
  {
    ErrorPositive(a.spread, b.spread, a.n, b.n, m);
    Judge(Gap(a, b), ErrorBetween(a, b, m), PooledFreedom(a, b), m)
  }

  lemma ErrorPositive(v1: real, v2: real, n1: nat, n2: nat, m: Arithmetic)
    requires Roots(m) && n1 >= 2 && n2 >= 2 && v1 >= 0.0 && v2 >= 0.0
    ensures ErrorOf(v1, v2, n1, n2, m).Some? ==> ErrorOf(v1, v2, n1, n2, m).value.size > 0.0
  {
    if v1 + v2 != 0.0 { RootPositive(v1 + v2, m); }
  }

  function WelchTest(baseline: seq<real>, intervention: seq<real>, m: Arithmetic): Test
    requires Roots(m)
  {
    var n1, n2 := |baseline|, |intervention|;
    if n1 < 2 || n2 < 2 then Test(Finite(0.0), 0.0, 1.0)
    else
      SpreadNonNegative(baseline, m);
      SpreadNonNegative(intervention, m);
      TestOf(ArmOf(baseline, m), ArmOf(intervention, m), m)
  }

  lemma QuotientSign(a: real, b: real)
    requires a >= 0.0 && b > 0.0
    ensures a / b >= 0.0
    ensures a / b == 0.0 <==> a == 0.0
  {
    assert a == (a / b) * b;
  }

  lemma SpreadNonNegative(xs: seq<real>, m: Arithmetic)
    requires Roots(m) && xs != []
    ensures Spread(xs, m) >= 0.0 && Spread(xs, m) == Variance(xs) / (|xs| as real)
  {
    StdSquared(xs, m);
    VarianceNonNegative(xs);
    QuotientSign(Variance(xs), |xs| as real);
  }

  lemma RootPositive(x: real, m: Arithmetic)
    requires Roots(m) && x > 0.0
    ensures m.root(x) > 0.0
  {
    assert m.root(x) * m.root(x) == x;
  }

  lemma SharesPositive(a: real, b: real, p: real, q: real)
    requires p > 0.0 && q > 0.0 && a + b != 0.0
    ensures a * a / p + b * b / q > 0.0
  {
    SquareSign(a);
    SquareSign(b);
    QuotientSign(a * a, p);
    QuotientSign(b * b, q);
  }

  // ------------------------------------------------------------------
  // The bounds of the degrees of freedom.

  /** For positive weights p and q, (a + b)^2 <= (p + q) (a^2 / p + b^2 / q), with equality
      exactly when a and b are in the ratio of the weights. */
  lemma CauchySchwarz(a: real, b: real, p: real, q: real)
    requires p > 0.0 && q > 0.0
    ensures (a + b) * (a + b) <= (p + q) * (a * a / p + b * b / q)
    ensures (a + b) * (a + b) == (p + q) * (a * a / p + b * b / q) <==> q * a == p * b
  {
    var x, y := a / p, b / q;
    assert a == p * x && b == q * y;
    ShareOf(a, x, p);
    ShareOf(b, y, q);
    assert a * a / p == p * (x * x) && b * b / q == q * (y * y);
    Lagrange(p, q, x, y);
    var gap := (x - y) * (x - y);
    SquareSign(x - y);
    assert p * q > 0.0;
    ProductSign(gap, p * q);
    RatioAgrees(a, b, p, q, x, y);
  }

  lemma ShareOf(a: real, x: real, p: real)
    requires p > 0.0 && a == p * x
    ensures a * a / p == p * (x * x)
  {
    assert a * a == (p * (x * x)) * p;
  }

  lemma Lagrange(p: real, q: real, x: real, y: real)
    ensures (p + q) * (p * (x * x) + q * (y * y)) - (p * x + q * y) * (p * x + q * y) == (p * q) * ((x - y) * (x - y))
  {
  }

  lemma RatioAgrees(a: real, b: real, p: real, q: real, x: real, y: real)
    requires p > 0.0 && q > 0.0 && a == p * x && b == q * y
    ensures q * a == p * b <==> x == y
  {
    assert q * a == (p * q) * x && p * b == (p * q) * y;
    assert p * q > 0.0;
  }

  /** The smaller weight bounds the quotient from below. */
  lemma SmallerWeight(a: real, b: real, p: real, q: real, least: real)
    requires a >= 0.0 && b >= 0.0 && 0.0 < least <= p && least <= q
    ensures least * (a * a / p + b * b / q) <= (a + b) * (a + b)
  {
    Shrinks(a * a, p, least);
    Shrinks(b * b, q, least);
    assert least * (a * a / p + b * b / q) == least * (a * a / p) + least * (b * b / q);
    assert a * b >= 0.0;
    assert (a + b) * (a + b) == a * a + b * b + 2.0 * (a * b);
  }

  lemma Shrinks(s: real, p: real, least: real)
    requires s >= 0.0 && 0.0 < least <= p
    ensures least * (s / p) <= s
  {
    QuotientSign(s, p);
    assert s == p * (s / p);
    ProductOrder(least, p, s / p);
  }

  lemma ProductOrder(a: real, b: real, c: real)
    requires a <= b && c >= 0.0
    ensures a * c <= b * c
  {
    assert (b - a) * c >= 0.0;
  }

  lemma QuotientAtLeast(n: real, d: real, low: real)
    requires d > 0.0 && low * d <= n
    ensures low <= n / d
  {
    var r := n / d;
    ProductSign(low - r, d);
    assert (low - r) * d == low * d - n;
  }

  lemma QuotientAtMost(n: real, d: real, high: real)
    requires d > 0.0 && n <= high * d
    ensures n / d <= high
    ensures n / d == high <==> n == high * d
  {
    var r := n / d;
    ProductSign(r - high, d);
    assert (r - high) * d == n - high * d;
  }

  lemma RatioAtLeast(a: real, b: real, p: real, q: real, least: real)
    requires a >= 0.0 && b >= 0.0 && a + b != 0.0 && 0.0 < least <= p && least <= q
    ensures least <= Ratio(a, b, p, q)
  {
    SharesPositive(a, b, p, q);
    SmallerWeight(a, b, p, q, least);
    QuotientAtLeast((a + b) * (a + b), a * a / p + b * b / q, least);
  }

  lemma RatioAtMost(a: real, b: real, p: real, q: real)
    requires p > 0.0 && q > 0.0 && a + b != 0.0
    ensures Ratio(a, b, p, q) <= p + q
    ensures Ratio(a, b, p, q) == p + q <==> q * a == p * b
  {
    SharesPositive(a, b, p, q);
    CauchySchwarz(a, b, p, q);
    QuotientAtMost((a + b) * (a + b), a * a / p + b * b / q, p + q);
  }

  lemma FreedomBounds(v1: real, v2: real, n1: nat, n2: nat)
    requires n1 >= 2 && n2 >= 2 && v1 >= 0.0 && v2 >= 0.0 && v1 + v2 != 0.0
    ensures (if n1 < n2 then n1 - 1 else n2 - 1) as real <= Freedom(v1, v2, n1, n2) <= (n1 + n2 - 2) as real
    ensures Freedom(v1, v2, n1, n2) == (n1 + n2 - 2) as real <==> ((n2 - 1) as real) * v1 == ((n1 - 1) as real) * v2
  {
    var p, q := (n1 - 1) as real, (n2 - 1) as real;
    RatioAtLeast(v1, v2, p, q, (if n1 < n2 then n1 - 1 else n2 - 1) as real);
    RatioAtMost(v1, v2, p, q);
  }

  /** With two observations or more in each arm the degrees of freedom never leave the
      interval from the smaller arm's to both arms' together. */
  lemma FreedomStaysInBounds(baseline: seq<real>, intervention: seq<real>, m: Arithmetic)
    requires Roots(m) && |baseline| >= 2 && |intervention| >= 2
    ensures var n1, n2 := |baseline|, |intervention|;
            (if n1 < n2 then n1 - 1 else n2 - 1) as real <= WelchTest(baseline, intervention, m).df
            <= (n1 + n2 - 2) as real
  {
    SpreadNonNegative(baseline, m);
    SpreadNonNegative(intervention, m);
    var v1, v2 := Spread(baseline, m), Spread(intervention, m);
    if v1 + v2 != 0.0 { FreedomBounds(v1, v2, |baseline|, |intervention|); }
  }

  // ------------------------------------------------------------------
  // Swapping the arms.

  function Negated(t: Statistic): Statistic {
    match t
    case Finite(x) => Finite(-x)
    case PlusInfinity => MinusInfinity
    case MinusInfinity => PlusInfinity
  }

  lemma NegatedQuotient(a: real, b: real)
    requires b != 0.0
    ensures (-a) / b == -(a / b)
  {
    assert (-a) == (-(a / b)) * b;
  }

  lemma EvenP(t: Statistic, df: real, m: Arithmetic)
    ensures StudentTwoSidedP(Negated(t), df, m) == StudentTwoSidedP(t, df, m)
  {
    if t.Finite? { SquareSign(t.t); }
  }

  /** The test with the opposite statistic. */
  function NegatedTest(r: Test): Test { Test(Negated(r.t), r.df, r.p) }

  lemma VerdictNegates(t: Statistic, e: Option<Error>, pooled: real, m: Arithmetic)
    ensures Verdict(Negated(t), e, pooled, m) == NegatedTest(Verdict(t, e, pooled, m))
  {
    if e.Some? { EvenP(t, e.value.df, m); }
  }

  lemma StatisticNegates(gap: real, other: real, e: Option<Error>)
    requires other == -gap && (e.Some? ==> e.value.size != 0.0)
    ensures StatisticOf(other, e) == Negated(StatisticOf(gap, e))
  {
    if e.Some? { NegatedQuotient(gap, e.value.size); }
  }

  lemma RatioSwaps(a: real, b: real, p: real, q: real)
    requires p > 0.0 && q > 0.0 && a + b != 0.0
    ensures Ratio(b, a, q, p) == Ratio(a, b, p, q)
  {
  }

  lemma ErrorSwaps(v1: real, v2: real, n1: nat, n2: nat, m: Arithmetic)
    requires n1 >= 2 && n2 >= 2 && v1 >= 0.0 && v2 >= 0.0
    ensures ErrorOf(v2, v1, n2, n1, m) == ErrorOf(v1, v2, n1, n2, m)
  {
    if v1 + v2 != 0.0 { RatioSwaps(v1, v2, (n1 - 1) as real, (n2 - 1) as real); }
    assert v2 + v1 == v1 + v2;
  }

  lemma JudgeNegates(gap: real, other: real, e: Option<Error>, pooled: real, m: Arithmetic)
    requires other == -gap && (e.Some? ==> e.value.size != 0.0)
    ensures Judge(other, e, pooled, m) == NegatedTest(Judge(gap, e, pooled, m))
  {
    StatisticNegates(gap, other, e);
    VerdictNegates(StatisticOf(gap, e), e, pooled, m);
  }

  lemma TestSwaps(a: Arm, b: Arm, m: Arithmetic)
    requires Roots(m) && Testable(a) && Testable(b)
    ensures TestOf(b, a, m) == NegatedTest(TestOf(a, b, m))
  {
    ErrorSwaps(a.spread, b.spread, a.n, b.n, m);
    ErrorPositive(a.spread, b.spread, a.n, b.n, m);
    JudgeNegates(Gap(a, b), Gap(b, a), ErrorBetween(a, b, m), PooledFreedom(a, b), m);
    assert PooledFreedom(b, a) == PooledFreedom(a, b) && ErrorBetween(b, a, m) == ErrorBetween(a, b, m);
  }

  /** The arms in the other order: the statistic changes its sign, nothing else changes. */
  lemma SwappingNegates(baseline: seq<real>, intervention: seq<real>, m: Arithmetic)
    requires Roots(m)
    ensures WelchTest(intervention, baseline, m) == NegatedTest(WelchTest(baseline, intervention, m))
  {
    if |baseline| >= 2 && |intervention| >= 2 {
      SpreadNonNegative(baseline, m);
      SpreadNonNegative(intervention, m);
      TestSwaps(ArmOf(baseline, m), ArmOf(intervention, m), m);
    }
  }
}
