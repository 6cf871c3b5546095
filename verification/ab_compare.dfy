/** The ship gate over Welch's test: what it does under a change of units and when the arms
    change places. */
module AbCompare {
  import opened Options
  import opened Welch

  // ------------------------------------------------------------------
  // A change of units: every value v becomes k * v + c.

  function Converted(x: real, k: real, c: real): real { k * x + c }

  function Affine(xs: seq<real>, k: real, c: real): seq<real> {
    seq(|xs|, i requires 0 <= i < |xs| => Converted(xs[i], k, c))
  }

  lemma {:induction false} SumMoves(xs: seq<real>, ys: seq<real>, k: real, c: real)
    requires |ys| == |xs| && forall i :: 0 <= i < |xs| ==> ys[i] == k * xs[i] + c
    ensures Sum(ys) == k * Sum(xs) + c * (|xs| as real)
  {
    if xs != [] {
      var n := |xs| - 1;
      SumMoves(xs[..n], ys[..n], k, c);
      Distributes(k, Sum(xs[..n]), xs[n]);
      Distributes(c, n as real, 1.0);
    }
  }

  lemma CancelFactor(x: real, n: real, y: real)
    requires n != 0.0 && y == x * n
    ensures y / n == x
  {
  }

  lemma Distributes(a: real, x: real, y: real)
    ensures a * (x + y) == a * x + a * y
  {
  }

  ghost predicate Scaled(xs: seq<real>, ys: seq<real>, s: real) {
    |ys| == |xs| && forall i :: 0 <= i < |xs| ==> ys[i] == s * xs[i]
  }

  lemma {:induction false} SumScales(xs: seq<real>, ys: seq<real>, s: real, total: real)
    requires Scaled(xs, ys, s) && total == Sum(xs)
    ensures Sum(ys) == s * total
  {
    if xs != [] {
      var n := |xs| - 1;
      SumScales(xs[..n], ys[..n], s, Sum(xs[..n]));
      Distributes(s, Sum(xs[..n]), xs[n]);
    }
  }

  lemma SumAffine(xs: seq<real>, k: real, c: real)
    ensures Sum(Affine(xs, k, c)) == k * Sum(xs) + c * (|xs| as real)
  {
    var ys := Affine(xs, k, c);
    forall i | 0 <= i < |xs| ensures ys[i] == k * xs[i] + c {
    }
    SumMoves(xs, ys, k, c);
  }

  lemma MeanAffine(xs: seq<real>, k: real, c: real, mean: real)
    requires xs != [] && mean == Mean(xs)
    ensures Mean(Affine(xs, k, c)) == k * mean + c
  {
    SumAffine(xs, k, c);
    MeanOf(Sum(xs), Sum(Affine(xs, k, c)), |xs| as real, k, c, mean);
  }

  lemma MeanOf(sum: real, moved: real, n: real, k: real, c: real, mean: real)
    requires n > 0.0 && moved == k * sum + c * n && mean == sum / n
    ensures moved / n == k * mean + c
  {
    assert sum == mean * n;
    assert k * (mean * n) == (k * mean) * n;
    CancelFactor(k * mean + c, n, moved);
  }

  lemma SquareScales(k: real, d: real, s: real)
    requires s == k * k
    ensures (k * d) * (k * d) == s * (d * d)
  {
  }

  lemma DeviationMoves(xs: seq<real>, m: real, k: real, c: real, s: real, moved: real, i: nat, d: real)
    requires s == k * k && moved == k * m + c && i < |xs| && d == Deviations(xs, m)[i]
    ensures Deviations(Affine(xs, k, c), moved)[i] == s * d
  {
    SquareMoves(xs[i], m, k, c, s, moved, Converted(xs[i], k, c), d);
  }

  lemma DeviationsScale(xs: seq<real>, m: real, k: real, c: real, s: real, moved: real)
    requires s == k * k && moved == k * m + c
    ensures Scaled(Deviations(xs, m), Deviations(Affine(xs, k, c), moved), s)
  {
    var ds := Deviations(xs, m);
    forall i | 0 <= i < |xs| ensures Deviations(Affine(xs, k, c), moved)[i] == s * ds[i] {
      DeviationMoves(xs, m, k, c, s, moved, i, ds[i]);
    }
  }

  lemma SquaresAffine(xs: seq<real>, m: real, k: real, c: real, s: real, moved: real)
    requires s == k * k && moved == k * m + c
    ensures Squares(Affine(xs, k, c), moved) == s * Squares(xs, m)
  {
    DeviationsScale(xs, m, k, c, s, moved);
    SumScales(Deviations(xs, m), Deviations(Affine(xs, k, c), moved), s, Squares(xs, m));
  }

  lemma SquareMoves(x: real, m: real, k: real, c: real, s: real, moved: real, y: real, d: real)
    requires s == k * k && moved == k * m + c && y == k * x + c && d == Deviation(x, m)
    ensures Deviation(y, moved) == s * d
  {
    Distributes(k, x, -m);
    assert y - moved == k * (x - m);
    SquareScales(k, x - m, s);
  }

  lemma ScaledQuotient(a: real, x: real, n: real, y: real, q: real)
    requires n != 0.0 && y == a * x && q == x / n
    ensures y / n == a * q
  {
    assert x == q * n;
    assert a * (q * n) == (a * q) * n;
    CancelFactor(a * q, n, y);
  }

  lemma VarianceAffine(xs: seq<real>, k: real, c: real, s: real, v: real)
    requires s == k * k && v == Variance(xs)
    ensures Variance(Affine(xs, k, c)) == s * v
  {
    if |xs| >= 2 {
      var ys := Affine(xs, k, c);
      MeanAffine(xs, k, c, Mean(xs));
      SquaresAffine(xs, Mean(xs), k, c, s, Mean(ys));
      ScaledQuotient(s, Squares(xs, Mean(xs)), (|xs| - 1) as real, Squares(ys, Mean(ys)), v);
    }
  }

  lemma SpreadIsShare(xs: seq<real>, m: Arithmetic) returns (v: real)
    requires Roots(m) && xs != []
    ensures v == Variance(xs) && Spread(xs, m) == v / (|xs| as real)
  {
    SpreadNonNegative(xs, m);
    v := Variance(xs);
  }

  lemma SpreadAffine(xs: seq<real>, k: real, c: real, s: real, m: Arithmetic, spread: real)
    requires Roots(m) && xs != [] && s == k * k && spread == Spread(xs, m)
    ensures Spread(Affine(xs, k, c), m) == s * spread
  {
    var ys := Affine(xs, k, c);
    var v := SpreadIsShare(xs, m);
    var w := SpreadIsShare(ys, m);
    assert w == s * v by { VarianceAffine(xs, k, c, s, v); }
    ScaledQuotient(s, v, |xs| as real, w, spread);
  }

  function Abs(k: real): real { if k < 0.0 then -k else k }

  lemma EqualSquares(x: real, y: real)
    requires x >= 0.0 && y >= 0.0 && x * x == y * y
    ensures x == y
  {
    assert (x - y) * (x + y) == 0.0;
    if x + y > 0.0 { ProductSign(x - y, x + y); }
  }

  lemma RootScales(x: real, k: real, s: real, y: real, r: real, m: Arithmetic)
    requires Roots(m) && x >= 0.0 && s == k * k && y == s * x && y >= 0.0 && r == m.root(x)
    ensures m.root(y) == Abs(k) * r
  {
    assert Abs(k) * Abs(k) == s;
    SquareScales(Abs(k), r, s);
    assert Abs(k) * r >= 0.0;
    EqualSquares(m.root(y), Abs(k) * r);
  }

  lemma RatioScales(a: real, b: real, p: real, q: real, s: real, w1: real, w2: real)
    requires p > 0.0 && q > 0.0 && s > 0.0 && a + b != 0.0 && w1 == s * a && w2 == s * b && w1 + w2 != 0.0
    ensures Ratio(w1, w2, p, q) == Ratio(a, b, p, q)
  {
    SharesPositive(a, b, p, q);
    SharesPositive(w1, w2, p, q);
    ScaledShares(a, b, p, q, s, w1, w2);
    Distributes(s, a, b);
    SquareScales(s, a + b, s * s);
    ProductSign(s, s);
    CommonFactor((a + b) * (a + b), a * a / p + b * b / q, s * s, (w1 + w2) * (w1 + w2), w1 * w1 / p + w2 * w2 / q);
  }

  lemma ScaledShares(a: real, b: real, p: real, q: real, s: real, w1: real, w2: real)
    requires p > 0.0 && q > 0.0 && w1 == s * a && w2 == s * b
    ensures w1 * w1 / p + w2 * w2 / q == (s * s) * (a * a / p + b * b / q)
  {
    SquareScales(s, a, s * s);
    SquareScales(s, b, s * s);
    ScaledQuotient(s * s, a * a, p, w1 * w1, a * a / p);
    ScaledQuotient(s * s, b * b, q, w2 * w2, b * b / q);
    Distributes(s * s, a * a / p, b * b / q);
  }

  lemma CommonFactor(n: real, d: real, s: real, sn: real, sd: real)
    requires d != 0.0 && s > 0.0 && sn == s * n && sd == s * d
    ensures sd != 0.0 && sn / sd == n / d
  {
    ProductSign(d, s);
    ProductSign(-d, s);
    var r := n / d;
    assert n == r * d;
    assert s * (r * d) == r * (s * d);
    CancelFactor(r, sd, sn);
  }

  /** The statistic after the units change: unchanged, or negated when the scale is. */
  function Turned(t: Statistic, k: real): Statistic { if k < 0.0 then Negated(t) else t }

  lemma QuotientTurns(gap: real, r: real, k: real, turned: real, size: real)
    requires r > 0.0 && k != 0.0 && turned == k * gap && size == Abs(k) * r
    ensures size > 0.0 && turned / size == if k < 0.0 then -(gap / r) else gap / r
  {
    ProductSign(Abs(k), r);
    if k < 0.0 {
      assert (-k) * (-gap) == k * gap;
      CommonFactor(-gap, r, -k, turned, size);
      NegatedQuotient(gap, r);
    } else {
      CommonFactor(gap, r, k, turned, size);
    }
  }

  lemma GapTurns(gap: real, k: real)
    requires k != 0.0
    ensures k * gap == 0.0 <==> gap == 0.0
    ensures k * gap > 0.0 <==> (if k < 0.0 then gap < 0.0 else gap > 0.0)
  {
    ProductSign(gap, Abs(k));
    ProductSign(-gap, Abs(k));
    assert (-gap) * Abs(k) == -(gap * Abs(k));
  }

  /** The test with the statistic turned. */
  function TurnedTest(r: Test, k: real): Test { Test(Turned(r.t, k), r.df, r.p) }

  lemma VerdictTurns(t: Statistic, e: Option<Error>, f: Option<Error>, pooled: real, k: real, m: Arithmetic)
    requires e.None? <==> f.None?
    requires e.Some? ==> f.value.df == e.value.df
    ensures Verdict(Turned(t, k), f, pooled, m) == TurnedTest(Verdict(t, e, pooled, m), k)
  {
    if e.Some? { EvenP(t, e.value.df, m); }
  }

  lemma StatisticTurns(gap: real, turned: real, e: Option<Error>, f: Option<Error>, k: real)
    requires k != 0.0 && turned == k * gap && (e.Some? ==> e.value.size > 0.0)
    requires if e.None? then f.None? else f.Some? && f.value.size == Abs(k) * e.value.size
    ensures f.Some? ==> f.value.size > 0.0
    ensures StatisticOf(turned, f) == Turned(StatisticOf(gap, e), k)
  {
    if e.Some? {
      QuotientTurns(gap, e.value.size, k, turned, f.value.size);
    } else {
      GapTurns(gap, k);
    }
  }

  lemma ErrorScales(v1: real, v2: real, w1: real, w2: real, n1: nat, n2: nat, k: real, s: real, m: Arithmetic)
    requires Roots(m) && n1 >= 2 && n2 >= 2 && v1 >= 0.0 && v2 >= 0.0 && k != 0.0 && s == k * k
    requires w1 == s * v1 && w2 == s * v2 && w1 >= 0.0 && w2 >= 0.0
    ensures var e, f := ErrorOf(v1, v2, n1, n2, m), ErrorOf(w1, w2, n1, n2, m);
            if e.None? then f.None? else f.Some? && f.value.size == Abs(k) * e.value.size && f.value.df == e.value.df
  {
    SquareSign(k);
    Distributes(s, v1, v2);
    ProductSign(v1 + v2, s);
    if v1 + v2 != 0.0 {
      RootScales(v1 + v2, k, s, w1 + w2, ErrorOf(v1, v2, n1, n2, m).value.size, m);
      RatioScales(v1, v2, (n1 - 1) as real, (n2 - 1) as real, s, w1, w2);
    }
  }

  /** `v` is the arm `a` in the new units; `s` is the square of the scale. */
  ghost predicate Moved(a: Arm, v: Arm, k: real, c: real, s: real) {
    v.n == a.n && v.mean == k * a.mean + c && v.spread == s * a.spread
  }

  /** Two tests whose gaps and errors correspond as under a change of units. */
  lemma JudgeTurns(gap: real, turned: real, e: Option<Error>, f: Option<Error>, pooled: real, k: real, m: Arithmetic)
    requires (e.Some? ==> e.value.size != 0.0) && (f.Some? ==> f.value.size != 0.0)
    requires (e.None? <==> f.None?) && (e.Some? ==> f.value.df == e.value.df)
    requires StatisticOf(turned, f) == Turned(StatisticOf(gap, e), k)
    ensures Judge(turned, f, pooled, m) == TurnedTest(Judge(gap, e, pooled, m), k)
  {
    VerdictTurns(StatisticOf(gap, e), e, f, pooled, k, m);
  }

  /** The statistic and the error after the move; only the sign of the statistic can change. */
  lemma PartsMove(a: Arm, b: Arm, v: Arm, w: Arm, k: real, c: real, s: real, m: Arithmetic)
    requires Roots(m) && Testable(a) && Testable(b) && Testable(v) && Testable(w) && k != 0.0 && s == k * k
    requires Moved(a, v, k, c, s) && Moved(b, w, k, c, s)
    ensures var e, f := ErrorBetween(a, b, m), ErrorBetween(v, w, m);
            && (e.Some? ==> e.value.size > 0.0) && (f.Some? ==> f.value.size > 0.0)
            && (e.None? <==> f.None?) && (e.Some? ==> f.value.df == e.value.df)
            && StatisticOf(Gap(v, w), f) == Turned(StatisticOf(Gap(a, b), e), k)
  {
    ErrorPositive(a.spread, b.spread, a.n, b.n, m);
    ErrorScales(a.spread, b.spread, v.spread, w.spread, a.n, b.n, k, s, m);
    Distributes(k, b.mean, -a.mean);
    StatisticTurns(Gap(a, b), Gap(v, w), ErrorBetween(a, b, m), ErrorBetween(v, w, m), k);
  }

  lemma TestMoves(a: Arm, b: Arm, v: Arm, w: Arm, k: real, c: real, s: real, m: Arithmetic)
    requires Roots(m) && Testable(a) && Testable(b) && Testable(v) && Testable(w) && k != 0.0 && s == k * k
    requires Moved(a, v, k, c, s) && Moved(b, w, k, c, s)
    ensures TestOf(v, w, m) == TurnedTest(TestOf(a, b, m), k)
  {
    PartsMove(a, b, v, w, k, c, s, m);
    JudgeTurns(Gap(a, b), Gap(v, w), ErrorBetween(a, b, m), ErrorBetween(v, w, m), PooledFreedom(a, b), k, m);
    assert PooledFreedom(v, w) == PooledFreedom(a, b);
  }

  lemma ArmMeanMoves(xs: seq<real>, k: real, c: real, m: Arithmetic)
    requires Roots(m) && xs != []
    ensures ArmOf(Affine(xs, k, c), m).mean == k * ArmOf(xs, m).mean + c
  {
    MeanAffine(xs, k, c, ArmOf(xs, m).mean);
  }

  lemma ArmSpreadMoves(xs: seq<real>, k: real, c: real, s: real, m: Arithmetic)
    requires Roots(m) && xs != [] && s == k * k
    ensures ArmOf(Affine(xs, k, c), m).spread == s * ArmOf(xs, m).spread
  {
    SpreadAffine(xs, k, c, s, m, ArmOf(xs, m).spread);
  }

  lemma ArmMoves(xs: seq<real>, k: real, c: real, s: real, m: Arithmetic)
    requires Roots(m) && xs != [] && s == k * k
    ensures Moved(ArmOf(xs, m), ArmOf(Affine(xs, k, c), m), k, c, s)
  {
    ArmMeanMoves(xs, k, c, m);
    ArmSpreadMoves(xs, k, c, s, m);
  }

  /** Units do not matter: under any change of scale and origin shared by both arms the test
      keeps its degrees of freedom and its p-value, and its statistic up to the scale's sign. */
  lemma UnitsDoNotMatter(baseline: seq<real>, intervention: seq<real>, k: real, c: real, m: Arithmetic)
    requires Roots(m) && k != 0.0
    ensures WelchTest(Affine(baseline, k, c), Affine(intervention, k, c), m) ==
            TurnedTest(WelchTest(baseline, intervention, m), k)
  {
    if |baseline| >= 2 && |intervention| >= 2 {
      var s := k * k;
      ArmMoves(baseline, k, c, s, m);
      ArmMoves(intervention, k, c, s, m);
      SpreadNonNegative(baseline, m);
      SpreadNonNegative(intervention, m);
      SpreadNonNegative(Affine(baseline, k, c), m);
      SpreadNonNegative(Affine(intervention, k, c), m);
      TestMoves(ArmOf(baseline, m), ArmOf(intervention, m), ArmOf(Affine(baseline, k, c), m),
        ArmOf(Affine(intervention, k, c), m), k, c, s, m);
    }
  }

  // ------------------------------------------------------------------
  // The standardised effect.

  /** The pooled variance of two arms with standard deviations `s1` and `s2`. */
  function Pooled(n1: nat, s1: real, n2: nat, s2: real): real
    requires n1 >= 2 && n2 >= 2
  {
    (((n1 - 1) as real) * (s1 * s1) + ((n2 - 1) as real) * (s2 * s2)) / ((n1 + n2 - 2) as real)
  }

  function PooledStd(baseline: seq<real>, intervention: seq<real>, m: Arithmetic): real
    requires |baseline| >= 2 && |intervention| >= 2
  {
    m.root(Pooled(|baseline|, Std(baseline, m), |intervention|, Std(intervention, m)))
  }

  function EffectOf(gap: real, sp: real): Option<real> {
    if sp != 0.0 then Some(gap / sp) else if gap == 0.0 then Some(0.0) else None
  }

  /** Undefined for an arm of fewer than two values, and where two constant arms differ. */
  function CohensD(baseline: seq<real>, intervention: seq<real>, m: Arithmetic): Option<real> {
    if |baseline| < 2 || |intervention| < 2 then None
    else EffectOf(Mean(intervention) - Mean(baseline), PooledStd(baseline, intervention, m))
  }

  lemma PooledSwaps(n1: nat, s1: real, n2: nat, s2: real)
    requires n1 >= 2 && n2 >= 2
    ensures Pooled(n1, s1, n2, s2) == Pooled(n2, s2, n1, s1)
  {
    assert n1 + n2 - 2 == n2 + n1 - 2;
  }

  lemma PooledStdSwaps(baseline: seq<real>, intervention: seq<real>, m: Arithmetic)
    requires |baseline| >= 2 && |intervention| >= 2
    ensures PooledStd(intervention, baseline, m) == PooledStd(baseline, intervention, m)
  {
    PooledSwaps(|baseline|, Std(baseline, m), |intervention|, Std(intervention, m));
  }

  function NegatedEffect(d: Option<real>): Option<real> { if d.Some? then Some(-d.value) else None }

  lemma EffectOfSwaps(gap: real, other: real, sp: real)
    requires other == -gap
    ensures EffectOf(other, sp) == NegatedEffect(EffectOf(gap, sp))
  {
    if sp != 0.0 { NegatedQuotient(gap, sp); }
  }

  lemma EffectSwaps(baseline: seq<real>, intervention: seq<real>, m: Arithmetic)
    ensures CohensD(intervention, baseline, m) == NegatedEffect(CohensD(baseline, intervention, m))
  {
    if |baseline| >= 2 && |intervention| >= 2 {
      PooledStdSwaps(baseline, intervention, m);
      EffectOfSwaps(Mean(intervention) - Mean(baseline), Mean(baseline) - Mean(intervention),
        PooledStd(baseline, intervention, m));
    }
  }

  lemma EqualSizesPool(n: nat, s1: real, s2: real, total: real)
    requires n >= 2 && s1 * s1 + s2 * s2 == total
    ensures 2.0 * Pooled(n, s1, n, s2) == total
  {
    var k := (n - 1) as real;
    Distributes(k, s1 * s1, s2 * s2);
    assert (n + n - 2) as real == 2.0 * k;
    assert k * total == (total / 2.0) * (2.0 * k);
    CancelFactor(total / 2.0, 2.0 * k, k * total);
  }

  lemma SharesAdd(v1: real, v2: real, n: real)
    requires n > 0.0
    ensures n * (v1 / n + v2 / n) == v1 + v2
  {
    Distributes(n, v1 / n, v2 / n);
  }

  lemma PooledStdMeans(baseline: seq<real>, intervention: seq<real>, total: real, m: Arithmetic)
    requires Roots(m) && |baseline| == |intervention| >= 2
    requires total == Variance(baseline) + Variance(intervention) && total != 0.0
    ensures var sp := PooledStd(baseline, intervention, m); sp > 0.0 && 2.0 * (sp * sp) == total
  {
    StdSquared(baseline, m);
    StdSquared(intervention, m);
    VarianceNonNegative(baseline);
    VarianceNonNegative(intervention);
    EqualSizesPool(|baseline|, Std(baseline, m), Std(intervention, m), total);
    RootPositive(Pooled(|baseline|, Std(baseline, m), |baseline|, Std(intervention, m)), m);
  }

  lemma ErrorMeans(baseline: seq<real>, intervention: seq<real>, total: real, m: Arithmetic)
    requires Roots(m) && |baseline| == |intervention| >= 2
    requires total == Variance(baseline) + Variance(intervention) && total != 0.0
    ensures var v := Spread(baseline, m) + Spread(intervention, m);
            v > 0.0 && m.root(v) > 0.0 && (|baseline| as real) * (m.root(v) * m.root(v)) == total
  {
    var n := |baseline| as real;
    SpreadNonNegative(baseline, m);
    SpreadNonNegative(intervention, m);
    SharesAdd(Variance(baseline), Variance(intervention), n);
    RootPositive(Spread(baseline, m) + Spread(intervention, m), m);
  }

  /** The statistic and the effect are two forms of one number. */
  ghost predicate OneForm(t: Statistic, d: Option<real>, n: nat) {
    t.Finite? && d.Some? && 2.0 * (t.t * t.t) == (n as real) * (d.value * d.value)
  }

  lemma StatisticMatchesEffect(gap: real, e: Option<Error>, sp: real, n: nat, total: real)
    requires n > 0 && e.Some? && e.value.size > 0.0 && sp > 0.0
    requires (n as real) * (e.value.size * e.value.size) == total && 2.0 * (sp * sp) == total
    ensures OneForm(StatisticOf(gap, e), EffectOf(gap, sp), n)
  {
    OneNumber(gap, e.value.size, sp, n as real, total);
  }

  lemma ErrorIsNonZero(baseline: seq<real>, intervention: seq<real>, total: real, e: Option<Error>, m: Arithmetic)
    requires Roots(m) && |baseline| == |intervention| >= 2
    requires total == Variance(baseline) + Variance(intervention) && total != 0.0
    requires Spread(baseline, m) >= 0.0 && Spread(intervention, m) >= 0.0
    requires e == ErrorOf(Spread(baseline, m), Spread(intervention, m), |baseline|, |intervention|, m)
    ensures e.Some? && e.value.size > 0.0 && (|baseline| as real) * (e.value.size * e.value.size) == total
  {
    ErrorMeans(baseline, intervention, total, m);
  }

  lemma NonZeroError(baseline: seq<real>, intervention: seq<real>, gap: real, total: real, m: Arithmetic)
      returns (e: Option<Error>)
    requires Roots(m) && |baseline| == |intervention| >= 2 && gap == Mean(intervention) - Mean(baseline)
    requires total == Variance(baseline) + Variance(intervention) && total != 0.0
    ensures e.Some? && e.value.size > 0.0 && (|baseline| as real) * (e.value.size * e.value.size) == total
    ensures WelchTest(baseline, intervention, m).t == StatisticOf(gap, e)
  {
    SpreadNonNegative(baseline, m);
    SpreadNonNegative(intervention, m);
    e := ErrorOf(Spread(baseline, m), Spread(intervention, m), |baseline|, |intervention|, m);
    ErrorIsNonZero(baseline, intervention, total, e, m);
  }

  /** Both numbers of two arms of one size, from the same gap and the same total variance. */
  lemma TwoForms(baseline: seq<real>, intervention: seq<real>, m: Arithmetic)
      returns (gap: real, e: Option<Error>, sp: real, total: real)
    requires Roots(m) && |baseline| == |intervention| >= 2
    requires Variance(baseline) + Variance(intervention) != 0.0
    ensures e.Some? && e.value.size > 0.0 && sp > 0.0
    ensures (|baseline| as real) * (e.value.size * e.value.size) == total && 2.0 * (sp * sp) == total
    ensures WelchTest(baseline, intervention, m).t == StatisticOf(gap, e) &&
            CohensD(baseline, intervention, m) == EffectOf(gap, sp)
  {
    total := Variance(baseline) + Variance(intervention);
    gap := Mean(intervention) - Mean(baseline);
    sp := PooledStd(baseline, intervention, m);
    assert sp > 0.0 && 2.0 * (sp * sp) == total by { PooledStdMeans(baseline, intervention, total, m); }
    e := NonZeroError(baseline, intervention, gap, total, m);
  }

  /** With arms of one size n the test and the effect agree: 2 t^2 = n d^2. */
  lemma TestMatchesEffect(baseline: seq<real>, intervention: seq<real>, m: Arithmetic)
    requires Roots(m) && |baseline| == |intervention| >= 2
    requires Variance(baseline) + Variance(intervention) != 0.0
    ensures OneForm(WelchTest(baseline, intervention, m).t, CohensD(baseline, intervention, m), |baseline|)
  {
    var gap, e, sp, total := TwoForms(baseline, intervention, m);
    StatisticMatchesEffect(gap, e, sp, |baseline|, total);
  }

  lemma OneNumber(gap: real, e: real, sp: real, n: real, total: real)
    requires e > 0.0 && sp > 0.0 && n > 0.0 && n * (e * e) == total && 2.0 * (sp * sp) == total
    ensures 2.0 * ((gap / e) * (gap / e)) == n * ((gap / sp) * (gap / sp))
  {
    var t, d := gap / e, gap / sp;
    assert gap == t * e && gap == d * sp;
    SquareScales(t, e, t * t);
    SquareScales(d, sp, d * d);
    var q := e * e;
    ProductSign(e, e);
    assert (2.0 * (t * t)) * q == 2.0 * (gap * gap);
    assert (n * (d * d)) * q == (d * d) * (n * q);
    assert (d * d) * (2.0 * (sp * sp)) == 2.0 * (gap * gap);
    ProductSign(2.0 * (t * t) - n * (d * d), q);
    assert (2.0 * (t * t) - n * (d * d)) * q == (2.0 * (t * t)) * q - (n * (d * d)) * q;
  }

  // ------------------------------------------------------------------
  // The ship gate.

  function AfterLastSlash(name: string): string {
    if '/' in name then AfterLastSlash(name[1..]) else name
  }

  predicate EndsWith(name: string, suffix: string) {
    |suffix| <= |name| && name[|name| - |suffix|..] == suffix
  }

  predicate LowerIsBetter(name: string) {
    var bare := AfterLastSlash(name);
    EndsWith(if bare == "" then name else bare, "_max")
  }

  /** A view prefix does not change a metric's direction. */
  lemma {:induction false} ViewIsIgnored(view: string, bare: string)
    requires bare != "" && '/' !in bare
    ensures AfterLastSlash(view + "/" + bare) == bare
    ensures LowerIsBetter(view + "/" + bare) == LowerIsBetter(bare)
  {
    var name := view + "/" + bare;
    assert name[|view|] == '/';
    if view == "" {
      assert name[1..] == bare;
    } else {
      ViewIsIgnored(view[1..], bare);
      assert name[1..] == view[1..] + "/" + bare;
    }
  }

  datatype Comparison = Comparison(improvement: real, significant: bool, ships: bool, regressed: bool)

  function Gate(delta: real, lowerIsBetter: bool, p: real, pMax: real, effectMin: real): Comparison {
    var improvement := if lowerIsBetter then -delta else delta;
    var significant := p < pMax;
    Comparison(improvement, significant, significant && improvement > effectMin,
      significant && improvement < -effectMin)
  }

  function Compare(name: string, baseline: seq<real>, intervention: seq<real>, pMax: real, effectMin: real,
      m: Arithmetic): Comparison
    requires Roots(m)
  {
    Gate(Mean(intervention) - Mean(baseline), LowerIsBetter(name), WelchTest(baseline, intervention, m).p, pMax,
      effectMin)
  }

  /** One verdict is the other with the arms exchanged. */
  ghost predicate Opposite(c: Comparison, r: Comparison) {
    c.ships == r.regressed && c.regressed == r.ships && c.significant == r.significant &&
      r.improvement == -c.improvement
  }

  lemma GateTurns(delta: real, turned: real, lowerIsBetter: bool, p: real, pMax: real, effectMin: real)
    requires turned == -delta
    ensures Opposite(Gate(delta, lowerIsBetter, p, pMax, effectMin), Gate(turned, lowerIsBetter, p, pMax, effectMin))
  {
  }

  lemma SwappedP(baseline: seq<real>, intervention: seq<real>, m: Arithmetic)
    requires Roots(m)
    ensures WelchTest(intervention, baseline, m).p == WelchTest(baseline, intervention, m).p
  {
    SwappingNegates(baseline, intervention, m);
  }

  /** What ships one way round regresses the other way round, for every metric and gate. */
  lemma GateSwaps(name: string, baseline: seq<real>, intervention: seq<real>, pMax: real, effectMin: real,
      m: Arithmetic)
    requires Roots(m)
    ensures Opposite(Compare(name, baseline, intervention, pMax, effectMin, m),
            Compare(name, intervention, baseline, pMax, effectMin, m))
  {
    SwappedP(baseline, intervention, m);
    GateTurns(Mean(intervention) - Mean(baseline), Mean(baseline) - Mean(intervention), LowerIsBetter(name),
              WelchTest(baseline, intervention, m).p, pMax, effectMin);
  }

  /** A metric both ships and regresses only under a negative noise floor, and does neither on
      an arm of fewer than two runs as long as the bound on the p-value is one. */
  lemma GateIsExclusive(name: string, baseline: seq<real>, intervention: seq<real>, pMax: real, effectMin: real,
      m: Arithmetic)
    requires Roots(m)
    ensures var c := Compare(name, baseline, intervention, pMax, effectMin, m);
            && (effectMin >= 0.0 ==> !(c.ships && c.regressed))
            && (pMax <= 1.0 && (|baseline| < 2 || |intervention| < 2) ==> !c.ships && !c.regressed)
  {
    if |baseline| < 2 || |intervention| < 2 { assert WelchTest(baseline, intervention, m).p == 1.0; }
  }

  /** The bare name is what follows the last slash. */
  lemma {:induction false} BareName(name: string) returns (k: nat)
    ensures k <= |name| && AfterLastSlash(name) == name[k..] && '/' !in name[k..]
    ensures k > 0 ==> name[k - 1] == '/'
  {
    if '/' in name {
      var j := BareName(name[1..]);
      k := j + 1;
      assert name[1..][j..] == name[k..];
      assert name == [name[0]] + name[1..];
    } else {
      k := 0;
      assert name[0..] == name;
    }
  }

  lemma SuffixOfSuffix(name: string, k: nat, suffix: string)
    requires k <= |name| - |suffix|
    ensures EndsWith(name[k..], suffix) <==> EndsWith(name, suffix)
  {
    assert name[k..][|name[k..]| - |suffix|..] == name[|name| - |suffix|..];
  }

  /** A name that ends in a slash-free suffix has it whole in its bare name. */
  lemma BareSuffix(name: string, k: nat, suffix: string)
    requires k <= |name| && '/' !in suffix && (k > 0 ==> name[k - 1] == '/') && EndsWith(name, suffix)
    ensures k <= |name| - |suffix|
  {
    var n := |name| - |suffix|;
    forall i | n <= i < |name| ensures name[i] != '/' {
      assert name[i] == name[n..][i - n] == suffix[i - n];
    }
  }

  lemma SuffixOfBare(name: string, k: nat, suffix: string)
    requires k <= |name| && EndsWith(name[k..], suffix)
    ensures EndsWith(name, suffix)
  {
    SuffixOfSuffix(name, k, suffix);
  }

  /** Lower is better for exactly the names that end in `_max`, whatever their view. */
  lemma DirectionMeans(name: string)
    ensures LowerIsBetter(name) <==> exists stem :: name == stem + "_max"
  {
    var k := BareName(name);
    if stem :| name == stem + "_max" {
      assert name[|name| - 4..] == "_max";
      BareSuffix(name, k, "_max");
      SuffixOfSuffix(name, k, "_max");
    }
    if LowerIsBetter(name) {
      if name[k..] != "" { SuffixOfBare(name, k, "_max"); }
      assert name == name[..|name| - 4] + name[|name| - 4..];
    }
  }

  /** What ships has moved significantly, in the metric's better direction, and by more than the
      noise floor; what regresses, in the other. */
  lemma ShipsMeans(name: string, baseline: seq<real>, intervention: seq<real>, pMax: real, effectMin: real,
      m: Arithmetic)
    requires Roots(m)
    ensures var c := Compare(name, baseline, intervention, pMax, effectMin, m);
            var p := WelchTest(baseline, intervention, m).p;
            var drop := Mean(baseline) - Mean(intervention);
            if exists stem :: name == stem + "_max"
            then (c.ships <==> p < pMax && drop > effectMin) && (c.regressed <==> p < pMax && -drop > effectMin)
            else (c.ships <==> p < pMax && -drop > effectMin) && (c.regressed <==> p < pMax && drop > effectMin)
  {
    DirectionMeans(name);
  }

  // ------------------------------------------------------------------
  // The two ends of the test.

  lemma {:induction false} SumOfConstant(xs: seq<real>, b: real)
    requires forall i :: 0 <= i < |xs| ==> xs[i] == b
    ensures Sum(xs) == (|xs| as real) * b
  {
    if xs != [] {
      var n := |xs| - 1;
      SumOfConstant(xs[..n], b);
      assert ((n + 1) as real) * b == (n as real) * b + b;
    }
  }

  lemma ConstantArm(xs: seq<real>, b: real, m: Arithmetic)
    requires Roots(m) && |xs| >= 2 && forall i :: 0 <= i < |xs| ==> xs[i] == b
    ensures Mean(xs) == b && Variance(xs) == 0.0 && Spread(xs, m) == 0.0
  {
    SumOfConstant(xs, b);
    CancelFactor(b, |xs| as real, (|xs| as real) * b);
    var ds := Deviations(xs, b);
    forall i | 0 <= i < |ds| ensures ds[i] == 0.0 { SquareSign(xs[i] - b); }
    SumOfConstant(ds, 0.0);
    SpreadNonNegative(xs, m);
  }

  lemma NoSpreadVerdict(a: Arm, b: Arm, m: Arithmetic)
    requires Roots(m) && Testable(a) && Testable(b) && a.spread == b.spread == 0.0
    ensures TestOf(a, b, m) ==
            if b.mean > a.mean then Test(PlusInfinity, (a.n + b.n - 2) as real, 0.0)
            else if b.mean < a.mean then Test(MinusInfinity, (a.n + b.n - 2) as real, 0.0)
            else Test(Finite(0.0), (a.n + b.n - 2) as real, 1.0)
  {
  }

  /** Two arms that do not vary: a difference is certain and has its sign, or there is none; and
      there is no standardised effect unless the arms agree. */
  lemma ConstantArms(baseline: seq<real>, intervention: seq<real>, b: real, c: real, m: Arithmetic)
    requires Roots(m) && |baseline| >= 2 && |intervention| >= 2
    requires (forall i :: 0 <= i < |baseline| ==> baseline[i] == b) &&
             (forall i :: 0 <= i < |intervention| ==> intervention[i] == c)
    ensures var df := (|baseline| + |intervention| - 2) as real;
            WelchTest(baseline, intervention, m) ==
            if c > b then Test(PlusInfinity, df, 0.0)
            else if c < b then Test(MinusInfinity, df, 0.0) else Test(Finite(0.0), df, 1.0)
    ensures CohensD(baseline, intervention, m) == if b == c then Some(0.0) else None
  {
    ConstantArm(baseline, b, m);
    ConstantArm(intervention, c, m);
    NoSpreadVerdict(ArmOf(baseline, m), ArmOf(intervention, m), m);
    ConstantPool(baseline, intervention, m);
  }

  lemma ConstantPool(baseline: seq<real>, intervention: seq<real>, m: Arithmetic)
    requires Roots(m) && |baseline| >= 2 && |intervention| >= 2 && Variance(baseline) == Variance(intervention) == 0.0
    ensures PooledStd(baseline, intervention, m) == 0.0
  {
    StdSquared(baseline, m);
    StdSquared(intervention, m);
    var p, q := (|baseline| - 1) as real, (|intervention| - 1) as real;
    assert p * 0.0 + q * 0.0 == 0.0;
    assert m.root(0.0) * m.root(0.0) == 0.0;
    SquareSign(m.root(0.0));
  }

  lemma GapQuotient(gap: real, size: real)
    requires size > 0.0
    ensures gap / size > 0.0 <==> gap > 0.0
    ensures gap / size == 0.0 <==> gap == 0.0
  {
    assert gap == (gap / size) * size;
    ProductSign(gap / size, size);
  }

  lemma SpreadsVary(baseline: seq<real>, intervention: seq<real>, m: Arithmetic)
    requires Roots(m) && |baseline| >= 2 && |intervention| >= 2 && Variance(baseline) + Variance(intervention) != 0.0
    ensures Spread(baseline, m) >= 0.0 && Spread(intervention, m) >= 0.0
    ensures Spread(baseline, m) + Spread(intervention, m) > 0.0
  {
    SpreadNonNegative(baseline, m);
    SpreadNonNegative(intervention, m);
    VarianceNonNegative(baseline);
    VarianceNonNegative(intervention);
    QuotientSign(Variance(baseline), |baseline| as real);
    QuotientSign(Variance(intervention), |intervention| as real);
  }

  /** Both tails of Student's distribution at a finite statistic that is not zero; none of it
      lies beyond an infinite one. */
  lemma TailMeans(t: real, df: real, m: Arithmetic)
    requires df > 0.0 && t != 0.0
    ensures StudentTwoSidedP(PlusInfinity, df, m) == StudentTwoSidedP(MinusInfinity, df, m) == 0.0
    ensures df + t * t > 0.0
    ensures StudentTwoSidedP(Finite(t), df, m) == m.beta(df / 2.0, 1.0 / 2.0, df / (df + t * t))
  {
    SquareSign(t);
  }

  lemma SpreadVerdict(a: Arm, b: Arm, m: Arithmetic)
    requires Roots(m) && Testable(a) && Testable(b) && a.spread + b.spread > 0.0 && a.mean != b.mean
    ensures var r := TestOf(a, b, m);
            r.t.Finite? && r.t.t != 0.0 && r.df > 0.0 && (r.t.t > 0.0 <==> b.mean > a.mean) &&
            r.p == StudentTwoSidedP(r.t, r.df, m)
  {
    FreedomBounds(a.spread, b.spread, a.n, b.n);
    RootPositive(a.spread + b.spread, m);
    GapQuotient(b.mean - a.mean, m.root(a.spread + b.spread));
  }

  /** Arms that vary and differ in their means: the statistic is finite and has the sign of the
      difference, and the p-value is both tails at it. */
  lemma VaryingArms(baseline: seq<real>, intervention: seq<real>, m: Arithmetic)
    requires Roots(m) && |baseline| >= 2 && |intervention| >= 2 && Mean(baseline) != Mean(intervention)
    requires Variance(baseline) + Variance(intervention) != 0.0
    ensures var r := WelchTest(baseline, intervention, m);
            r.t.Finite? && r.t.t != 0.0 && r.df > 0.0 && (r.t.t > 0.0 <==> Mean(intervention) > Mean(baseline)) &&
            r.p == StudentTwoSidedP(r.t, r.df, m)
  {
    SpreadsVary(baseline, intervention, m);
    SpreadVerdict(ArmOf(baseline, m), ArmOf(intervention, m), m);
  }
}
