// Exact-real descriptive statistics used by the scripts: sums, means, the
// sample (n - 1) variance in its two-pass and one-pass forms, minimum and
// maximum.  Square roots are not modelled: every "SD" is kept as a variance.

module Stats {
  import opened Wrappers

  /** `std::numeric_limits<double>::max()`, the C++ sentinel for "no minimum yet". */
  const DoubleMax: real := 179769313486231570814527423731704356798070567525844996598917476803157260780028538760589558632766878171540458953514382464234321326889464182768467546703537516986049910576551282076245490090389328944075868508455133942304583236903222948165808559332123348274797826204144723168738177180919299881250404026184124858368.0

  /** `std::numeric_limits<double>::lowest()`, the sentinel for "no maximum yet". */
  const DoubleLowest: real := -DoubleMax

  function Sum(xs: seq<real>): real {
    if xs == [] then 0.0 else Sum(xs[..|xs| - 1]) + xs[|xs| - 1]
  }

  function SumSq(xs: seq<real>): real {
    if xs == [] then 0.0 else SumSq(xs[..|xs| - 1]) + xs[|xs| - 1] * xs[|xs| - 1]
  }

  /** Sum of squared deviations from `m`. */
  function SqDev(xs: seq<real>, m: real): real {
    if xs == [] then 0.0
    else SqDev(xs[..|xs| - 1], m) + (xs[|xs| - 1] - m) * (xs[|xs| - 1] - m)
  }

  function Mean(xs: seq<real>): real
    requires |xs| > 0
  {
    Sum(xs) / (|xs| as real)
  }

  lemma MeanSingle(x: real)
    ensures Mean([x]) == x
  {
    assert [x][..0] == [];
    assert Sum([x]) == x;
  }

  lemma SumAppend(xs: seq<real>, x: real)
    ensures Sum(xs + [x]) == Sum(xs) + x
    ensures SumSq(xs + [x]) == SumSq(xs) + x * x
  {
    assert (xs + [x])[..|xs|] == xs;
  }

  lemma Square(y: real)
    ensures y * y >= 0.0
  {
  }

  lemma {:induction false} SqDevNonNeg(xs: seq<real>, m: real)
    ensures SqDev(xs, m) >= 0.0
  {
    if xs != [] {
      SqDevNonNeg(xs[..|xs| - 1], m);
      Square(xs[|xs| - 1] - m);
    }
  }

  /** Sample variance, the two-pass definition: sum of (x - mean)^2 over n - 1. */
  function Variance(xs: seq<real>): (v: real)
    requires |xs| >= 2
    ensures v >= 0.0
  {
    SqDevNonNeg(xs, Mean(xs));
    SqDev(xs, Mean(xs)) / ((|xs| - 1) as real)
  }

  /** Expanding the squares: sum (x - m)^2 = sum x^2 - 2 m sum x + n m^2. */
  lemma {:induction false} SqDevExpand(xs: seq<real>, m: real)
    ensures SqDev(xs, m) == SumSq(xs) - 2.0 * m * Sum(xs) + (|xs| as real) * m * m
  {
    if xs != [] {
      var p := xs[..|xs| - 1];
      var x := xs[|xs| - 1];
      SqDevExpand(p, m);
      ExpandStep(SqDev(p, m), SumSq(p), Sum(p), |p| as real, x, m);
    }
  }

  lemma ExpandStep(d: real, q: real, s: real, n: real, x: real, m: real)
    requires d == q - 2.0 * m * s + n * m * m
    ensures d + (x - m) * (x - m) == (q + x * x) - 2.0 * m * (s + x) + (n + 1.0) * m * m
  {
  }

  /** The one-pass variance formula (sumSq - sum^2 / n) / (n - 1) of the C++ tools. */
  function OnePassVar(sum: real, sumSq: real, n: nat): real
    requires n >= 2
  {
    (sumSq - sum * sum / (n as real)) / ((n - 1) as real)
  }

  /** The one-pass formula computes the two-pass sample variance. */
  lemma OnePassVariance(xs: seq<real>)
    requires |xs| >= 2
    ensures OnePassVar(Sum(xs), SumSq(xs), |xs|) == Variance(xs)
  {
    OnePassAt(xs, Sum(xs), SumSq(xs), SqDev(xs, Mean(xs)), Mean(xs));
  }

  // The sums are bound to plain reals by the preconditions, so that the goals
  // below mention no recursive function and the arithmetic stays small.
  lemma OnePassAt(xs: seq<real>, s: real, q: real, d: real, m: real)
    requires |xs| >= 2 && s == Sum(xs) && q == SumSq(xs) && m == Mean(xs) && d == SqDev(xs, m)
    ensures OnePassVar(s, q, |xs|) == d / ((|xs| - 1) as real)
  {
    SqDevAtMean(xs, d, q, s, |xs| as real, m);
    OnePassDivide(s, q, |xs|, d);
  }

  /** Around the mean, the squared deviations sum to sumSq - sum^2 / n. */
  lemma SqDevAtMean(xs: seq<real>, d: real, q: real, s: real, n: real, m: real)
    requires |xs| > 0 && n == |xs| as real
    requires d == SqDev(xs, m) && q == SumSq(xs) && s == Sum(xs) && m == Mean(xs)
    ensures d == q - s * s / n
  {
    SqDevExpand(xs, m);
    AtMean(q, s, n, m);
  }

  /** With m = s / n, q - 2 m s + n m^2 = q - s^2 / n. */
  lemma AtMean(q: real, s: real, n: real, m: real)
    requires n > 0.0 && m == s / n
    ensures q - 2.0 * m * s + n * m * m == q - s * s / n
  {
    assert n * m == s;
  }

  lemma OnePassDivide(sum: real, sumSq: real, n: nat, d: real)
    requires n >= 2 && d == sumSq - sum * sum / (n as real)
    ensures OnePassVar(sum, sumSq, n) == d / ((n - 1) as real)
  {
  }

  /**
   * What the one-pass tools compute from their sums: the mean, the value
   * itself for a single value, and the sample variance from two values on.
   */
  lemma Moments(xs: seq<real>, s: real, q: real, n: nat)
    requires n == |xs| > 0 && s == Sum(xs) && q == SumSq(xs)
    ensures s / (n as real) == Mean(xs)
    ensures n == 1 ==> s / (n as real) == xs[0]
    ensures n >= 2 ==> OnePassVar(s, q, n) == Variance(xs)
  {
    if n == 1 {
      assert xs == [xs[0]];
      MeanSingle(xs[0]);
    } else {
      OnePassVariance(xs);
    }
  }

  function Min(xs: seq<real>): (m: real)
    requires |xs| > 0
    ensures m in xs
    ensures forall i :: 0 <= i < |xs| ==> m <= xs[i]
  {
    if |xs| == 1 then xs[0]
    else
      var p := Min(xs[..|xs| - 1]);
      if xs[|xs| - 1] < p then xs[|xs| - 1] else p
  }

  function Max(xs: seq<real>): (m: real)
    requires |xs| > 0
    ensures m in xs
    ensures forall i :: 0 <= i < |xs| ==> xs[i] <= m
  {
    if |xs| == 1 then xs[0]
    else
      var p := Max(xs[..|xs| - 1]);
      if xs[|xs| - 1] > p then xs[|xs| - 1] else p
  }

  lemma {:induction false} SumBounds(xs: seq<real>, lo: real, hi: real)
    requires forall i :: 0 <= i < |xs| ==> lo <= xs[i] <= hi
    ensures (|xs| as real) * lo <= Sum(xs) <= (|xs| as real) * hi
  {
    if xs != [] {
      var p := xs[..|xs| - 1];
      SumBounds(p, lo, hi);
      BoundsStep(Sum(p), |p| as real, xs[|xs| - 1], lo, hi);
    }
  }

  lemma BoundsStep(s: real, n: real, x: real, lo: real, hi: real)
    requires n * lo <= s <= n * hi && lo <= x <= hi
    ensures (n + 1.0) * lo <= s + x <= (n + 1.0) * hi
  {
  }

  lemma DivBounds(s: real, n: real, lo: real, hi: real)
    requires n > 0.0 && n * lo <= s <= n * hi
    ensures lo <= s / n <= hi
  {
  }

  /** A mean lies within any bounds of its values. */
  lemma MeanWithin(xs: seq<real>, lo: real, hi: real)
    requires |xs| > 0
    requires forall i :: 0 <= i < |xs| ==> lo <= xs[i] <= hi
    ensures lo <= Mean(xs) <= hi
  {
    SumBounds(xs, lo, hi);
    DivBounds(Sum(xs), |xs| as real, lo, hi);
  }

  /** The mean lies between the minimum and the maximum. */
  lemma MeanBetween(xs: seq<real>)
    requires |xs| > 0
    ensures Min(xs) <= Mean(xs) <= Max(xs)
  {
    MeanWithin(xs, Min(xs), Max(xs));
  }

  datatype Summary = Summary(mean: real, variance: real, min: real, max: real)

  /**
   * `stats_from_speeds` / `stats_from_list`: mean, sample variance, minimum
   * and maximum, or nothing (four NaNs) for fewer than two values.
   */
  function Describe(xs: seq<real>): (r: Option<Summary>)
    ensures r.Some? <==> |xs| >= 2
    ensures r.Some? ==> r.value.min in xs && r.value.max in xs
    ensures r.Some? ==> r.value.min <= r.value.mean <= r.value.max
    ensures r.Some? ==> forall i :: 0 <= i < |xs| ==> r.value.min <= xs[i] <= r.value.max
    ensures r.Some? ==> r.value.mean == Mean(xs) && r.value.variance == Variance(xs)
  {
    if |xs| < 2 then None
    else
      MeanBetween(xs);
      Some(Summary(Mean(xs), Variance(xs), Min(xs), Max(xs)))
  }
}
