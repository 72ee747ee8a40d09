// The aggregators at the end of the pupil and luminance pipeline: the running
// `Stats` accumulator of pupilsizecal.cpp and luminanceexpected.cpp, the
// per-file average that ignores -1, the batch statistics of luminance.cpp and
// the record loop of pupilsize.cpp.  All arithmetic is exact: floating-point
// rounding is not modelled.

module Aggregate {
  import opened Wrappers
  import opened Lists
  import opened Stats
  import opened Sections
  import PupilSize
  import PupilReport

  /** `std::min(a, b)`: `b` when it is smaller, else `a`. */
  function MinOf(a: real, b: real): real { if b < a then b else a }

  /** `std::max(a, b)`: `b` when it is larger, else `a`. */
  function MaxOf(a: real, b: real): real { if a < b then b else a }

  /** The running minimum, started from the "no minimum yet" sentinel. */
  function RunningMin(xs: seq<real>): real {
    if xs == [] then DoubleMax else MinOf(RunningMin(xs[..|xs| - 1]), xs[|xs| - 1])
  }

  /** The running maximum, started from the "no maximum yet" sentinel. */
  function RunningMax(xs: seq<real>): real {
    if xs == [] then DoubleLowest else MaxOf(RunningMax(xs[..|xs| - 1]), xs[|xs| - 1])
  }

  lemma RunningStep(xs: seq<real>, v: real)
    ensures RunningMin(xs + [v]) == MinOf(RunningMin(xs), v)
    ensures RunningMax(xs + [v]) == MaxOf(RunningMax(xs), v)
  {
    assert (xs + [v])[..|xs|] == xs;
  }

  /** The sentinels never hide a value: the running extremes bracket every value seen. */
  lemma {:induction false} RunningBounds(xs: seq<real>)
    requires xs != []
    ensures RunningMin(xs) <= Min(xs) && Max(xs) <= RunningMax(xs)
  {
    if |xs| > 1 {
      RunningBounds(xs[..|xs| - 1]);
    }
  }

  /** Once a value is seen, and every value is a double, the running extremes are the true ones. */
  lemma {:induction false} RunningExtremes(xs: seq<real>)
    requires xs != []
    requires forall k :: 0 <= k < |xs| ==> DoubleLowest <= xs[k] <= DoubleMax
    ensures RunningMin(xs) == Min(xs) && RunningMax(xs) == Max(xs)
  {
    if |xs| > 1 {
      RunningExtremes(xs[..|xs| - 1]);
    }
  }

  /** The values other than -1. */
  function Used(xs: seq<real>): seq<real> {
    PupilSize.Used(xs)
  }

  lemma UsedSnoc(xs: seq<real>, x: real)
    ensures Used(xs + [x]) == Used(xs) + if x != -1.0 then [x] else []
  {
    assert (xs + [x])[..|xs|] == xs;
  }

  /** One more value of a prefix: it is used unless it is -1. */
  lemma UsedPrefix(vals: seq<real>, i: nat)
    requires i < |vals|
    ensures Used(vals[..i + 1]) == if vals[i] != -1.0 then Used(vals[..i]) + [vals[i]] else Used(vals[..i])
  {
    assert vals[..i + 1] == vals[..i] + [vals[i]];
    UsedSnoc(vals[..i], vals[i]);
  }

  // ---------------------------------------------------------------- Stats

  /** The accumulated fields are those of `values`, none of which is -1. */
  ghost predicate Tracks(sum: real, sumSq: real, count: nat, minVal: real, maxVal: real, values: seq<real>) {
    && sum == Sum(values) && sumSq == SumSq(values) && count == |values|
    && minVal == RunningMin(values) && maxVal == RunningMax(values)
    && -1.0 !in values
  }

  /** `updateStats` keeps the fields in step with the values, and brackets the new value. */
  lemma TracksStep(sum: real, sumSq: real, count: nat, minVal: real, maxVal: real, values: seq<real>, v: real)
    requires Tracks(sum, sumSq, count, minVal, maxVal, values) && v != -1.0
    ensures Tracks(sum + v, sumSq + v * v, count + 1, MinOf(minVal, v), MaxOf(maxVal, v), values + [v])
    ensures MinOf(minVal, v) <= v <= MaxOf(maxVal, v)
  {
    RunningStep(values, v);
    SumAppend(values, v);
  }

  /**
   * The `Stats` struct: the running sum, sum of squares, count, minimum and
   * maximum of the values taken in, which never include -1.
   */
  class Accumulator {
    var sum: real
    var sumSq: real
    var count: nat
    var minVal: real
    var maxVal: real
    /** The values taken in so far, in order. */
    ghost var values: seq<real>

    ghost predicate Valid()
      reads this
    {
      Tracks(sum, sumSq, count, minVal, maxVal, values)
    }

    constructor()
      ensures Valid() && values == []
    {
      sum, sumSq, count := 0.0, 0.0, 0;
      minVal, maxVal := DoubleMax, DoubleLowest;
      values := [];
    }

    /** `updateStats`: -1 is ignored; any other value is taken in. */
    method Update(value: real)
      requires Valid()
      modifies this
      ensures Valid()
      ensures values == if value == -1.0 then old(values) else old(values) + [value]
      ensures value != -1.0 ==> minVal <= value <= maxVal
    {
      if value == -1.0 {
        return;
      }
      TracksStep(sum, sumSq, count, minVal, maxVal, values, value);
      sum := sum + value;
      sumSq := sumSq + value * value;
      count := count + 1;
      minVal := MinOf(minVal, value);
      maxVal := MaxOf(maxVal, value);
      values := values + [value];
    }

    /**
     * `computeMeanVariance`: (0, 0) without values; otherwise the mean, and
     * the sample variance, which is 0 for a single value.
     */
    function MeanVariance(): (r: (real, real))
      reads this
      requires Valid()
      ensures values == [] ==> r == (0.0, 0.0)
      ensures |values| == 1 ==> r == (values[0], 0.0)
      ensures |values| >= 2 ==> r == (Mean(values), Variance(values))
    {
      if count == 0 then (0.0, 0.0)
      else
        Moments(values, sum, sumSq, count);
        (sum / (count as real), if count > 1 then OnePassVar(sum, sumSq, count) else 0.0)
    }

    /**
     * `computeAndPrintStats`: no data without values; otherwise the mean,
     * the variance of `MeanVariance`, and the running extremes around the mean.
     */
    function Report(): (r: Option<Summary>)
      reads this
      requires Valid()
      ensures r.None? <==> values == []
      ensures r.Some? ==> r.value.mean == Mean(values)
      ensures r.Some? ==> r.value.variance == if |values| >= 2 then Variance(values) else 0.0
      ensures r.Some? ==> r.value.min == RunningMin(values) && r.value.max == RunningMax(values)
      ensures r.Some? ==> r.value.min <= r.value.mean <= r.value.max
    {
      if count == 0 then None
      else
        RunningBounds(values);
        MeanBetween(values);
        var mv := MeanVariance();
        Some(Summary(mv.0, mv.1, minVal, maxVal))
    }
  }

  /** A fresh `Stats` updated with every value of `xs`, in order. */
  method Summarize(xs: seq<real>) returns (s: Accumulator)
    ensures s.Valid() && s.values == Used(xs)
  {
    s := new Accumulator();
    for i := 0 to |xs|
      invariant s.Valid() && s.values == Used(xs[..i])
    {
      UsedPrefix(xs, i);
      s.Update(xs[i]);
    }
    assert xs[..|xs|] == xs;
  }

  /** The running minimum and maximum of a collection of doubles are its true extremes. */
  lemma SummarizedExtremes(xs: seq<real>)
    requires Used(xs) != []
    requires forall k :: 0 <= k < |xs| ==> DoubleLowest <= xs[k] <= DoubleMax
    ensures RunningMin(Used(xs)) == Min(Used(xs)) && RunningMax(Used(xs)) == Max(Used(xs))
  {
    var u := Used(xs);
    forall k | 0 <= k < |u| ensures DoubleLowest <= u[k] <= DoubleMax {
      var j :| 0 <= j < |xs| && xs[j] == u[k];
    }
    RunningExtremes(u);
  }

  // ---------------------------------------------------------------- per-file average

  /** One more value of `computeFileAvg`'s loop: the sum and count take it unless it is -1. */
  lemma AvgStep(vals: seq<real>, i: nat, sum: real, count: nat)
    requires i < |vals| && sum == Sum(Used(vals[..i])) && count == |Used(vals[..i])|
    ensures vals[i] != -1.0 ==> sum + vals[i] == Sum(Used(vals[..i + 1])) && count + 1 == |Used(vals[..i + 1])|
    ensures vals[i] == -1.0 ==> sum == Sum(Used(vals[..i + 1])) && count == |Used(vals[..i + 1])|
  {
    UsedPrefix(vals, i);
    SumAppend(Used(vals[..i]), vals[i]);
  }

  /** `computeFileAvg`: the mean of the values other than -1, or -1 when there is none. */
  method FileAvg(vals: seq<real>) returns (avg: real)
    ensures Used(vals) == [] ==> avg == -1.0
    ensures Used(vals) != [] ==> avg == Mean(Used(vals))
  {
    var sum := 0.0;
    var count: nat := 0;
    for i := 0 to |vals|
      invariant sum == Sum(Used(vals[..i])) && count == |Used(vals[..i])|
    {
      AvgStep(vals, i, sum, count);
      if vals[i] != -1.0 {
        sum := sum + vals[i];
        count := count + 1;
      }
    }
    assert vals[..|vals|] == vals;
    avg := if count > 0 then sum / (count as real) else -1.0;
  }

  /** What one file contributes per person: its average, unless that is the -1 marker. */
  function PersonEntry(vals: seq<real>): Option<real> {
    if Used(vals) == [] || Mean(Used(vals)) == -1.0 then None else Some(Mean(Used(vals)))
  }

  /**
   * With values that are never negative (pupil sizes, expected sizes), a file
   * counts per person exactly when it has a value other than -1.
   */
  lemma PersonEntryWhenValid(vals: seq<real>)
    requires forall k :: 0 <= k < |vals| ==> vals[k] == -1.0 || vals[k] >= 0.0
    ensures PersonEntry(vals).Some? <==> Used(vals) != []
    ensures PersonEntry(vals).Some? ==> PersonEntry(vals).value >= 0.0
  {
    var u := Used(vals);
    if u != [] {
      forall k | 0 <= k < |u| ensures 0.0 <= u[k] <= Max(u) {
        var j :| 0 <= j < |vals| && vals[j] == u[k];
      }
      MeanWithin(u, 0.0, Max(u));
    }
  }

  /** `if (avg != -1) updateStats(person, avg)`, with `avg` from `computeFileAvg`. */
  method AddPerson(person: Accumulator, vals: seq<real>)
    requires person.Valid()
    modifies person
    ensures person.Valid()
    ensures person.values == PupilReport.Keep(old(person.values), PersonEntry(vals))
  {
    var avg := FileAvg(vals);
    if avg != -1.0 {
      person.Update(avg);
    }
  }
}
