// Pupil-size windows around the crisis time (pupilsize.py): the relaxed
// header matching, the per-window value collection with configurable
// boundary inclusivity, and the statistics that drop -1 placeholders.

module PupilSize {
  import opened Wrappers
  import opened Text
  import opened Columns
  import opened Lists
  import opened Stats

  // ------------------------------------------------------------ headers

  /**
   * `find_pupil_cols(header)`: the first column whose token contains
   * "leftpupil", and independently the first containing "rightpupil".
   */
  method FindPupilCols(header: seq<string>) returns (left: int, right: int)
    ensures left == FirstFrom(Tokens(header), Mentions("leftpupil"), 0)
    ensures right == FirstFrom(Tokens(header), Mentions("rightpupil"), 0)
  {
    left, right := FindFirstTwo(Tokens(header), Mentions("leftpupil"), Mentions("rightpupil"));
  }

  /**
   * The time column of `main`: a column named exactly "Time", else the
   * first whose token is "time"; -1 for none.
   */
  function TimeCol(header: seq<string>): (r: int)
    ensures -1 <= r < |header|
    ensures IndexOf(header, "Time") != -1 ==> r == IndexOf(header, "Time")
    ensures r == -1 <==> IndexOf(header, "Time") == -1 && NoTimeToken(header)
    ensures IndexOf(header, "Time") == -1 && r != -1 ==>
              Tokens(header)[r] == "time" && forall k :: 0 <= k < r ==> Tokens(header)[k] != "time"
  {
    var e := IndexOf(header, "Time");
    if e != -1 then e
    else
      var tokens := Tokens(header);
      var f := FirstFrom(tokens, (t: string) => t == "time", 0);
      assert f != -1 ==> tokens[f] == "time";
      f
  }

  /** No header normalizes to "time". */
  predicate NoTimeToken(header: seq<string>) {
    forall k :: 0 <= k < |header| ==> Tokens(header)[k] != "time"
  }

  // ------------------------------------------------------------ statistics

  predicate IsPlaceholder(v: real) { v == -1.0 }

  datatype Diag = Diag(total: nat, dropped: nat, used: nat, sdNan: bool, minNan: bool)

  /** Mean, variance (for the sample SD), max and min; `None` is NaN. */
  datatype WindowStats = WindowStats(mean: Option<real>, variance: Option<real>,
                                     max: Option<real>, min: Option<real>)

  const NoStats: WindowStats := WindowStats(None, None, None, None)

  function Used(values: seq<real>): seq<real> {
    Filter(values, (v: real) => !IsPlaceholder(v))
  }

  function NonNeg(vals: seq<real>): seq<real> {
    Filter(vals, (v: real) => v >= 0.0)
  }

  /**
   * `compute_stats_and_n(values)`: -1 values are dropped; the SD needs two
   * values; the minimum is over the non-negative values only.
   */
  function ComputeStatsAndN(values: seq<real>): (res: (WindowStats, nat, Diag))
    ensures res.1 == res.2.used == |Used(values)| && res.2.total == |values|
    ensures res.2.dropped == Count(values, IsPlaceholder)
  {
    var vals := Used(values);
    var n := |vals|;
    var dropped := Count(values, IsPlaceholder);
    if n == 0 then (NoStats, 0, Diag(|values|, dropped, 0, false, false))
    else
      var sd := SampleVariance(vals);
      var mn := MinNonNeg(vals);
      (WindowStats(Some(Mean(vals)), sd, Some(Max(vals)), mn), n, Diag(|values|, dropped, n, sd.None?, mn.None?))
  }

  /** `np.std(vals, ddof=1) if n_used > 1 else nan`, as a variance. */
  function SampleVariance(vals: seq<real>): Option<real> {
    if |vals| > 1 then Some(Variance(vals)) else None
  }

  /** `np.min(nonneg) if nonneg else nan`. */
  function MinNonNeg(vals: seq<real>): Option<real> {
    var nonneg := NonNeg(vals);
    if nonneg != [] then Some(Min(nonneg)) else None
  }

  /** used_after_drop = total_in_window - dropped_-1, and no -1 is among the used values. */
  lemma UsedAfterDrop(values: seq<real>)
    ensures var d := ComputeStatsAndN(values).2; d.used == d.total - d.dropped
    ensures forall k :: 0 <= k < |Used(values)| ==> Used(values)[k] != -1.0
  {
    CountComplement(values, IsPlaceholder, (v: real) => !IsPlaceholder(v));
  }

  /** No usable value gives four NaNs and n = 0; one value gives a NaN SD flagged as such. */
  lemma FewValues(values: seq<real>)
    ensures |Used(values)| == 0 ==> ComputeStatsAndN(values).0 == NoStats && ComputeStatsAndN(values).1 == 0
    ensures |Used(values)| == 1 ==>
              ComputeStatsAndN(values).0.variance.None? && ComputeStatsAndN(values).2.sdNan
              && ComputeStatsAndN(values).0.mean == Some(Used(values)[0])
    ensures |Used(values)| >= 2 ==>
              ComputeStatsAndN(values).0.variance == Some(Variance(Used(values)))
              && !ComputeStatsAndN(values).2.sdNan
  {
    var vals := Used(values);
    if |vals| == 1 {
      assert vals == [vals[0]];
      MeanSingle(vals[0]);
    }
  }

  /**
   * The minimum is over the non-negative values and is NaN exactly when there
   * is none; it never exceeds the maximum, which is over all used values.
   */
  lemma MinMax(values: seq<real>, vals: seq<real>, s: WindowStats)
    requires vals == Used(values) && s == ComputeStatsAndN(values).0
    ensures |vals| > 0 ==> s.max.Some? && s.max.value in vals && forall k :: 0 <= k < |vals| ==> vals[k] <= s.max.value
    ensures s.min.Some? <==> NonNeg(vals) != []
    ensures s.min.Some? ==> s.min.value >= 0.0 && s.min.value in vals
    ensures s.min.Some? ==> forall k :: 0 <= k < |vals| && vals[k] >= 0.0 ==> s.min.value <= vals[k]
    ensures s.min.Some? && s.max.Some? ==> s.min.value <= s.max.value
  {
    var nonneg := NonNeg(vals);
    if nonneg != [] {
      var m := Min(nonneg);
      assert m in vals;
      forall k | 0 <= k < |vals| && vals[k] >= 0.0 ensures m <= vals[k] {
        FilterKeeps(vals, (v: real) => v >= 0.0, k);
      }
    }
  }

  /** An element that satisfies the condition is in the filtered list. */
  lemma {:induction false} FilterKeeps<T>(xs: seq<T>, p: T -> bool, k: int)
    requires 0 <= k < |xs| && p(xs[k])
    ensures xs[k] in Filter(xs, p)
  {
    if k < |xs| - 1 {
      FilterKeeps(xs[..|xs| - 1], p, k);
    }
  }

  // ------------------------------------------------------------ windows

  /** A window edge: absent (an infinite bound) or at t, inclusive or not. */
  datatype Bound = Unbounded | At(t: real, inclusive: bool)

  /** Inside the window: past the start (or on it when the start is inclusive) and before the end (or on it when the end is inclusive). */
  predicate InWindow(ti: real, start: Bound, end: Bound) {
    (match start
     case Unbounded => true
     case At(s, inc) => ti > s || (inc && ti == s))
    &&
    (match end
     case Unbounded => true
     case At(e, inc) => ti < e || (inc && ti == e))
  }

  /** `float(cell) if cell != "" else nan`, keeping only finite values. */
  function CellValue(s: string, parse: string -> Option<real>): Option<real> {
    if s == "" then None else parse(s)
  }

  /** The values of the first n rows whose time lies in the window, in order. */
  function Collect(times: seq<Option<real>>, cells: seq<string>, start: Bound, end: Bound,
                   parse: string -> Option<real>, n: nat): (r: seq<real>)
    requires |cells| == |times| && n <= |times|
    ensures |r| <= n
  {
    if n == 0 then []
    else
      var k := n - 1;
      Collect(times, cells, start, end, parse, k)
      + if times[k].Some? && InWindow(times[k].value, start, end) && CellValue(cells[k], parse).Some?
        then [CellValue(cells[k], parse).value] else []
  }

  predicate AnyFinite(times: seq<Option<real>>) {
    exists k :: 0 <= k < |times| && times[k].Some?
  }

  /**
   * `extract_window_stats(times, left, right, t_start, t_end, ...)`: the left and
   * right statistics of the values whose time lies in the window.
   */
  method ExtractWindowStats(times: seq<Option<real>>, left: seq<string>, right: seq<string>,
                            start: Bound, end: Bound, parse: string -> Option<real>)
    returns (l: (WindowStats, nat, Diag), r: (WindowStats, nat, Diag))
    requires |left| == |times| && |right| == |times|
    ensures !AnyFinite(times) ==> l == r == (NoStats, 0, Diag(0, 0, 0, false, false))
    ensures AnyFinite(times) ==>
              l == ComputeStatsAndN(Collect(times, left, start, end, parse, |times|))
              && r == ComputeStatsAndN(Collect(times, right, start, end, parse, |times|))
  {
    var anyFinite := false;
    for k := 0 to |times|
      invariant anyFinite <==> exists j :: 0 <= j < k && times[j].Some?
    {
      if times[k].Some? {
        anyFinite := true;
      }
    }
    if !anyFinite {
      var empty := (NoStats, 0, Diag(0, 0, 0, false, false));
      return empty, empty;
    }
    var lvals, rvals := [], [];
    for i := 0 to |times|
      invariant lvals == Collect(times, left, start, end, parse, i)
      invariant rvals == Collect(times, right, start, end, parse, i)
    {
      if times[i].Some? && InWindow(times[i].value, start, end) {
        var lv := if left[i] != "" then parse(left[i]) else None;
        var rv := if right[i] != "" then parse(right[i]) else None;
        if lv.Some? {
          lvals := lvals + [lv.value];
        }
        if rv.Some? {
          rvals := rvals + [rv.value];
        }
      }
    }
    l := ComputeStatsAndN(lvals);
    r := ComputeStatsAndN(rvals);
  }

  /** The no-finite-time shortcut gives what the loop would give anyway. */
  lemma {:induction false} NoFiniteSameAsEmpty(times: seq<Option<real>>, cells: seq<string>, start: Bound, end: Bound,
                                               parse: string -> Option<real>, n: nat)
    requires |cells| == |times| && n <= |times| && !AnyFinite(times)
    ensures Collect(times, cells, start, end, parse, n) == []
    ensures ComputeStatsAndN(Collect(times, cells, start, end, parse, n)) == (NoStats, 0, Diag(0, 0, 0, false, false))
  {
    if n > 0 {
      NoFiniteSameAsEmpty(times, cells, start, end, parse, n - 1);
      assert !times[n - 1].Some?;
    }
  }

  /** The four windows of `main` around crisis time c. */
  function Pre5Start(c: real): Bound { At(c - 5.0, true) }
  function Pre5End(c: real): Bound { At(c, false) }
  function Post5Start(c: real): Bound { At(c, true) }
  function Post5End(c: real): Bound { At(c + 5.0, true) }

  /**
   * The full-pre window (-inf, c) and the full-post window [c, inf) split
   * every time; the five-second windows lie inside them, and the crisis
   * instant itself is post.
   */
  lemma WindowsPartition(c: real, ti: real)
    ensures InWindow(ti, Unbounded, At(c, false)) != InWindow(ti, At(c, true), Unbounded)
    ensures InWindow(ti, Pre5Start(c), Pre5End(c)) ==> InWindow(ti, Unbounded, At(c, false))
    ensures InWindow(ti, Pre5Start(c), Pre5End(c)) <==> c - 5.0 <= ti < c
    ensures InWindow(ti, Post5Start(c), Post5End(c)) <==> c <= ti <= c + 5.0
    ensures InWindow(ti, Post5Start(c), Post5End(c)) ==> InWindow(ti, At(c, true), Unbounded)
    ensures InWindow(c, At(c, true), Unbounded) && !InWindow(c, Unbounded, At(c, false))
  {
  }

  // ------------------------------------------------------------ main

  datatype Skip = NoCsvOrCrisis | ReadError | EmptyCsv | NoTimeCol | NoPupilCols

  /**
   * Why a participant is skipped, checked in the order of `main`; `None`
   * when the eight windows are computed.  A skipped participant gets NaN
   * in every window cell.
   */
  function SkipReason(csvFound: bool, crisis: Option<real>, readOk: bool, dataRows: nat,
                      header: seq<string>): (r: Option<Skip>)
    ensures r.None? <==> csvFound && crisis.Some? && readOk && dataRows > 0 && TimeCol(header) != -1
                         && FirstFrom(Tokens(header), Mentions("leftpupil"), 0) != -1
                         && FirstFrom(Tokens(header), Mentions("rightpupil"), 0) != -1
  {
    if !csvFound || crisis.None? then Some(NoCsvOrCrisis)
    else if !readOk then Some(ReadError)
    else if dataRows == 0 then Some(EmptyCsv)
    else if TimeCol(header) == -1 then Some(NoTimeCol)
    else if FirstFrom(Tokens(header), Mentions("leftpupil"), 0) == -1
            || FirstFrom(Tokens(header), Mentions("rightpupil"), 0) == -1 then Some(NoPupilCols)
    else None
  }
}
