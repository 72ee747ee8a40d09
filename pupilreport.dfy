// Per-file pupil report of the shook and noshook pupil tools (shookpupil.cpp,
// noshookpupil.cpp): the header and event-row searches, the before and after
// windows around the event, the strictly positive values kept in each window,
// the 50% coverage rule for averages, the spread of each eye's values and the
// 14-entry result whose checks decide which records are saved.  The pupil
// extractors reuse the searches.  Spreads are variances: the square root
// taken by `calculateStdDev` is not modelled.

module PupilReport {
  import opened Wrappers
  import opened Text
  import opened Lists
  import opened Stats

  type Rows = seq<seq<string>>

  // ---------------------------------------------------------------- searches

  /** A (trimmed) cell containing `name`, case-sensitively. */
  function Names(name: string): string -> bool {
    (h: string) => Contains(h, name)
  }

  /** `findPupilColumns`: the last header cell whose trimmed text names each eye, or -1. */
  method FindPupilColumns(header: seq<string>) returns (left: int, right: int)
    ensures left == LastWhere(StripEach(header), Names("leftPupil"))
    ensures right == LastWhere(StripEach(header), Names("rightPupil"))
  {
    left, right := FindLastTwo(StripEach(header), Names("leftPupil"), Names("rightPupil"));
  }

  /** The event column of the tools' `main`: the first header cell whose trimmed text names "robotEvent", or -1. */
  method FindEventColumn(header: seq<string>) returns (c: int)
    ensures c == FirstFrom(StripEach(header), Names("robotEvent"), 0)
  {
    c := FindFirst(StripEach(header), Names("robotEvent"), 0);
  }

  /** The first data row (row 0 is the header) satisfying `p`, or -1. */
  function FirstDataRow(data: Rows, p: seq<string> -> bool): (r: int)
    ensures r == -1 || 1 <= r < |data|
    ensures r >= 1 ==> p(data[r]) && forall k :: 1 <= k < r ==> !p(data[k])
    ensures r == -1 <==> forall k :: 1 <= k < |data| ==> !p(data[k])
  {
    if data == [] then -1 else FirstFrom(data, p, 1)
  }

  /** A row long enough to have the event column, whose event cell contains `tag`. */
  function EventHas(ev: nat, tag: string): seq<string> -> bool {
    (row: seq<string>) => ev < |row| && Contains(row[ev], tag)
  }

  /** A row with any cell containing `tag`. */
  function SomeCellHas(tag: string): seq<string> -> bool {
    (row: seq<string>) => exists k :: 0 <= k < |row| && Contains(row[k], tag)
  }

  /**
   * `findEventRows`: one pass from row 1 that finds, independently, the
   * first row whose event cell contains "0.2 seconds" and the first whose
   * event cell contains "shook"; rows without the event column are skipped.
   */
  method FindEventRows(data: Rows, ev: nat) returns (row02: int, rowShook: int)
    ensures row02 == FirstDataRow(data, EventHas(ev, "0.2 seconds"))
    ensures rowShook == FirstDataRow(data, EventHas(ev, "shook"))
  {
    row02, rowShook := -1, -1;
    if data == [] {
      return;
    }
    ghost var fa := FirstFrom(data, EventHas(ev, "0.2 seconds"), 1);
    ghost var fb := FirstFrom(data, EventHas(ev, "shook"), 1);
    var i := 1;
    while i < |data|
      invariant 1 <= i <= |data|
      invariant row02 == (if 1 <= fa < i then fa else -1)
      invariant rowShook == (if 1 <= fb < i then fb else -1)
    {
      if |data[i]| > ev {
        var cell := data[i][ev];
        if Contains(cell, "0.2 seconds") && row02 == -1 {
          row02 := i;
        }
        if Contains(cell, "shook") && rowShook == -1 {
          rowShook := i;
        }
        if row02 != -1 && rowShook != -1 {
          break;
        }
      }
      i := i + 1;
    }
  }

  /** `findEventRow` of the noshook tools: the first data row with any cell containing "0.2 seconds". */
  method FindEventRow(data: Rows) returns (r: int)
    ensures r == FirstDataRow(data, SomeCellHas("0.2 seconds"))
  {
    if data == [] {
      return -1;
    }
    var i := 1;
    while i < |data|
      invariant 1 <= i <= |data|
      invariant forall k :: 1 <= k < i ==> !SomeCellHas("0.2 seconds")(data[k])
    {
      var j := 0;
      while j < |data[i]|
        invariant 0 <= j <= |data[i]|
        invariant forall k :: 0 <= k < j ==> !Contains(data[i][k], "0.2 seconds")
      {
        if Contains(data[i][j], "0.2 seconds") {
          return i;
        }
        j := j + 1;
      }
      i := i + 1;
    }
    return -1;
  }

  // ---------------------------------------------------------------- spread

  /** Squared deviations from `mean` over n - 1, or -1 for fewer than two values. */
  function SpreadAbout(values: seq<real>, mean: real): real {
    if |values| < 2 then -1.0 else SqDev(values, mean) / ((|values| - 1) as real)
  }

  /** `calculateStdDev` (before its square root). */
  method CalculateSpread(values: seq<real>, mean: real) returns (r: real)
    ensures r == SpreadAbout(values, mean)
  {
    if |values| < 2 {
      return -1.0;
    }
    var acc := 0.0;
    for i := 0 to |values|
      invariant acc == SqDev(values[..i], mean)
    {
      assert values[..i + 1][..i] == values[..i];
      acc := acc + (values[i] - mean) * (values[i] - mean);
    }
    assert values[..|values|] == values;
    r := acc / ((|values| - 1) as real);
  }

  /** The spread is -1 exactly for fewer than two values, never negative otherwise, and about the mean it is the sample variance. */
  lemma SpreadMeaning(values: seq<real>, mean: real)
    ensures SpreadAbout(values, mean) == -1.0 <==> |values| < 2
    ensures |values| >= 2 ==> SpreadAbout(values, mean) >= 0.0
    ensures |values| >= 2 && mean == Mean(values) ==> SpreadAbout(values, mean) == Variance(values)
  {
    SqDevNonNeg(values, mean);
  }

  // ---------------------------------------------------------------- samples

  /** One data row's numbers: time, left and right pupil size, and luminance. */
  datatype Sample = Sample(t: real, left: real, right: real, lum: real)

  function Cell(row: seq<string>, c: int, parse: string -> Option<real>): Option<real> {
    if 0 <= c < |row| then parse(row[c]) else None
  }

  /**
   * A data row as the averaging loop reads it: skipped when it is not longer
   * than the larger pupil column (a negative column, converted to an unsigned
   * size, skips every row), or when any of time, pupils and luminance (the
   * column left of leftPupil) fails to parse.
   */
  function SampleOf(row: seq<string>, timeCol: nat, leftCol: int, rightCol: int,
                    parse: string -> Option<real>): Option<Sample>
  {
    var widest := if leftCol > rightCol then leftCol else rightCol;
    if widest < 0 || |row| <= widest then None
    else
      var t, l, r, m := Cell(row, timeCol, parse), Cell(row, leftCol, parse),
                        Cell(row, rightCol, parse), Cell(row, leftCol - 1, parse);
      if t.Some? && l.Some? && r.Some? && m.Some? then Some(Sample(t.value, l.value, r.value, m.value))
      else None
  }

  function RowSample(timeCol: nat, leftCol: int, rightCol: int, parse: string -> Option<real>): seq<string> -> Option<Sample> {
    (row: seq<string>) => SampleOf(row, timeCol, leftCol, rightCol, parse)
  }

  /** The samples of data rows 1 .. n - 1, in order. */
  function SamplesUpTo(data: Rows, n: nat, timeCol: nat, leftCol: int, rightCol: int,
                       parse: string -> Option<real>): seq<Sample>
    requires 1 <= n <= |data|
  {
    FilterMap(data[1..n], RowSample(timeCol, leftCol, rightCol, parse))
  }

  /** One more data row: its sample, if it has one, joins the samples of the rows before it. */
  lemma SamplesStep(data: Rows, i: nat, timeCol: nat, leftCol: int, rightCol: int, parse: string -> Option<real>)
    requires 1 <= i < |data|
    ensures SamplesUpTo(data, i + 1, timeCol, leftCol, rightCol, parse)
            == SamplesUpTo(data, i, timeCol, leftCol, rightCol, parse)
               + match SampleOf(data[i], timeCol, leftCol, rightCol, parse) case Some(s) => [s] case None => []
  {
    assert data[1..i + 1] == data[1..i] + [data[i]];
    FilterMapSnoc(data[1..i], data[i], RowSample(timeCol, leftCol, rightCol, parse));
  }

  function Samples(data: Rows, timeCol: nat, leftCol: int, rightCol: int, parse: string -> Option<real>): seq<Sample> {
    if data == [] then [] else SamplesUpTo(data, |data|, timeCol, leftCol, rightCol, parse)
  }

  // ---------------------------------------------------------------- windows

  /**
   * What one window accumulates: the sums and counts of the strictly positive
   * left pupil, right pupil and luminance values, the number of rows in the
   * window, and the kept pupil values in order.
   */
  datatype Tally = Tally(sumLeft: real, leftCount: nat, sumRight: real, rightCount: nat,
                         lumSum: real, lumCount: nat, rows: nat, lefts: seq<real>, rights: seq<real>)

  function Within(lo: real, hi: real): Sample -> bool {
    (s: Sample) => lo <= s.t <= hi
  }

  function PosLeft(lo: real, hi: real): Sample -> Option<real> {
    (s: Sample) => if lo <= s.t <= hi && s.left > 0.0 then Some(s.left) else None
  }

  function PosRight(lo: real, hi: real): Sample -> Option<real> {
    (s: Sample) => if lo <= s.t <= hi && s.right > 0.0 then Some(s.right) else None
  }

  function PosLum(lo: real, hi: real): Sample -> Option<real> {
    (s: Sample) => if lo <= s.t <= hi && s.lum > 0.0 then Some(s.lum) else None
  }

  /**
   * The closed window [lo, hi] over the samples: each list holds exactly the
   * strictly positive values of the samples timed in the window, in order;
   * each counter is the length of its list and each sum the sum of its list.
   */
  function WindowTally(ss: seq<Sample>, lo: real, hi: real): Tally {
    TallyOf(FilterMap(ss, PosLeft(lo, hi)), FilterMap(ss, PosRight(lo, hi)), FilterMap(ss, PosLum(lo, hi)),
            Count(ss, Within(lo, hi)))
  }

  /** The tally of kept left, right and luminance values over `rows` rows. */
  function TallyOf(ls: seq<real>, rs: seq<real>, ms: seq<real>, rows: nat): Tally {
    Tally(Sum(ls), |ls|, Sum(rs), |rs|, Sum(ms), |ms|, rows, ls, rs)
  }

  /** A sample outside the window leaves the tally as it was. */
  lemma SkipSample(ss: seq<Sample>, s: Sample, lo: real, hi: real)
    requires !(lo <= s.t <= hi)
    ensures WindowTally(ss + [s], lo, hi) == WindowTally(ss, lo, hi)
  {
    SkipKept(ss, s, PosLeft(lo, hi));
    SkipKept(ss, s, PosRight(lo, hi));
    SkipKept(ss, s, PosLum(lo, hi));
    CountSnoc(ss, s, Within(lo, hi));
  }

  lemma SkipKept(ss: seq<Sample>, s: Sample, f: Sample -> Option<real>)
    requires f(s).None?
    ensures FilterMap(ss + [s], f) == FilterMap(ss, f)
  {
    FilterMapSnoc(ss, s, f);
  }

  /** A list, a sum and a counter after one more value that may or may not be kept. */
  function Keep(xs: seq<real>, o: Option<real>): seq<real> {
    match o case Some(v) => xs + [v] case None => xs
  }

  function Add(x: real, o: Option<real>): real {
    match o case Some(v) => x + v case None => x
  }

  function Inc(n: nat, o: Option<real>): nat {
    if o.Some? then n + 1 else n
  }

  /** The tally after one more sample inside the window, field by field. */
  predicate OneMore(w: Tally, s: Sample, lo: real, hi: real, w': Tally) {
    var l, r, m := PosLeft(lo, hi)(s), PosRight(lo, hi)(s), PosLum(lo, hi)(s);
    && w'.lefts == Keep(w.lefts, l) && w'.sumLeft == Add(w.sumLeft, l) && w'.leftCount == Inc(w.leftCount, l)
    && w'.rights == Keep(w.rights, r) && w'.sumRight == Add(w.sumRight, r) && w'.rightCount == Inc(w.rightCount, r)
    && w'.lumSum == Add(w.lumSum, m) && w'.lumCount == Inc(w.lumCount, m)
    && w'.rows == w.rows + 1
  }

  lemma OneMoreInside(ss: seq<Sample>, s: Sample, lo: real, hi: real, w: Tally, w': Tally)
    requires lo <= s.t <= hi && w == WindowTally(ss, lo, hi) && OneMore(w, s, lo, hi, w')
    ensures w' == WindowTally(ss + [s], lo, hi)
  {
    var ms := FilterMap(ss, PosLum(lo, hi));
    KeptInside(ss, s, PosLeft(lo, hi), w.lefts, w.sumLeft, w.leftCount);
    KeptInside(ss, s, PosRight(lo, hi), w.rights, w.sumRight, w.rightCount);
    KeptInside(ss, s, PosLum(lo, hi), ms, w.lumSum, w.lumCount);
    CountSnoc(ss, s, Within(lo, hi));
  }

  /** One kept list with its sum and its counter, after one more sample. */
  lemma KeptInside(ss: seq<Sample>, s: Sample, f: Sample -> Option<real>, xs: seq<real>, sum: real, count: nat)
    requires xs == FilterMap(ss, f) && sum == Sum(xs) && count == |xs|
    ensures Keep(xs, f(s)) == FilterMap(ss + [s], f)
    ensures Add(sum, f(s)) == Sum(Keep(xs, f(s))) && Inc(count, f(s)) == |Keep(xs, f(s))|
  {
    FilterMapSnoc(ss, s, f);
    KeepAdds(xs, sum, count, f(s));
  }

  lemma KeepAdds(xs: seq<real>, sum: real, count: nat, o: Option<real>)
    requires sum == Sum(xs) && count == |xs|
    ensures Add(sum, o) == Sum(Keep(xs, o)) && Inc(count, o) == |Keep(xs, o)|
  {
    if o.Some? {
      SumAppend(xs, o.value);
    }
  }

  /** One window block of the averaging loop, for a sample timed inside the window. */
  method Accept(w: Tally, s: Sample, ghost ss: seq<Sample>, lo: real, hi: real) returns (w': Tally)
    requires lo <= s.t <= hi && w == WindowTally(ss, lo, hi)
    ensures w' == WindowTally(ss + [s], lo, hi)
  {
    w' := w;
    if s.left > 0.0 {
      w' := w'.(sumLeft := w'.sumLeft + s.left, leftCount := w'.leftCount + 1, lefts := w'.lefts + [s.left]);
    }
    if s.right > 0.0 {
      w' := w'.(sumRight := w'.sumRight + s.right, rightCount := w'.rightCount + 1, rights := w'.rights + [s.right]);
    }
    if s.lum > 0.0 {
      w' := w'.(lumSum := w'.lumSum + s.lum, lumCount := w'.lumCount + 1);
    }
    w' := w'.(rows := w'.rows + 1);
    OneMoreInside(ss, s, lo, hi, w, w');
  }

  /** One readable row offered to a window: tallied when its time is inside, ignored otherwise. */
  method Offer(w: Tally, s: Sample, ghost ss: seq<Sample>, lo: real, hi: real) returns (w': Tally)
    requires w == WindowTally(ss, lo, hi)
    ensures w' == WindowTally(ss + [s], lo, hi)
  {
    if lo <= s.t <= hi {
      w' := Accept(w, s, ss, lo, hi);
    } else {
      SkipSample(ss, s, lo, hi);
      w' := w;
    }
  }

  /**
   * The row loop of `calculatePupilAverages`: every readable data row is
   * tallied into the closed before window [lo1, hi1] and, independently,
   * into the closed after window [lo2, hi2], so one row may count in both.
   */
  method Accumulate(data: Rows, timeCol: nat, leftCol: int, rightCol: int,
                    lo1: real, hi1: real, lo2: real, hi2: real, parse: string -> Option<real>)
    returns (before: Tally, after: Tally)
    ensures before == WindowTally(Samples(data, timeCol, leftCol, rightCol, parse), lo1, hi1)
    ensures after == WindowTally(Samples(data, timeCol, leftCol, rightCol, parse), lo2, hi2)
  {
    before := WindowTally([], lo1, hi1);
    after := WindowTally([], lo2, hi2);
    if data == [] {
      return;
    }
    var i := 1;
    ghost var ss: seq<Sample> := [];
    assert data[1..1] == [];
    while i < |data|
      invariant 1 <= i <= |data|
      invariant ss == SamplesUpTo(data, i, timeCol, leftCol, rightCol, parse)
      invariant before == WindowTally(ss, lo1, hi1) && after == WindowTally(ss, lo2, hi2)
    {
      SamplesStep(data, i, timeCol, leftCol, rightCol, parse);
      var o := SampleOf(data[i], timeCol, leftCol, rightCol, parse);
      if o.Some? {
        before := Offer(before, o.value, ss, lo1, hi1);
        after := Offer(after, o.value, ss, lo2, hi2);
        ss := ss + [o.value];
      }
      i := i + 1;
    }
  }

  /** Every value kept by a window is strictly positive. */
  lemma {:induction false} KeptPositive(ss: seq<Sample>, f: Sample -> Option<real>)
    requires forall s :: f(s).Some? ==> f(s).value > 0.0
    ensures forall k :: 0 <= k < |FilterMap(ss, f)| ==> FilterMap(ss, f)[k] > 0.0
  {
    forall k | 0 <= k < |FilterMap(ss, f)|
      ensures FilterMap(ss, f)[k] > 0.0
    {
      FilterMapFrom(ss, f, k);
    }
  }

  lemma {:induction false} SumPositive(xs: seq<real>)
    requires |xs| > 0 && forall k :: 0 <= k < |xs| ==> xs[k] > 0.0
    ensures Sum(xs) > 0.0
  {
    var p := xs[..|xs| - 1];
    if p != [] {
      SumPositive(p);
    }
  }

  // ---------------------------------------------------------------- averages

  /**
   * The coverage rule as written, the mean once at least half the rows count, else -1:
   * a window without rows divides 0 by 0, which is NaN (`None`).
   */
  function CoverageAvgAsWritten(sum: real, count: nat, rows: nat): Option<real> {
    if (count as real) >= (rows as real) * 0.5 then
      if count == 0 then None else Some(sum / (count as real))
    else Some(-1.0)
  }

  /** The coverage rule with the empty window sent to -1 like every other uncovered one. */
  function CoverageAvg(sum: real, count: nat, rows: nat): real {
    if count > 0 && (count as real) >= (rows as real) * 0.5 then sum / (count as real) else -1.0
  }

  /** The corrected rule agrees with the written one except on windows without rows. */
  lemma CoverageAgrees(sum: real, count: nat, rows: nat)
    ensures rows > 0 ==> CoverageAvgAsWritten(sum, count, rows) == Some(CoverageAvg(sum, count, rows))
    ensures rows == 0 ==> CoverageAvgAsWritten(0.0, 0, rows) == None && CoverageAvg(0.0, 0, rows) == -1.0
  {
  }

  /** The coverage rule over strictly positive values: -1, or their mean when enough rows kept one. */
  lemma CoveredMean(xs: seq<real>, rows: nat, avg: real)
    requires forall k :: 0 <= k < |xs| ==> xs[k] > 0.0
    requires avg == CoverageAvg(Sum(xs), |xs|, rows)
    ensures avg != -1.0 <==> |xs| > 0 && 2 * |xs| >= rows
    ensures avg != -1.0 ==> avg == Mean(xs) && avg > 0.0
  {
    if |xs| > 0 {
      SumPositive(xs);
    }
  }

  /**
   * A window's left-eye average is -1 unless at least one value was kept and
   * at least half its rows kept one; otherwise it is the mean of the kept
   * values, which is strictly positive.
   */
  lemma LeftAverage(ss: seq<Sample>, lo: real, hi: real, w: Tally, avg: real)
    requires w == WindowTally(ss, lo, hi) && avg == CoverageAvg(w.sumLeft, w.leftCount, w.rows)
    ensures avg != -1.0 <==> |w.lefts| > 0 && 2 * |w.lefts| >= w.rows
    ensures avg != -1.0 ==> avg == Mean(w.lefts) && avg > 0.0
  {
    KeptPositive(ss, PosLeft(lo, hi));
    CoveredMean(w.lefts, w.rows, avg);
  }

  /** The same for the right eye. */
  lemma RightAverage(ss: seq<Sample>, lo: real, hi: real, w: Tally, avg: real)
    requires w == WindowTally(ss, lo, hi) && avg == CoverageAvg(w.sumRight, w.rightCount, w.rows)
    ensures avg != -1.0 <==> |w.rights| > 0 && 2 * |w.rights| >= w.rows
    ensures avg != -1.0 ==> avg == Mean(w.rights) && avg > 0.0
  {
    KeptPositive(ss, PosRight(lo, hi));
    CoveredMean(w.rights, w.rows, avg);
  }

  /** The average luminance of a window: -1, or a strictly positive mean. */
  lemma LumAverage(ss: seq<Sample>, lo: real, hi: real, w: Tally, avg: real)
    requires w == WindowTally(ss, lo, hi) && avg == CoverageAvg(w.lumSum, w.lumCount, w.rows)
    ensures avg == -1.0 || avg > 0.0
    ensures avg != -1.0 <==> w.lumCount > 0 && 2 * w.lumCount >= w.rows
  {
    KeptPositive(ss, PosLum(lo, hi));
    CoveredMean(FilterMap(ss, PosLum(lo, hi)), w.rows, avg);
  }

  // ---------------------------------------------------------------- the 14 entries

  function LeftAvg(w: Tally): real { CoverageAvg(w.sumLeft, w.leftCount, w.rows) }
  function RightAvg(w: Tally): real { CoverageAvg(w.sumRight, w.rightCount, w.rows) }
  function LumAvg(w: Tally): real { CoverageAvg(w.lumSum, w.lumCount, w.rows) }

  /**
   * The result of `calculatePupilAverages`, corrected: luminance, left
   * average, left count, left spread, right average, right count, right
   * spread, for the before window and then for the after window; every
   * spread is taken over its own window's values.
   */
  function Entries(b: Tally, a: Tally): (d: seq<real>)
    ensures |d| == 14
  {
    [LumAvg(b), LeftAvg(b), |b.lefts| as real, SpreadAbout(b.lefts, LeftAvg(b)),
     RightAvg(b), |b.rights| as real, SpreadAbout(b.rights, RightAvg(b)),
     LumAvg(a), LeftAvg(a), |a.lefts| as real, SpreadAbout(a.lefts, LeftAvg(a)),
     RightAvg(a), |a.rights| as real, SpreadAbout(a.rights, RightAvg(a))]
  }

  /** `calculateStdDev` fed a possibly-NaN average. */
  function SpreadAboutOpt(values: seq<real>, mean: Option<real>): Option<real> {
    if |values| < 2 then Some(-1.0)
    else match mean
      case None => None
      case Some(m) => Some(SpreadAbout(values, m))
  }

  /**
   * The result as written: averages follow the written coverage rule (NaN
   * for a window without rows), and the last entry, the after window's right
   * spread, is taken over the before window's right values and average.
   */
  function EntriesAsWritten(b: Tally, a: Tally): (d: seq<Option<real>>)
    ensures |d| == 14
  {
    var lb := CoverageAvgAsWritten(b.sumLeft, b.leftCount, b.rows);
    var rb := CoverageAvgAsWritten(b.sumRight, b.rightCount, b.rows);
    var la := CoverageAvgAsWritten(a.sumLeft, a.leftCount, a.rows);
    var ra := CoverageAvgAsWritten(a.sumRight, a.rightCount, a.rows);
    [CoverageAvgAsWritten(b.lumSum, b.lumCount, b.rows), lb, Some(|b.lefts| as real), SpreadAboutOpt(b.lefts, lb),
     rb, Some(|b.rights| as real), SpreadAboutOpt(b.rights, rb),
     CoverageAvgAsWritten(a.lumSum, a.lumCount, a.rows), la, Some(|a.lefts| as real), SpreadAboutOpt(a.lefts, la),
     ra, Some(|a.rights| as real), SpreadAboutOpt(b.rights, rb)]
  }

  /**
   * `calculatePupilAverages` of shookpupil.cpp, as written: the 14 entries
   * of the window ending at the "0.2 seconds" row's time and the window
   * starting at the "shook" row's time, or `None` when either time does not
   * parse (that `stod` is not guarded, so the whole run ends).
   */
  function ShookAverages(data: Rows, timeCol: nat, leftCol: int, rightCol: int, row02: nat, rowShook: nat,
                         parse: string -> Option<real>): (r: Option<seq<Option<real>>>)
    requires row02 < |data| && rowShook < |data|
    ensures r.Some? <==> Cell(data[row02], timeCol, parse).Some? && Cell(data[rowShook], timeCol, parse).Some?
    ensures r.Some? ==> |r.value| == 14
  {
    match (Cell(data[row02], timeCol, parse), Cell(data[rowShook], timeCol, parse))
      case (Some(bt), Some(ta)) => Some(AroundEvents(Samples(data, timeCol, leftCol, rightCol, parse), bt, ta))
      case _ => None
  }

  /**
   * The written entries for a before window ending at `bt` and an after
   * window starting at `ta`, five seconds each: the last entry repeats the
   * before window's right spread.
   */
  function AroundEvents(ss: seq<Sample>, bt: real, ta: real): (d: seq<Option<real>>)
    ensures |d| == 14 && d[13] == d[6]
  {
    EntriesAsWritten(WindowTally(ss, bt - 5.0, bt), WindowTally(ss, ta, ta + 5.0))
  }

  method CalculatePupilAverages(data: Rows, timeCol: nat, leftCol: int, rightCol: int, row02: nat, rowShook: nat,
                                parse: string -> Option<real>) returns (r: Option<seq<Option<real>>>)
    requires row02 < |data| && rowShook < |data|
    ensures r == ShookAverages(data, timeCol, leftCol, rightCol, row02, rowShook, parse)
  {
    var bt := Cell(data[row02], timeCol, parse);
    var ta := Cell(data[rowShook], timeCol, parse);
    if bt.None? || ta.None? {
      return None;
    }
    var before, after := Accumulate(data, timeCol, leftCol, rightCol,
                                    bt.value - 5.0, bt.value, ta.value, ta.value + 5.0, parse);
    r := Some(EntriesAsWritten(before, after));
  }

  /** Offset from the "0.2 seconds" tag to the estimated event start. */
  const EventOffset: real := 0.229

  /**
   * `calculatePupilAverages` of noshookpupil.cpp, as written: without an
   * event row, four -1 entries; otherwise the before window ends at the
   * tagged row's time t and the after window is [t + 0.229, t + 5.229].
   */
  function NoShookAverages(data: Rows, timeCol: nat, leftCol: int, rightCol: int, eventRow: int,
                           parse: string -> Option<real>): (r: Option<seq<Option<real>>>)
    requires -1 <= eventRow < |data|
    ensures eventRow == -1 ==> r == Some([Some(-1.0), Some(-1.0), Some(-1.0), Some(-1.0)])
    ensures eventRow >= 0 ==> (r.Some? <==> Cell(data[eventRow], timeCol, parse).Some?)
    ensures r.Some? ==> |r.value| == if eventRow == -1 then 4 else 14
  {
    if eventRow < 0 then Some([Some(-1.0), Some(-1.0), Some(-1.0), Some(-1.0)])
    else
      match Cell(data[eventRow], timeCol, parse)
        case Some(t) => Some(AroundEvents(Samples(data, timeCol, leftCol, rightCol, parse), t, t + EventOffset))
        case None => None
  }

  method CalculatePupilAveragesNoShook(data: Rows, timeCol: nat, leftCol: int, rightCol: int, eventRow: int,
                                       parse: string -> Option<real>) returns (r: Option<seq<Option<real>>>)
    requires -1 <= eventRow < |data|
    ensures r == NoShookAverages(data, timeCol, leftCol, rightCol, eventRow, parse)
  {
    if eventRow == -1 {
      return Some([Some(-1.0), Some(-1.0), Some(-1.0), Some(-1.0)]);
    }
    var t := Cell(data[eventRow], timeCol, parse);
    if t.None? {
      return None;
    }
    var eventTime := t.value + EventOffset;
    var before, after := Accumulate(data, timeCol, leftCol, rightCol,
                                    t.value - 5.0, t.value, eventTime, eventTime + 5.0, parse);
    assert EntriesAsWritten(before, after) == AroundEvents(Samples(data, timeCol, leftCol, rightCol, parse), t.value, eventTime);
    r := Some(EntriesAsWritten(before, after));
  }

  // ---------------------------------------------------------------- saving

  /** One line of leftpupil.txt / rightpupil.txt; `None` stands for a NaN entry. */
  datatype Record = Record(index: real, lumBefore: Option<real>, pupilBefore: Option<real>, countBefore: Option<real>,
                           spreadBefore: Option<real>, lumAfter: Option<real>, pupilAfter: Option<real>,
                           countAfter: Option<real>, spreadAfter: Option<real>)

  /** What `main` does with a file's entries: reject its luminance, or save a record for each valid eye. */
  datatype Verdict = InvalidLuminance | Checked(left: Option<Record>, right: Option<Record>)

  /** `x > 0` and `x < 0` on a double that may be NaN: every comparison with NaN is false. */
  predicate Above(x: Option<real>) { x.Some? && x.value > 0.0 }
  predicate Below(x: Option<real>) { x.Some? && x.value < 0.0 }

  /**
   * Why `main` moves on to the next file, or `Aborted`: an event time or the
   * file index (the record's first field) that `stod` cannot convert throws
   * outside any try, which ends the whole run.
   */
  datatype FileOutcome = EmptyFile | NoPupilColumns | NoEventColumn | MissingTag | Aborted | Judged(v: Verdict)

  /**
   * The checks of `main` on the written entries: the luminance check, then
   * each eye's check; converting the file index for a record to save aborts
   * when it fails, before any record is saved when the left one is valid.
   */
  function Judge(d: seq<Option<real>>, index: Option<real>): (o: FileOutcome)
    requires |d| == 14
    ensures o == Aborted || o.Judged?
    ensures o == Aborted ==> index.None?
    ensures index.Some? ==> o.Judged?
    ensures o == Judged(InvalidLuminance) <==> !(Above(d[0]) || Above(d[7]))
    ensures o == Aborted <==>
              index.None? && (Above(d[0]) || Above(d[7])) && (!(Below(d[1]) || Below(d[8])) || !(Below(d[4]) || Below(d[11])))
    ensures index.Some? && (Above(d[0]) || Above(d[7])) ==>
              && o.Judged? && o.v.Checked?
              && (o.v.left.Some? <==> !(Below(d[1]) || Below(d[8])))
              && (o.v.right.Some? <==> !(Below(d[4]) || Below(d[11])))
  {
    if !(Above(d[0]) || Above(d[7])) then Judged(InvalidLuminance)
    else
      var left, right := !(Below(d[1]) || Below(d[8])), !(Below(d[4]) || Below(d[11]));
      if (left || right) && index.None? then Aborted
      else Judged(Checked(if left then Some(Record(index.value, d[0], d[1], d[2], d[3], d[7], d[8], d[9], d[10])) else None,
                          if right then Some(Record(index.value, d[0], d[4], d[5], d[6], d[7], d[11], d[12], d[13])) else None))
  }

  /** A window keeps at most one value per eye and one luminance per row it counts. */
  lemma {:induction false} KeptWithinRows(ss: seq<Sample>, lo: real, hi: real)
    ensures var w := WindowTally(ss, lo, hi); |w.lefts| <= w.rows && |w.rights| <= w.rows && w.lumCount <= w.rows
  {
    if ss != [] {
      var p, s := ss[..|ss| - 1], ss[|ss| - 1];
      assert ss == p + [s];
      KeptWithinRows(p, lo, hi);
      FilterMapSnoc(p, s, PosLeft(lo, hi));
      FilterMapSnoc(p, s, PosRight(lo, hi));
      FilterMapSnoc(p, s, PosLum(lo, hi));
      CountSnoc(p, s, Within(lo, hi));
    }
  }

  /**
   * An eye average on the written entries that passed the eye check: NaN
   * for a window without rows, otherwise the strictly positive mean of the
   * kept values of a window where at least half the rows kept one.
   */
  predicate NaNOrCovered(avg: Option<real>, xs: seq<real>, rows: nat) {
    (rows == 0 && xs == [] && avg == None) || (|xs| > 0 && 2 * |xs| >= rows && avg == Some(Mean(xs)) && Mean(xs) > 0.0)
  }

  /** A written average over strictly positive values that is not below zero is NaN or covered. */
  lemma NotBelowCovered(xs: seq<real>, sum: real, rows: nat)
    requires (forall k :: 0 <= k < |xs| ==> xs[k] > 0.0) && sum == Sum(xs) && |xs| <= rows
    requires !Below(CoverageAvgAsWritten(sum, |xs|, rows))
    ensures NaNOrCovered(CoverageAvgAsWritten(sum, |xs|, rows), xs, rows)
  {
    if |xs| > 0 {
      SumPositive(xs);
    }
  }

  /** The spread of the kept values about their written average: -1 for an empty window. */
  function SpreadOfKept(xs: seq<real>): real {
    if xs == [] then -1.0 else SpreadAbout(xs, Mean(xs))
  }

  lemma SpreadOfCovered(xs: seq<real>, avg: Option<real>, rows: nat)
    requires NaNOrCovered(avg, xs, rows)
    ensures SpreadAboutOpt(xs, avg) == Some(SpreadOfKept(xs))
  {
  }

  /** The left record `Judge` saves, entry by entry. */
  lemma JudgedLeft(d: seq<Option<real>>, index: Option<real>, rec: Record)
    requires |d| == 14 && Judge(d, index).Judged? && Judge(d, index).v.Checked? && Judge(d, index).v.left == Some(rec)
    ensures index == Some(rec.index) && !Below(d[1]) && !Below(d[8]) && (Above(d[0]) || Above(d[7]))
    ensures rec == Record(rec.index, d[0], d[1], d[2], d[3], d[7], d[8], d[9], d[10])
  {
  }

  /** The right record `Judge` saves, entry by entry. */
  lemma JudgedRight(d: seq<Option<real>>, index: Option<real>, rec: Record)
    requires |d| == 14 && Judge(d, index).Judged? && Judge(d, index).v.Checked? && Judge(d, index).v.right == Some(rec)
    ensures index == Some(rec.index) && !Below(d[4]) && !Below(d[11]) && (Above(d[0]) || Above(d[7]))
    ensures rec == Record(rec.index, d[0], d[4], d[5], d[6], d[7], d[11], d[12], d[13])
  {
  }

  /** What a window's tally keeps: strictly positive values, their sums and counts, no more than its rows. */
  predicate Kept(w: Tally) {
    && w.sumLeft == Sum(w.lefts) && w.leftCount == |w.lefts| && |w.lefts| <= w.rows
    && w.sumRight == Sum(w.rights) && w.rightCount == |w.rights| && |w.rights| <= w.rows
    && (forall k :: 0 <= k < |w.lefts| ==> w.lefts[k] > 0.0)
    && (forall k :: 0 <= k < |w.rights| ==> w.rights[k] > 0.0)
  }

  lemma WindowKept(ss: seq<Sample>, lo: real, hi: real)
    ensures Kept(WindowTally(ss, lo, hi))
  {
    KeptWithinRows(ss, lo, hi);
    KeptPositive(ss, PosLeft(lo, hi));
    KeptPositive(ss, PosRight(lo, hi));
  }

  /**
   * As written, a saved left-eye record carries, for each window, NaN when
   * it had no rows or else the strictly positive mean of its kept left values
   * from at least half its rows, their number and their spread; some
   * window's luminance is positive, and the index is the converted one.
   */
  lemma SavedLeftAsWritten(ss: seq<Sample>, bt: real, ta: real, index: Option<real>, rec: Record)
    requires Judge(AroundEvents(ss, bt, ta), index).Judged? && Judge(AroundEvents(ss, bt, ta), index).v.Checked?
    requires Judge(AroundEvents(ss, bt, ta), index).v.left == Some(rec)
    ensures var b, a := WindowTally(ss, bt - 5.0, bt), WindowTally(ss, ta, ta + 5.0);
      && index == Some(rec.index)
      && NaNOrCovered(rec.pupilBefore, b.lefts, b.rows) && NaNOrCovered(rec.pupilAfter, a.lefts, a.rows)
      && rec.countBefore == Some(|b.lefts| as real) && rec.countAfter == Some(|a.lefts| as real)
      && rec.spreadBefore == Some(SpreadOfKept(b.lefts)) && rec.spreadAfter == Some(SpreadOfKept(a.lefts))
      && (Above(rec.lumBefore) || Above(rec.lumAfter))
  {
    WindowKept(ss, bt - 5.0, bt);
    WindowKept(ss, ta, ta + 5.0);
    SavedLeftOf(AroundEvents(ss, bt, ta), WindowTally(ss, bt - 5.0, bt), WindowTally(ss, ta, ta + 5.0), index, rec);
  }

  lemma SavedLeftOf(d: seq<Option<real>>, b: Tally, a: Tally, index: Option<real>, rec: Record)
    requires d == EntriesAsWritten(b, a) && Kept(b) && Kept(a)
    requires Judge(d, index).Judged? && Judge(d, index).v.Checked? && Judge(d, index).v.left == Some(rec)
    ensures && index == Some(rec.index)
      && NaNOrCovered(rec.pupilBefore, b.lefts, b.rows) && NaNOrCovered(rec.pupilAfter, a.lefts, a.rows)
      && rec.countBefore == Some(|b.lefts| as real) && rec.countAfter == Some(|a.lefts| as real)
      && rec.spreadBefore == Some(SpreadOfKept(b.lefts)) && rec.spreadAfter == Some(SpreadOfKept(a.lefts))
      && (Above(rec.lumBefore) || Above(rec.lumAfter))
  {
    JudgedLeft(d, index, rec);
    NotBelowCovered(b.lefts, b.sumLeft, b.rows);
    NotBelowCovered(a.lefts, a.sumLeft, a.rows);
    SpreadOfCovered(b.lefts, d[1], b.rows);
    SpreadOfCovered(a.lefts, d[8], a.rows);
  }

  /**
   * As written, a saved right-eye record carries each window's NaN or
   * covered right mean and its count, but its after spread is the before
   * window's: the spread of the before window's kept right values.
   */
  lemma SavedRightAsWritten(ss: seq<Sample>, bt: real, ta: real, index: Option<real>, rec: Record)
    requires Judge(AroundEvents(ss, bt, ta), index).Judged? && Judge(AroundEvents(ss, bt, ta), index).v.Checked?
    requires Judge(AroundEvents(ss, bt, ta), index).v.right == Some(rec)
    ensures var b, a := WindowTally(ss, bt - 5.0, bt), WindowTally(ss, ta, ta + 5.0);
      && index == Some(rec.index)
      && NaNOrCovered(rec.pupilBefore, b.rights, b.rows) && NaNOrCovered(rec.pupilAfter, a.rights, a.rows)
      && rec.countBefore == Some(|b.rights| as real) && rec.countAfter == Some(|a.rights| as real)
      && rec.spreadBefore == rec.spreadAfter == Some(SpreadOfKept(b.rights))
      && (Above(rec.lumBefore) || Above(rec.lumAfter))
  {
    WindowKept(ss, bt - 5.0, bt);
    WindowKept(ss, ta, ta + 5.0);
    SavedRightOf(AroundEvents(ss, bt, ta), WindowTally(ss, bt - 5.0, bt), WindowTally(ss, ta, ta + 5.0), index, rec);
  }

  lemma SavedRightOf(d: seq<Option<real>>, b: Tally, a: Tally, index: Option<real>, rec: Record)
    requires d == EntriesAsWritten(b, a) && Kept(b) && Kept(a)
    requires Judge(d, index).Judged? && Judge(d, index).v.Checked? && Judge(d, index).v.right == Some(rec)
    ensures && index == Some(rec.index)
      && NaNOrCovered(rec.pupilBefore, b.rights, b.rows) && NaNOrCovered(rec.pupilAfter, a.rights, a.rows)
      && rec.countBefore == Some(|b.rights| as real) && rec.countAfter == Some(|a.rights| as real)
      && rec.spreadBefore == rec.spreadAfter == Some(SpreadOfKept(b.rights))
      && (Above(rec.lumBefore) || Above(rec.lumAfter))
  {
    JudgedRight(d, index, rec);
    NotBelowCovered(b.rights, b.sumRight, b.rows);
    NotBelowCovered(a.rights, a.sumRight, a.rows);
    SpreadOfCovered(b.rights, d[4], b.rows);
  }

  /** On two windows that both have rows, the written entries are the corrected ones, but for the last. */
  lemma WrittenOnPopulatedWindows(b: Tally, a: Tally)
    requires b.rows > 0 && a.rows > 0
    ensures var d, e := EntriesAsWritten(b, a), Entries(b, a);
      (forall k :: 0 <= k < 13 ==> d[k] == Some(e[k])) && d[13] == Some(e[6])
  {
    CoverageAgrees(b.sumLeft, b.leftCount, b.rows);
    CoverageAgrees(b.sumRight, b.rightCount, b.rows);
    CoverageAgrees(b.lumSum, b.lumCount, b.rows);
    CoverageAgrees(a.sumLeft, a.leftCount, a.rows);
    CoverageAgrees(a.sumRight, a.rightCount, a.rows);
    CoverageAgrees(a.lumSum, a.lumCount, a.rows);
  }

  function ShookFile(data: Rows, fileIndex: string, parse: string -> Option<real>): FileOutcome {
    if data == [] then EmptyFile
    else
      var header := StripEach(data[0]);
      ShookColumns(data, fileIndex, parse, LastWhere(header, Names("leftPupil")), LastWhere(header, Names("rightPupil")),
                   FirstFrom(header, Names("robotEvent"), 0))
  }

  /** The rest of a file, once its pupil and event columns are known. */
  function ShookColumns(data: Rows, fileIndex: string, parse: string -> Option<real>, left: int, right: int, ev: int): FileOutcome
    requires ev >= -1
  {
    if left == -1 || right == -1 then NoPupilColumns
    else if ev == -1 then NoEventColumn
    else ShookRows(data, fileIndex, parse, left, right,
                   FirstDataRow(data, EventHas(ev, "0.2 seconds")), FirstDataRow(data, EventHas(ev, "shook")))
  }

  /** The rest of a file, once its event rows are known. */
  function ShookRows(data: Rows, fileIndex: string, parse: string -> Option<real>, left: int, right: int, r02: int, rSh: int): FileOutcome
    requires -1 <= r02 < |data| && -1 <= rSh < |data|
  {
    if r02 == -1 || rSh == -1 then MissingTag
    else match ShookAverages(data, 0, left, right, r02, rSh, parse)
      case None => Aborted
      case Some(d) => Judge(d, parse(fileIndex))
  }

  /** One file of shookpupil.cpp's `main`, up to the records it saves; `fileIndex` is the name's first five characters. */
  method ProcessShookFile(data: Rows, fileIndex: string, parse: string -> Option<real>) returns (o: FileOutcome)
    ensures o == ShookFile(data, fileIndex, parse)
  {
    if data == [] {
      return EmptyFile;
    }
    var left, right := FindPupilColumns(data[0]);
    var ev := FindEventColumn(data[0]);
    assert ShookFile(data, fileIndex, parse) == ShookColumns(data, fileIndex, parse, left, right, ev);
    if left == -1 || right == -1 {
      return NoPupilColumns;
    }
    if ev == -1 {
      return NoEventColumn;
    }
    var r02, rSh := FindEventRows(data, ev);
    assert ShookFile(data, fileIndex, parse) == ShookRows(data, fileIndex, parse, left, right, r02, rSh);
    if r02 == -1 || rSh == -1 {
      return MissingTag;
    }
    var d := CalculatePupilAverages(data, 0, left, right, r02, rSh, parse);
    if d.None? {
      return Aborted;
    }
    return Judge(d.value, parse(fileIndex));
  }

  function NoShookFile(data: Rows, fileIndex: string, parse: string -> Option<real>): FileOutcome {
    if data == [] then EmptyFile
    else
      var header := StripEach(data[0]);
      NoShookRow(data, fileIndex, parse, LastWhere(header, Names("leftPupil")), LastWhere(header, Names("rightPupil")),
                 FirstDataRow(data, SomeCellHas("0.2 seconds")))
  }

  /** The rest of a noshook file, once its event row is known. */
  function NoShookRow(data: Rows, fileIndex: string, parse: string -> Option<real>, left: int, right: int, er: int): FileOutcome
    requires -1 <= er < |data|
  {
    if er == -1 then MissingTag
    else match NoShookAverages(data, 0, left, right, er, parse)
      case None => Aborted
      case Some(d) => Judge(d, parse(fileIndex))
  }

  /** One file of noshookpupil.cpp's `main`: the pupil columns are not checked. */
  method ProcessNoShookFile(data: Rows, fileIndex: string, parse: string -> Option<real>) returns (o: FileOutcome)
    ensures o == NoShookFile(data, fileIndex, parse)
  {
    if data == [] {
      return EmptyFile;
    }
    var left, right := FindPupilColumns(data[0]);
    var er := FindEventRow(data);
    assert NoShookFile(data, fileIndex, parse) == NoShookRow(data, fileIndex, parse, left, right, er);
    if er == -1 {
      return MissingTag;
    }
    var d := CalculatePupilAveragesNoShook(data, 0, left, right, er, parse);
    if d.None? {
      return Aborted;
    }
    return Judge(d.value, parse(fileIndex));
  }

  // ---------------------------------------------------------------- the corrected entries and the two defects

  /**
   * The checks of `main` on the corrected entries, with a file index that
   * converts.
   */
  function Decide(d: seq<real>, index: real): Verdict
    requires |d| == 14
  {
    if !(d[0] > 0.0 || d[7] > 0.0) then InvalidLuminance
    else
      Checked(if d[1] < 0.0 || d[8] < 0.0 then None
              else Some(Record(index, Some(d[0]), Some(d[1]), Some(d[2]), Some(d[3]), Some(d[7]), Some(d[8]), Some(d[9]), Some(d[10]))),
              if d[4] < 0.0 || d[11] < 0.0 then None
              else Some(Record(index, Some(d[0]), Some(d[4]), Some(d[5]), Some(d[6]), Some(d[7]), Some(d[11]), Some(d[12]), Some(d[13]))))
  }

  /**
   * Corrected, a saved left-eye record carries, for each window, the mean of
   * that window's kept left values (strictly positive, from a window where
   * at least half the rows kept one), their number and their spread about
   * that mean; and some window's luminance is positive.
   */
  lemma SavedLeft(ss: seq<Sample>, lo1: real, hi1: real, lo2: real, hi2: real, index: real, rec: Record)
    requires Decide(Entries(WindowTally(ss, lo1, hi1), WindowTally(ss, lo2, hi2)), index).Checked?
    requires Decide(Entries(WindowTally(ss, lo1, hi1), WindowTally(ss, lo2, hi2)), index).left == Some(rec)
    ensures var b, a := WindowTally(ss, lo1, hi1), WindowTally(ss, lo2, hi2);
      && |b.lefts| > 0 && 2 * |b.lefts| >= b.rows && rec.pupilBefore == Some(Mean(b.lefts)) && Mean(b.lefts) > 0.0
      && |a.lefts| > 0 && 2 * |a.lefts| >= a.rows && rec.pupilAfter == Some(Mean(a.lefts)) && Mean(a.lefts) > 0.0
      && rec.countBefore == Some(|b.lefts| as real) && rec.countAfter == Some(|a.lefts| as real)
      && rec.spreadBefore == Some(SpreadAbout(b.lefts, Mean(b.lefts)))
      && rec.spreadAfter == Some(SpreadAbout(a.lefts, Mean(a.lefts)))
      && (Above(rec.lumBefore) || Above(rec.lumAfter))
  {
    var b, a := WindowTally(ss, lo1, hi1), WindowTally(ss, lo2, hi2);
    LeftAverage(ss, lo1, hi1, b, LeftAvg(b));
    LeftAverage(ss, lo2, hi2, a, LeftAvg(a));
  }

  /** Corrected, a saved right-eye record carries each window's own right values' mean, count and spread. */
  lemma SavedRight(ss: seq<Sample>, lo1: real, hi1: real, lo2: real, hi2: real, index: real, rec: Record)
    requires Decide(Entries(WindowTally(ss, lo1, hi1), WindowTally(ss, lo2, hi2)), index).Checked?
    requires Decide(Entries(WindowTally(ss, lo1, hi1), WindowTally(ss, lo2, hi2)), index).right == Some(rec)
    ensures var b, a := WindowTally(ss, lo1, hi1), WindowTally(ss, lo2, hi2);
      && |b.rights| > 0 && 2 * |b.rights| >= b.rows && rec.pupilBefore == Some(Mean(b.rights)) && Mean(b.rights) > 0.0
      && |a.rights| > 0 && 2 * |a.rights| >= a.rows && rec.pupilAfter == Some(Mean(a.rights)) && Mean(a.rights) > 0.0
      && rec.countBefore == Some(|b.rights| as real) && rec.countAfter == Some(|a.rights| as real)
      && rec.spreadBefore == Some(SpreadAbout(b.rights, Mean(b.rights)))
      && rec.spreadAfter == Some(SpreadAbout(a.rights, Mean(a.rights)))
  {
    var b, a := WindowTally(ss, lo1, hi1), WindowTally(ss, lo2, hi2);
    RightAverage(ss, lo1, hi1, b, RightAvg(b));
    RightAverage(ss, lo2, hi2, a, RightAvg(a));
  }

  /** No sample timed in the window: the window tallies nothing. */
  lemma {:induction false} EmptyWindow(ss: seq<Sample>, lo: real, hi: real)
    requires forall k :: 0 <= k < |ss| ==> !(lo <= ss[k].t <= hi)
    ensures WindowTally(ss, lo, hi) == Tally(0.0, 0, 0.0, 0, 0.0, 0, 0, [], [])
  {
    if ss != [] {
      var p := ss[..|ss| - 1];
      EmptyWindow(p, lo, hi);
      assert ss == p + [ss[|ss| - 1]];
      SkipSample(p, ss[|ss| - 1], lo, hi);
    }
  }

  /**
   * As written, a file with no readable row in the before window still
   * passes the luminance and left-eye checks when its after window is
   * covered: the before averages are NaN, and the NaN record is saved.
   */
  lemma EmptyBeforeWindowAsWritten(ss: seq<Sample>, bt: real, ta: real, index: real)
    requires forall k :: 0 <= k < |ss| ==> !(bt - 5.0 <= ss[k].t <= bt)
    requires var a := WindowTally(ss, ta, ta + 5.0);
      a.leftCount > 0 && 2 * a.leftCount >= a.rows && a.lumCount > 0 && 2 * a.lumCount >= a.rows
    ensures var d := AroundEvents(ss, bt, ta);
      && d[0] == None && d[1] == None
      && Judge(d, Some(index)).Judged? && Judge(d, Some(index)).v.Checked?
      && Judge(d, Some(index)).v.left.Some? && Judge(d, Some(index)).v.left.value.pupilBefore == None
  {
    EmptyWindow(ss, bt - 5.0, bt);
    var a := WindowTally(ss, ta, ta + 5.0);
    KeptPositive(ss, PosLeft(ta, ta + 5.0));
    KeptPositive(ss, PosLum(ta, ta + 5.0));
    SumPositive(a.lefts);
    SumPositive(FilterMap(ss, PosLum(ta, ta + 5.0)));
    NaNBeforeSaved(WindowTally(ss, bt - 5.0, bt), a, index);
  }

  /** Written entries with an empty before window and a covered after window save a NaN left record. */
  lemma NaNBeforeSaved(b: Tally, a: Tally, index: real)
    requires b == Tally(0.0, 0, 0.0, 0, 0.0, 0, 0, [], [])
    requires a.leftCount > 0 && 2 * a.leftCount >= a.rows && a.sumLeft > 0.0
    requires a.lumCount > 0 && 2 * a.lumCount >= a.rows && a.lumSum > 0.0
    ensures var d := EntriesAsWritten(b, a);
      && d[0] == None && d[1] == None
      && Judge(d, Some(index)).Judged? && Judge(d, Some(index)).v.Checked?
      && Judge(d, Some(index)).v.left.Some? && Judge(d, Some(index)).v.left.value.pupilBefore == None
  {
    CoveredAbove(a.lumSum, a.lumCount, a.rows);
    CoveredAbove(a.sumLeft, a.leftCount, a.rows);
    var d := EntriesAsWritten(b, a);
    assert d[0] == None && d[1] == None && Above(d[7]) && !Below(d[8]);
    JudgeNaNBefore(d, index);
  }

  /** Written entries with a NaN before left average that pass the checks save it. */
  lemma JudgeNaNBefore(d: seq<Option<real>>, index: real)
    requires |d| == 14 && d[1] == None && Above(d[7]) && !Below(d[8])
    ensures Judge(d, Some(index)).Judged? && Judge(d, Some(index)).v.Checked?
    ensures Judge(d, Some(index)).v.left.Some? && Judge(d, Some(index)).v.left.value.pupilBefore == None
  {
  }

  /** A covered window with a positive sum has a positive written average. */
  lemma CoveredAbove(sum: real, count: nat, rows: nat)
    requires count > 0 && 2 * count >= rows && sum > 0.0
    ensures Above(CoverageAvgAsWritten(sum, count, rows))
  {
  }

  /** Corrected, a window without rows averages to -1 and fails the eye check. */
  lemma EmptyBeforeWindow(ss: seq<Sample>, lo1: real, hi1: real, a: Tally, index: real)
    requires forall k :: 0 <= k < |ss| ==> !(lo1 <= ss[k].t <= hi1)
    ensures var d := Entries(WindowTally(ss, lo1, hi1), a);
      d[1] == -1.0 && d[4] == -1.0 && (Decide(d, index).Checked? ==> Decide(d, index) == Checked(None, None))
  {
    EmptyWindow(ss, lo1, hi1);
  }

  /** As written, the last entry ignores the after window: it is the same whatever the after window holds. */
  lemma LastEntryAsWritten(b: Tally, a: Tally, a': Tally)
    ensures EntriesAsWritten(b, a)[13] == EntriesAsWritten(b, a')[13] == EntriesAsWritten(b, a)[6]
  {
  }

  /** A before window with right values 1 and 3 and an after window with 5 and 5: the written last entry is 2, the after spread is 0. */
  lemma LastEntryCounterexample()
    ensures var b := Tally(4.0, 2, 4.0, 2, 2.0, 2, 2, [1.0, 3.0], [1.0, 3.0]);
      var a := Tally(10.0, 2, 10.0, 2, 2.0, 2, 2, [5.0, 5.0], [5.0, 5.0]);
      EntriesAsWritten(b, a)[13] == Some(2.0) && Entries(b, a)[13] == 0.0
  {
    var b := Tally(4.0, 2, 4.0, 2, 2.0, 2, 2, [1.0, 3.0], [1.0, 3.0]);
    var a := Tally(10.0, 2, 10.0, 2, 2.0, 2, 2, [5.0, 5.0], [5.0, 5.0]);
    assert [1.0, 3.0][..1] == [1.0] && [1.0][..0] == [];
    assert [5.0, 5.0][..1] == [5.0] && [5.0][..0] == [];
    assert SqDev([1.0, 3.0], 2.0) == 2.0;
    assert SqDev([5.0, 5.0], 5.0) == 0.0;
  }
}
