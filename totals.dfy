// Two small aggregators: luminance.cpp gathers the before and after sections
// of every extracted luminance file and reports the mean and sample variance
// of each; pupilsize.cpp reads one record per participant and reports the
// mean, minimum and maximum of the positive before and after pupil sizes.

module LuminanceTotals {
  import opened Wrappers
  import opened Stats
  import opened Sections

  /** `computeStats`: (0, 0) for no values; the mean, and the sample variance from two values on. */
  method ComputeStats(values: seq<real>) returns (avg: real, variance: real)
    ensures values == [] ==> avg == 0.0 && variance == 0.0
    ensures values != [] ==> avg == Mean(values)
    ensures |values| == 1 ==> variance == 0.0
    ensures |values| >= 2 ==> variance == Variance(values)
  {
    if values == [] {
      return 0.0, 0.0;
    }
    var sum, sumSq := 0.0, 0.0;
    for i := 0 to |values|
      invariant sum == Sum(values[..i]) && sumSq == SumSq(values[..i])
    {
      assert values[..i + 1] == values[..i] + [values[i]];
      SumAppend(values[..i], values[i]);
      sum := sum + values[i];
      sumSq := sumSq + values[i] * values[i];
    }
    assert values[..|values|] == values;
    var n := |values|;
    Moments(values, sum, sumSq, n);
    avg := sum / (n as real);
    if n > 1 {
      variance := OnePassVar(sum, sumSq, n);
    } else {
      variance := 0.0;
    }
  }

  /** The before and after values of the files, file after file. */
  function Gathered(files: seq<seq<string>>, parse: string -> Option<real>): (seq<real>, seq<real>) {
    if files == [] then ([], [])
    else
      var g := Gathered(files[..|files| - 1], parse);
      var s := Split(files[|files| - 1], NoneOf4(), parse);
      (g.0 + s.0, g.1 + s.1)
  }

  /** The file loop of `main`: each file's sections are added to the global lists. */
  method GatherLuminance(files: seq<seq<string>>, parse: string -> Option<real>)
    returns (before: seq<real>, after: seq<real>)
    ensures (before, after) == Gathered(files, parse)
  {
    before, after := [], [];
    for f := 0 to |files|
      invariant (before, after) == Gathered(files[..f], parse)
    {
      assert files[..f + 1][..f] == files[..f];
      var b, a := ReadSections(files[f], NoneOf4(), parse);
      before := before + b;
      after := after + a;
    }
    assert files[..|files|] == files;
  }

  /**
   * When the reader recovers every value a luminance extractor wrote, the
   * file adds exactly its two windows to the global lists.
   */
  lemma GatheredRoundTrip(files: seq<seq<string>>, b: seq<real>, a: seq<real>,
                          fmt: real -> string, parse: string -> Option<real>)
    requires RecoversOn(b + a, fmt, NoneOf4(), parse)
    ensures Gathered(files + [Written(b, a, fmt)], parse) ==
            (Gathered(files, parse).0 + b, Gathered(files, parse).1 + a)
  {
    assert (files + [Written(b, a, fmt)])[..|files|] == files;
    assert NoneOf4()("");
    ReadWritten(b, a, fmt, NoneOf4(), parse);
  }
}

module PupilSizeTotals {
  import opened Wrappers
  import opened Lists
  import opened Stats
  import opened Aggregate

  /** One line of a per-eye pupil summary: the index and the nine numbers of both windows. */
  datatype Record = Record(index: string,
                           lumBefore: real, pupilBefore: real, countBefore: real, stdBefore: real,
                           lumAfter: real, pupilAfter: real, countAfter: real, stdAfter: real)

  /** Average, minimum and maximum of one window's valid values. */
  datatype Extent = Extent(average: real, min: real, max: real)

  /** The number of records read: the stream stops at the first record that does not parse. */
  function ReadCount(rows: seq<Option<Record>>): (n: nat)
    ensures n <= |rows| && forall k :: 0 <= k < n ==> rows[k].Some?
    ensures n < |rows| ==> rows[n].None?
  {
    var k := FirstFrom(rows, (o: Option<Record>) => o.None?, 0);
    if k == -1 then |rows| else k
  }

  /** The loop goes on exactly while a record parses. */
  lemma ReadGoesOn(rows: seq<Option<Record>>, i: nat)
    requires i <= ReadCount(rows)
    ensures i < |rows| && rows[i].Some? ==> i < ReadCount(rows)
    ensures !(i < |rows| && rows[i].Some?) ==> i == ReadCount(rows)
  {
  }

  lemma OneRecord(rows: seq<Option<Record>>, i: nat, f: Option<Record> -> Option<real>, xs: seq<real>)
    requires i < |rows| && xs == FilterMap(rows[..i], f)
    ensures FilterMap(rows[..i + 1], f) == match f(rows[i]) case Some(v) => xs + [v] case None => xs
  {
    assert rows[..i + 1] == rows[..i] + [rows[i]];
    FilterMapSnoc(rows[..i], rows[i], f);
  }

  function PositiveBefore(): Option<Record> -> Option<real> {
    (o: Option<Record>) => if o.Some? && o.value.pupilBefore > 0.0 then Some(o.value.pupilBefore) else None
  }

  function PositiveAfter(): Option<Record> -> Option<real> {
    (o: Option<Record>) => if o.Some? && o.value.pupilAfter > 0.0 then Some(o.value.pupilAfter) else None
  }

  /** The statistics of a window's valid values: nothing ("No valid data") when there is none. */
  function ExtentOf(xs: seq<real>): Option<Extent> {
    if xs == [] then None else Some(Extent(Mean(xs), RunningMin(xs), RunningMax(xs)))
  }

  /** The running minimum and maximum bracket the mean. */
  lemma ExtentBrackets(xs: seq<real>)
    ensures ExtentOf(xs).Some? ==> ExtentOf(xs).value.min <= ExtentOf(xs).value.average <= ExtentOf(xs).value.max
  {
    if xs != [] {
      RunningBounds(xs);
      MeanBetween(xs);
    }
  }

  /** The running sum, count and extremes of `xs`, as `processFile` keeps them for one window. */
  ghost predicate Running(xs: seq<real>, sum: real, count: nat, min: real, max: real) {
    sum == Sum(xs) && count == |xs| && min == RunningMin(xs) && max == RunningMax(xs)
  }

  lemma RunningTake(xs: seq<real>, sum: real, count: nat, min: real, max: real, v: real)
    requires Running(xs, sum, count, min, max)
    ensures Running(xs + [v], sum + v, count + 1, MinOf(min, v), MaxOf(max, v))
  {
    RunningStep(xs, v);
    SumAppend(xs, v);
  }

  /** What `processFile` prints for one window, from its running totals. */
  function Reported(sum: real, count: nat, min: real, max: real): Option<Extent> {
    if count > 0 then Some(Extent(sum / (count as real), min, max)) else None
  }

  lemma ReportedExtent(xs: seq<real>, sum: real, count: nat, min: real, max: real)
    requires Running(xs, sum, count, min, max)
    ensures Reported(sum, count, min, max) == ExtentOf(xs)
  {
  }

  /**
   * `processFile`: over the records read, the strictly positive before and
   * after pupil sizes give each window's average and extremes independently.
   */
  method ProcessFile(rows: seq<Option<Record>>) returns (before: Option<Extent>, after: Option<Extent>)
    ensures before == ExtentOf(FilterMap(rows[..ReadCount(rows)], PositiveBefore()))
    ensures after == ExtentOf(FilterMap(rows[..ReadCount(rows)], PositiveAfter()))
  {
    var sumBefore, sumAfter := 0.0, 0.0;
    var validCountBefore: nat, validCountAfter: nat := 0, 0;
    var minBefore, maxBefore := DoubleMax, DoubleLowest;
    var minAfter, maxAfter := DoubleMax, DoubleLowest;
    ghost var n := ReadCount(rows);
    ghost var bs: seq<real>, as_: seq<real> := [], [];
    var i := 0;
    while i < |rows| && rows[i].Some?
      invariant i <= n
      invariant bs == FilterMap(rows[..i], PositiveBefore()) && as_ == FilterMap(rows[..i], PositiveAfter())
      invariant Running(bs, sumBefore, validCountBefore, minBefore, maxBefore)
      invariant Running(as_, sumAfter, validCountAfter, minAfter, maxAfter)
    {
      ReadGoesOn(rows, i);
      var r := rows[i].value;
      OneRecord(rows, i, PositiveBefore(), bs);
      OneRecord(rows, i, PositiveAfter(), as_);
      if r.pupilBefore > 0.0 {
        RunningTake(bs, sumBefore, validCountBefore, minBefore, maxBefore, r.pupilBefore);
        sumBefore := sumBefore + r.pupilBefore;
        validCountBefore := validCountBefore + 1;
        minBefore := MinOf(minBefore, r.pupilBefore);
        maxBefore := MaxOf(maxBefore, r.pupilBefore);
        bs := bs + [r.pupilBefore];
      }
      if r.pupilAfter > 0.0 {
        RunningTake(as_, sumAfter, validCountAfter, minAfter, maxAfter, r.pupilAfter);
        sumAfter := sumAfter + r.pupilAfter;
        validCountAfter := validCountAfter + 1;
        minAfter := MinOf(minAfter, r.pupilAfter);
        maxAfter := MaxOf(maxAfter, r.pupilAfter);
        as_ := as_ + [r.pupilAfter];
      }
      i := i + 1;
    }
    ReadGoesOn(rows, i);
    assert i == ReadCount(rows);
    ReportedExtent(bs, sumBefore, validCountBefore, minBefore, maxBefore);
    ReportedExtent(as_, sumAfter, validCountAfter, minAfter, maxAfter);
    before := Reported(sumBefore, validCountBefore, minBefore, maxBefore);
    after := Reported(sumAfter, validCountAfter, minAfter, maxAfter);
  }

  /**
   * Every value behind a reported window is a strictly positive pupil size
   * of a record read before the first unparseable line, and each record
   * that has one is counted.
   */
  lemma ValidValues(rows: seq<Option<Record>>, v: real)
    ensures v in FilterMap(rows[..ReadCount(rows)], PositiveBefore()) <==>
            exists k :: 0 <= k < ReadCount(rows) && rows[k].Some? && rows[k].value.pupilBefore == v && v > 0.0
  {
    var rs := rows[..ReadCount(rows)];
    FilterMapMember(rs, PositiveBefore(), v);
    if exists k :: 0 <= k < ReadCount(rows) && rows[k].Some? && rows[k].value.pupilBefore == v && v > 0.0 {
      var k :| 0 <= k < ReadCount(rows) && rows[k].Some? && rows[k].value.pupilBefore == v && v > 0.0;
      assert rs[k] == rows[k];
    }
  }
}
