// The four window extractors (pupilsizeshook.cpp, luminanceshook.cpp,
// pupilsizenoshook.cpp, luminancenoshook.cpp): find the pupil columns and
// the event rows of one recording, collect the values timed inside the
// before window and the after window, and write them as a two-section file.
// The pupil extractors keep every parsed pair, -1 placeholders included; the
// luminance extractors read the column left of leftPupil and drop -1.

module Extract {
  import opened Wrappers
  import opened Text
  import opened Lists
  import P = PupilReport
  import opened Sections

  // ---------------------------------------------------------------- rows

  /** A pupil row: its time and both pupil sizes. */
  datatype PupilReading = PupilReading(t: real, left: real, right: real)

  /**
   * A row as the pupil extractors read it: skipped when it is not longer
   * than the larger pupil column, or when time or either pupil fails to
   * parse.  The values themselves are not checked.
   */
  function PupilRow(lc: int, rc: int, parse: string -> Option<real>): seq<string> -> Option<PupilReading> {
    (row: seq<string>) =>
      if |row| <= (if lc > rc then lc else rc) then None
      else match (P.Cell(row, 0, parse), P.Cell(row, lc, parse), P.Cell(row, rc, parse))
        case (Some(t), Some(l), Some(r)) => Some(PupilReading(t, l, r))
        case _ => None
  }

  function PupilTime(): PupilReading -> real { (s: PupilReading) => s.t }

  /** The two pupil sizes written on one line. */
  datatype Pair = Pair(left: real, right: real)

  function PairOf(): PupilReading -> Pair { (s: PupilReading) => Pair(s.left, s.right) }

  /** A luminance row: its time and the luminance cell. */
  datatype LumReading = LumReading(t: real, lum: real)

  /**
   * A row as the luminance extractors read it: skipped when it has at most
   * `guard` cells, when time or luminance fails to parse, or when the
   * luminance is the -1 placeholder.  A luminance column of -1 (leftPupil in
   * column 0) is never read.
   */
  function LumRow(lumCol: int, guard: nat, parse: string -> Option<real>): seq<string> -> Option<LumReading> {
    (row: seq<string>) =>
      if |row| <= guard then None
      else match (P.Cell(row, 0, parse), P.Cell(row, lumCol, parse))
        case (Some(t), Some(m)) => if m == -1.0 then None else Some(LumReading(t, m))
        case _ => None
  }

  function LumTime(): LumReading -> real { (s: LumReading) => s.t }

  function LumValue(): LumReading -> real { (s: LumReading) => s.lum }

  /** `(unsigned)c`, a 32-bit conversion: -1 becomes 4294967295. */
  function Unsigned(c: int): nat {
    c % 0x1_0000_0000
  }

  /** `(unsigned)max(c, 0)`. */
  function UnsignedAtLeastZero(c: int): nat {
    if c > 0 then Unsigned(c) else 0
  }

  // ---------------------------------------------------------------- windows

  /** A row's value when its time lies in the closed window [lo, hi]. */
  function InWindow<S, T>(read: seq<string> -> Option<S>, time: S -> real, value: S -> T, lo: real, hi: real)
    : seq<string> -> Option<T>
  {
    (row: seq<string>) =>
      match read(row)
      case Some(s) => if lo <= time(s) <= hi then Some(value(s)) else None
      case None => None
  }

  /** The values of the data rows (row 0 is the header) timed in [lo, hi], in row order. */
  function Window<S, T>(data: P.Rows, read: seq<string> -> Option<S>, time: S -> real, value: S -> T,
                        lo: real, hi: real): seq<T>
    requires data != []
  {
    FilterMap(data[1..], InWindow(read, time, value, lo, hi))
  }

  /** A value is in a window exactly when some data row read in the window has it. */
  lemma WindowMember<S, T>(data: P.Rows, read: seq<string> -> Option<S>, time: S -> real, value: S -> T,
                           lo: real, hi: real, x: T)
    requires data != []
    ensures x in Window(data, read, time, value, lo, hi) <==>
            exists i :: 1 <= i < |data| && read(data[i]).Some? && lo <= time(read(data[i]).value) <= hi
                                        && value(read(data[i]).value) == x
  {
    var f := InWindow(read, time, value, lo, hi);
    FilterMapMember(data[1..], f, x);
    if x in Window(data, read, time, value, lo, hi) {
      var j :| 0 <= j < |data[1..]| && f(data[1..][j]) == Some(x);
      assert data[1..][j] == data[j + 1];
    }
    if exists i :: 1 <= i < |data| && read(data[i]).Some? && lo <= time(read(data[i]).value) <= hi
                                   && value(read(data[i]).value) == x {
      var i :| 1 <= i < |data| && read(data[i]).Some? && lo <= time(read(data[i]).value) <= hi
                               && value(read(data[i]).value) == x;
      assert data[1..][i - 1] == data[i];
    }
  }

  /**
   * The row loop of the extractors: one pass over the data rows that puts
   * each readable row's value in the before list, the after list, both (a
   * row may lie in both windows) or neither.
   */
  method CollectWindows<S, T>(data: P.Rows, read: seq<string> -> Option<S>, time: S -> real, value: S -> T,
                              lo1: real, hi1: real, lo2: real, hi2: real)
    returns (before: seq<T>, after: seq<T>)
    requires data != []
    ensures before == Window(data, read, time, value, lo1, hi1)
    ensures after == Window(data, read, time, value, lo2, hi2)
  {
    ghost var w1, w2 := InWindow(read, time, value, lo1, hi1), InWindow(read, time, value, lo2, hi2);
    before, after := [], [];
    for i := 1 to |data|
      invariant before == FilterMap(data[1..i], w1)
      invariant after == FilterMap(data[1..i], w2)
    {
      WindowStep(data, i, read, time, value, lo1, hi1, before);
      WindowStep(data, i, read, time, value, lo2, hi2, after);
      var s := read(data[i]);
      if s.Some? {
        if lo1 <= time(s.value) <= hi1 {
          before := before + [value(s.value)];
        }
        if lo2 <= time(s.value) <= hi2 {
          after := after + [value(s.value)];
        }
      }
    }
    assert data[1..|data|] == data[1..];
  }

  /** One more data row: its value joins the window's list exactly when it is read and timed inside. */
  lemma WindowStep<S, T>(data: P.Rows, i: nat, read: seq<string> -> Option<S>, time: S -> real, value: S -> T,
                         lo: real, hi: real, acc: seq<T>)
    requires 1 <= i < |data| && acc == FilterMap(data[1..i], InWindow(read, time, value, lo, hi))
    ensures var s := read(data[i]);
            FilterMap(data[1..i + 1], InWindow(read, time, value, lo, hi))
            == if s.Some? && lo <= time(s.value) <= hi then acc + [value(s.value)] else acc
  {
    assert data[1..i + 1] == data[1..i] + [data[i]];
    FilterMapSnoc(data[1..i], data[i], InWindow(read, time, value, lo, hi));
  }

  // ---------------------------------------------------------------- one file

  datatype Extraction<T> =
    | EmptyFile
    | NoPupilColumns
    | NoEventColumn
    | MissingTag
    | BadEventTime      // reported, and the file is skipped
    | Aborted           // an uncaught conversion error ends the whole run
    | Extracted(before: seq<T>, after: seq<T>)

  /**
   * One file of a shook extractor: both pupil columns and the robotEvent
   * column are required, the before window is [t02 - 5, t02] around the
   * "0.2 seconds" row and the after window [tShook, tShook + 5] around the
   * "shook" row.  `reader` builds the row reader from the two pupil columns;
   * `badTime` is what an unparseable event time leads to.
   */
  function ShookFile<S, T>(data: P.Rows, parse: string -> Option<real>,
                           reader: (int, int) -> (seq<string> -> Option<S>), time: S -> real, value: S -> T,
                           badTime: Extraction<T>): Extraction<T>
  {
    if data == [] then EmptyFile
    else
      var header := StripEach(data[0]);
      ShookColumns(data, parse, reader, time, value, badTime,
                   LastWhere(header, P.Names("leftPupil")), LastWhere(header, P.Names("rightPupil")),
                   FirstFrom(header, P.Names("robotEvent"), 0))
  }

  function ShookColumns<S, T>(data: P.Rows, parse: string -> Option<real>,
                              reader: (int, int) -> (seq<string> -> Option<S>), time: S -> real, value: S -> T,
                              badTime: Extraction<T>, left: int, right: int, ev: int): Extraction<T>
    requires data != [] && ev >= -1
  {
    if left == -1 || right == -1 then NoPupilColumns
    else if ev == -1 then NoEventColumn
    else ShookRows(data, parse, reader, time, value, badTime, left, right,
                   P.FirstDataRow(data, P.EventHas(ev, "0.2 seconds")), P.FirstDataRow(data, P.EventHas(ev, "shook")))
  }

  function ShookRows<S, T>(data: P.Rows, parse: string -> Option<real>,
                           reader: (int, int) -> (seq<string> -> Option<S>), time: S -> real, value: S -> T,
                           badTime: Extraction<T>, left: int, right: int, r02: int, rSh: int): Extraction<T>
    requires data != [] && -1 <= r02 < |data| && -1 <= rSh < |data|
  {
    if r02 == -1 || rSh == -1 then MissingTag
    else match (P.Cell(data[r02], 0, parse), P.Cell(data[rSh], 0, parse))
      case (Some(bt), Some(at)) =>
        Extracted(Window(data, reader(left, right), time, value, bt - 5.0, bt),
                  Window(data, reader(left, right), time, value, at, at + 5.0))
      case _ => badTime
  }

  /** The body of the file loop in the `main` of pupilsizeshook.cpp and luminanceshook.cpp. */
  method ExtractShook<S, T>(data: P.Rows, parse: string -> Option<real>,
                            reader: (int, int) -> (seq<string> -> Option<S>), time: S -> real, value: S -> T,
                            badTime: Extraction<T>)
    returns (o: Extraction<T>)
    ensures o == ShookFile(data, parse, reader, time, value, badTime)
  {
    if data == [] {
      return EmptyFile;
    }
    var left, right := P.FindPupilColumns(data[0]);
    var ev := P.FindEventColumn(data[0]);
    o := ExtractShookColumns(data, parse, reader, time, value, badTime, left, right, ev);
  }

  method ExtractShookColumns<S, T>(data: P.Rows, parse: string -> Option<real>,
                                   reader: (int, int) -> (seq<string> -> Option<S>), time: S -> real,
                                   value: S -> T, badTime: Extraction<T>, left: int, right: int, ev: int)
    returns (o: Extraction<T>)
    requires data != [] && ev >= -1
    ensures o == ShookColumns(data, parse, reader, time, value, badTime, left, right, ev)
  {
    if left == -1 || right == -1 {
      return NoPupilColumns;
    }
    if ev == -1 {
      return NoEventColumn;
    }
    var r02, rSh := P.FindEventRows(data, ev);
    o := ExtractShookRows(data, parse, reader, time, value, badTime, left, right, r02, rSh);
  }

  method ExtractShookRows<S, T>(data: P.Rows, parse: string -> Option<real>,
                                reader: (int, int) -> (seq<string> -> Option<S>), time: S -> real,
                                value: S -> T, badTime: Extraction<T>, left: int, right: int, r02: int, rSh: int)
    returns (o: Extraction<T>)
    requires data != [] && -1 <= r02 < |data| && -1 <= rSh < |data|
    ensures o == ShookRows(data, parse, reader, time, value, badTime, left, right, r02, rSh)
  {
    if r02 == -1 || rSh == -1 {
      return MissingTag;
    }
    var bt, at := P.Cell(data[r02], 0, parse), P.Cell(data[rSh], 0, parse);
    if bt.None? || at.None? {
      return badTime;
    }
    var before, after := CollectWindows(data, reader(left, right), time, value,
                                        bt.value - 5.0, bt.value, at.value, at.value + 5.0);
    return Extracted(before, after);
  }

  /**
   * One file of a noshook extractor: the event row is the first data row with
   * any cell containing "0.2 seconds", at time t; the before window is
   * [t - 5, t] and the after window [t + 0.229, t + 5.229].  The right pupil
   * column is required only when `needRight`.
   */
  function NoShookFile<S, T>(data: P.Rows, parse: string -> Option<real>, needRight: bool,
                             reader: (int, int) -> (seq<string> -> Option<S>), time: S -> real, value: S -> T)
    : Extraction<T>
  {
    if data == [] then EmptyFile
    else
      var header := StripEach(data[0]);
      NoShookColumns(data, parse, needRight, reader, time, value,
                     LastWhere(header, P.Names("leftPupil")), LastWhere(header, P.Names("rightPupil")),
                     P.FirstDataRow(data, P.SomeCellHas("0.2 seconds")))
  }

  function NoShookColumns<S, T>(data: P.Rows, parse: string -> Option<real>, needRight: bool,
                                reader: (int, int) -> (seq<string> -> Option<S>), time: S -> real, value: S -> T,
                                left: int, right: int, er: int): Extraction<T>
    requires data != [] && -1 <= er < |data|
  {
    if left == -1 || (needRight && right == -1) then NoPupilColumns
    else if er == -1 then MissingTag
    else match P.Cell(data[er], 0, parse)
      case Some(bt) =>
        var et := bt + P.EventOffset;
        Extracted(Window(data, reader(left, right), time, value, bt - 5.0, bt),
                  Window(data, reader(left, right), time, value, et, et + 5.0))
      case None => BadEventTime
  }

  /** The body of the file loop in the `main` of pupilsizenoshook.cpp and luminancenoshook.cpp. */
  method ExtractNoShook<S, T>(data: P.Rows, parse: string -> Option<real>, needRight: bool,
                              reader: (int, int) -> (seq<string> -> Option<S>), time: S -> real, value: S -> T)
    returns (o: Extraction<T>)
    ensures o == NoShookFile(data, parse, needRight, reader, time, value)
  {
    if data == [] {
      return EmptyFile;
    }
    var left, right := P.FindPupilColumns(data[0]);
    var er := P.FindEventRow(data);
    o := ExtractNoShookColumns(data, parse, needRight, reader, time, value, left, right, er);
  }

  method ExtractNoShookColumns<S, T>(data: P.Rows, parse: string -> Option<real>, needRight: bool,
                                     reader: (int, int) -> (seq<string> -> Option<S>), time: S -> real,
                                     value: S -> T, left: int, right: int, er: int)
    returns (o: Extraction<T>)
    requires data != [] && -1 <= er < |data|
    ensures o == NoShookColumns(data, parse, needRight, reader, time, value, left, right, er)
  {
    if left == -1 || (needRight && right == -1) {
      return NoPupilColumns;
    }
    if er == -1 {
      return MissingTag;
    }
    var bt := P.Cell(data[er], 0, parse);
    if bt.None? {
      return BadEventTime;
    }
    var eventTime := bt.value + P.EventOffset;
    var before, after := CollectWindows(data, reader(left, right), time, value,
                                        bt.value - 5.0, bt.value, eventTime, eventTime + 5.0);
    return Extracted(before, after);
  }

  // ---------------------------------------------------------------- the four tools

  function PupilReader(parse: string -> Option<real>): (int, int) -> (seq<string> -> Option<PupilReading>) {
    (l: int, r: int) => PupilRow(l, r, parse)
  }

  /** luminanceshook.cpp: luminance in column leftPupil - 1, rows guarded by `(unsigned)max(lumCol, 0)`. */
  function ShookLumReader(parse: string -> Option<real>): (int, int) -> (seq<string> -> Option<LumReading>) {
    (l: int, r: int) => LumRow(l - 1, UnsignedAtLeastZero(l - 1), parse)
  }

  /** luminancenoshook.cpp: luminance in column leftPupil - 1, rows guarded by `(unsigned)lumCol`. */
  function NoShookLumReader(parse: string -> Option<real>): (int, int) -> (seq<string> -> Option<LumReading>) {
    (l: int, r: int) => LumRow(l - 1, Unsigned(l - 1), parse)
  }

  function PupilSizeShook(data: P.Rows, parse: string -> Option<real>): Extraction<Pair> {
    ShookFile(data, parse, PupilReader(parse), PupilTime(), PairOf(), BadEventTime)
  }

  /** An unparseable event time is not caught here: the run stops. */
  function LuminanceShook(data: P.Rows, parse: string -> Option<real>): Extraction<real> {
    ShookFile(data, parse, ShookLumReader(parse), LumTime(), LumValue(), Aborted)
  }

  function PupilSizeNoShook(data: P.Rows, parse: string -> Option<real>): Extraction<Pair> {
    NoShookFile(data, parse, true, PupilReader(parse), PupilTime(), PairOf())
  }

  function LuminanceNoShook(data: P.Rows, parse: string -> Option<real>): Extraction<real> {
    NoShookFile(data, parse, false, NoShookLumReader(parse), LumTime(), LumValue())
  }

  // ---------------------------------------------------------------- properties

  /**
   * The pupil extractors filter nothing by value: every parsed row timed in
   * the window contributes its pair, a -1 placeholder included.
   */
  lemma PlaceholdersKept(data: P.Rows, lc: int, rc: int, parse: string -> Option<real>, lo: real, hi: real, i: nat)
    requires 1 <= i < |data| && PupilRow(lc, rc, parse)(data[i]).Some?
    requires var s := PupilRow(lc, rc, parse)(data[i]).value; lo <= s.t <= hi
    ensures var s := PupilRow(lc, rc, parse)(data[i]).value;
            Pair(s.left, s.right) in Window(data, PupilRow(lc, rc, parse), PupilTime(), PairOf(), lo, hi)
  {
    assert data[1..][i - 1] == data[i];
    FilterMapKeeps(data[1..], InWindow(PupilRow(lc, rc, parse), PupilTime(), PairOf(), lo, hi), i - 1);
  }

  /** The luminance extractors never keep the -1 placeholder. */
  lemma NoLumPlaceholder(data: P.Rows, lumCol: int, guard: nat, parse: string -> Option<real>, lo: real, hi: real)
    requires data != []
    ensures -1.0 !in Window(data, LumRow(lumCol, guard, parse), LumTime(), LumValue(), lo, hi)
  {
    WindowMember(data, LumRow(lumCol, guard, parse), LumTime(), LumValue(), lo, hi, -1.0);
  }

  /** With leftPupil in column 0, the noshook luminance guard `(unsigned)-1` skips every row. */
  lemma NoShookLumColumnZero(data: P.Rows, parse: string -> Option<real>, lo: real, hi: real)
    requires |data| >= 1 && forall i :: 0 <= i < |data| ==> |data[i]| <= 0xFFFF_FFFF
    ensures Window(data, NoShookLumReader(parse)(0, 0), LumTime(), LumValue(), lo, hi) == []
  {
    WindowSkipsAll(data, NoShookLumReader(parse)(0, 0), LumTime(), LumValue(), lo, hi);
  }

  lemma WindowSkipsAll<S, T>(data: P.Rows, read: seq<string> -> Option<S>, time: S -> real, value: S -> T,
                             lo: real, hi: real)
    requires data != [] && forall i :: 1 <= i < |data| ==> read(data[i]).None?
    ensures Window(data, read, time, value, lo, hi) == []
  {
    var w := Window(data, read, time, value, lo, hi);
    if w != [] {
      WindowMember(data, read, time, value, lo, hi, w[0]);
    }
  }

  /** Both shook extractors and pupilsizenoshook skip a file exactly when either pupil column is missing. */
  lemma ShookNeedsBothColumns<S, T>(data: P.Rows, parse: string -> Option<real>,
                                    reader: (int, int) -> (seq<string> -> Option<S>), time: S -> real,
                                    value: S -> T, badTime: Extraction<T>)
    requires badTime != NoPupilColumns
    ensures ShookFile(data, parse, reader, time, value, badTime) == NoPupilColumns <==>
            data != [] && (LastWhere(StripEach(data[0]), P.Names("leftPupil")) == -1 ||
                           LastWhere(StripEach(data[0]), P.Names("rightPupil")) == -1)
  {
  }

  /**
   * A noshook extractor skips a file for its columns exactly when leftPupil
   * is missing, or rightPupil is missing and required: luminancenoshook.cpp
   * does not need rightPupil.
   */
  lemma NoShookColumnRule<S, T>(data: P.Rows, parse: string -> Option<real>, needRight: bool,
                                reader: (int, int) -> (seq<string> -> Option<S>), time: S -> real, value: S -> T)
    ensures NoShookFile(data, parse, needRight, reader, time, value) == NoPupilColumns <==>
            data != [] && (LastWhere(StripEach(data[0]), P.Names("leftPupil")) == -1 ||
                           (needRight && LastWhere(StripEach(data[0]), P.Names("rightPupil")) == -1))
  {
  }

  // ---------------------------------------------------------------- round trips

  /**
   * What an extractor writes, the whitespace-only-line readers read back:
   * pupilsizecal.cpp the before and after pairs of a pupil extractor, and
   * luminance.cpp the before and after values of a luminance extractor,
   * provided each written value is formatted as a line that is not
   * whitespace-only and that `parse` (the stream read) turns back into
   * the value.
   */
  lemma SectionFileRoundTrip<T>(b: seq<T>, a: seq<T>, fmt: T -> string, parse: string -> Option<T>)
    requires RecoversOn(b + a, fmt, NoneOf4(), parse)
    ensures Split(Written(b, a, fmt), NoneOf4(), parse) == (b, a)
  {
    assert NoneOf4()("");
    ReadWritten(b, a, fmt, NoneOf4(), parse);
  }

  /** What a luminance extractor writes, luminanceexpected.cpp's `readLuminanceFile` reads back. */
  lemma ExpectedFileRoundTrip(b: seq<real>, a: seq<real>, fmt: real -> string, parse: string -> Option<real>)
    requires RecoversOn(b + a, fmt, TrimsEmpty(), TrimmedParse(parse))
    ensures Split(Written(b, a, fmt), TrimsEmpty(), TrimmedParse(parse)) == (b, a)
  {
    assert TrimsEmpty()("");
    ReadWritten(b, a, fmt, TrimsEmpty(), TrimmedParse(parse));
  }
}
