// Expected pupil sizes from luminance (luminanceexpected.cpp): each
// participant's luminance mapping table is read, every luminance value of the
// before and after windows is replaced by the average pupil sizes of the
// table row whose luminance is closest, and the results are gathered over
// all data points and per person.

module LuminanceExpected {
  import opened Wrappers
  import opened Text
  import opened Lists
  import opened Stats
  import opened Sections
  import opened Aggregate
  import PupilReport

  /** One row of a mapping table. */
  datatype MappingRow = MappingRow(luminance: real, avgLeft: real, countLeft: int, stdDevLeft: real,
                                   avgRight: real, countRight: int, stdDevRight: real)

  /** `MappingRow best{}`: every field zero. */
  const ZeroRow := MappingRow(0.0, 0.0, 0, 0.0, 0.0, 0, 0.0)

  // ---------------------------------------------------------------- mapping file

  function IsEmptyLine(): string -> bool {
    (t: string) => t == []
  }

  function HasText(): string -> bool {
    (t: string) => t != []
  }

  /**
   * The rows of trimmed lines: empty lines are ignored, the first other line
   * is the header, and of the lines after it those that parse as seven
   * fields are kept, in order.
   */
  function HeaderRows(ts: seq<string>, parse7: string -> Option<MappingRow>): seq<MappingRow> {
    var h := FirstFrom(ts, HasText(), 0);
    if h == -1 then [] else FilterMap(ts[h + 1..], ParseLine(IsEmptyLine(), parse7))
  }

  /** The rows `readMappingFile` keeps from the lines of a mapping file. */
  function MappingRows(lines: seq<string>, parse7: string -> Option<MappingRow>): seq<MappingRow> {
    HeaderRows(StripEach(lines), parse7)
  }

  /** The header flag and the rows once the trimmed line `t` is read: empty lines and the header are skipped. */
  function MappingNext(st: (bool, seq<MappingRow>), t: string, parse7: string -> Option<MappingRow>): (bool, seq<MappingRow>) {
    if t == [] then st
    else if !st.0 then (true, st.1)
    else (true, match parse7(t) case Some(r) => st.1 + [r] case None => st.1)
  }

  /** The header flag and the rows after reading the trimmed lines `ts` one by one. */
  function MappingState(ts: seq<string>, parse7: string -> Option<MappingRow>): (bool, seq<MappingRow>) {
    if ts == [] then (false, [])
    else MappingNext(MappingState(ts[..|ts| - 1], parse7), ts[|ts| - 1], parse7)
  }

  lemma MappingStateSnoc(ts: seq<string>, parse7: string -> Option<MappingRow>, i: nat)
    requires i < |ts|
    ensures MappingState(ts[..i + 1], parse7) == MappingNext(MappingState(ts[..i], parse7), ts[i], parse7)
  {
    assert ts[..i + 1][..i] == ts[..i];
  }

  /** `readMappingFile`'s loop, with its header flag. */
  method ReadMappingFile(lines: seq<string>, parse7: string -> Option<MappingRow>) returns (mapping: seq<MappingRow>)
    ensures mapping == MappingRows(lines, parse7)
  {
    ghost var ts := StripEach(lines);
    mapping := [];
    var headerSkipped := false;
    for i := 0 to |lines|
      invariant (headerSkipped, mapping) == MappingState(ts[..i], parse7)
    {
      MappingStateSnoc(ts, parse7, i);
      var line := Strip(lines[i]);
      assert ts[i] == line;
      if line == [] {
        continue;
      }
      if !headerSkipped {
        headerSkipped := true;
        continue;
      }
      var row := parse7(line);
      if row.Some? {
        mapping := mapping + [row.value];
      }
    }
    assert ts[..|lines|] == ts;
    MappingStateRows(ts, parse7);
  }

  /** Reading line by line keeps exactly the rows after the header. */
  lemma MappingStateRows(ts: seq<string>, parse7: string -> Option<MappingRow>)
    ensures MappingState(ts, parse7).1 == HeaderRows(ts, parse7)
  {
    var h := FirstFrom(ts, HasText(), 0);
    var pl := ParseLine(IsEmptyLine(), parse7);
    MappingStateSoFar(ts, parse7, h, pl, |ts|);
    assert ts[..|ts|] == ts;
    if h >= 0 {
      assert ts[h + 1..|ts|] == ts[h + 1..];
    }
  }

  /** What `readMappingFile` holds after `i` trimmed lines, when `h` is the header line or -1. */
  ghost predicate MappingSoFar(ts: seq<string>, h: int, pl: string -> Option<MappingRow>, i: nat,
                               st: (bool, seq<MappingRow>))
  {
    && i <= |ts| && -1 <= h < |ts|
    && if 0 <= h < i then st.0 && st.1 == FilterMap(ts[h + 1..i], pl)
       else !st.0 && st.1 == []
  }

  lemma {:induction false} MappingStateSoFar(ts: seq<string>, parse7: string -> Option<MappingRow>, h: int,
                                             pl: string -> Option<MappingRow>, i: nat)
    requires h == FirstFrom(ts, HasText(), 0) && pl == ParseLine(IsEmptyLine(), parse7)
    requires i <= |ts|
    ensures MappingSoFar(ts, h, pl, i, MappingState(ts[..i], parse7))
  {
    if i > 0 {
      MappingStateSoFar(ts, parse7, h, pl, i - 1);
      MappingStateSnoc(ts, parse7, i - 1);
      MappingStep(ts, parse7, h, pl, i - 1, MappingState(ts[..i - 1], parse7));
    } else {
      assert MappingState(ts[..0], parse7) == (false, []);
    }
  }

  /** One trimmed line read. */
  lemma MappingStep(ts: seq<string>, parse7: string -> Option<MappingRow>, h: int, pl: string -> Option<MappingRow>,
                    i: nat, st: (bool, seq<MappingRow>))
    requires h == FirstFrom(ts, HasText(), 0) && pl == ParseLine(IsEmptyLine(), parse7)
    requires i < |ts| && MappingSoFar(ts, h, pl, i, st)
    ensures MappingSoFar(ts, h, pl, i + 1, MappingNext(st, ts[i], parse7))
  {
    HeaderAt(ts, i);
    if 0 <= h < i {
      AfterHeader(ts, pl, h, i, st);
    } else if h == i {
      AtHeader(ts, pl, h, i, st);
    } else {
      BeforeHeader(ts, pl, h, i, st);
    }
  }

  /** Before the header, a line is not empty exactly when it is the header. */
  lemma HeaderAt(ts: seq<string>, i: nat)
    requires i < |ts|
    ensures var h := FirstFrom(ts, HasText(), 0);
            !(0 <= h < i) ==> (ts[i] != [] <==> h == i)
  {
  }

  lemma AfterHeader(ts: seq<string>, pl: string -> Option<MappingRow>, h: int, i: nat, st: (bool, seq<MappingRow>))
    requires 0 <= h < i < |ts| && MappingSoFar(ts, h, pl, i, st)
    ensures st.0 && MappingSoFar(ts, h, pl, i + 1, (true, match pl(ts[i]) case Some(r) => st.1 + [r] case None => st.1))
  {
    assert ts[h + 1..i + 1] == ts[h + 1..i] + [ts[i]];
    FilterMapSnoc(ts[h + 1..i], ts[i], pl);
  }

  lemma AtHeader(ts: seq<string>, pl: string -> Option<MappingRow>, h: int, i: nat, st: (bool, seq<MappingRow>))
    requires 0 <= h == i < |ts| && MappingSoFar(ts, h, pl, i, st)
    ensures !st.0 && MappingSoFar(ts, h, pl, i + 1, (true, st.1))
  {
    assert ts[h + 1..i + 1] == [];
  }

  lemma BeforeHeader(ts: seq<string>, pl: string -> Option<MappingRow>, h: int, i: nat, st: (bool, seq<MappingRow>))
    requires i < |ts| && -1 <= h < |ts| && !(0 <= h <= i) && MappingSoFar(ts, h, pl, i, st)
    ensures !st.0 && MappingSoFar(ts, h, pl, i + 1, st)
  {
  }

  /**
   * The first non-empty line is a header and is never read as a row: a
   * header followed by rows written in a format the reader recovers gives
   * back exactly those rows.
   */
  lemma MappingRoundTrip(header: string, rows: seq<MappingRow>, fmt: MappingRow -> string,
                         parse7: string -> Option<MappingRow>)
    requires Strip(header) != []
    requires RecoversOn(rows, fmt, TrimsEmpty(), TrimmedParse(parse7))
    ensures MappingRows([header] + Lines(rows, fmt), parse7) == rows
  {
    var sfmt := StripFmt(fmt);
    var ts := StripEach([header] + Lines(rows, fmt));
    TrimmedAppend([header], Lines(rows, fmt));
    TrimmedLines(rows, fmt);
    assert ts == [Strip(header)] + Lines(rows, sfmt);
    HeaderFirst(ts, Strip(header), Lines(rows, sfmt), parse7);
    StripRecovers(rows, fmt, parse7);
    ReadLines(rows, sfmt, IsEmptyLine(), parse7);
  }

  lemma HeaderFirst(ts: seq<string>, t: string, rest: seq<string>, parse7: string -> Option<MappingRow>)
    requires t != [] && ts == [t] + rest
    ensures HeaderRows(ts, parse7) == FilterMap(rest, ParseLine(IsEmptyLine(), parse7))
  {
    assert HasText()(ts[0]);
    assert ts[1..] == rest;
  }

  /** A format followed by trimming. */
  function StripFmt<T>(fmt: T -> string): T -> string {
    (x: T) => Strip(fmt(x))
  }

  lemma TrimmedAppend(a: seq<string>, b: seq<string>)
    ensures StripEach(a + b) == StripEach(a) + StripEach(b)
  {
  }

  lemma TrimmedLines<T>(xs: seq<T>, fmt: T -> string)
    ensures StripEach(Lines(xs, fmt)) == Lines(xs, StripFmt(fmt))
  {
    forall k | 0 <= k < |xs| ensures StripEach(Lines(xs, fmt))[k] == Lines(xs, StripFmt(fmt))[k] {
      LinesAt(xs, fmt, k);
      LinesAt(xs, StripFmt(fmt), k);
    }
  }

  lemma StripRecovers(rows: seq<MappingRow>, fmt: MappingRow -> string, parse7: string -> Option<MappingRow>)
    requires RecoversOn(rows, fmt, TrimsEmpty(), TrimmedParse(parse7))
    ensures RecoversOn(rows, StripFmt(fmt), IsEmptyLine(), parse7)
  {
    forall x | x in rows ensures !IsEmptyLine()(StripFmt(fmt)(x)) && parse7(StripFmt(fmt)(x)) == Some(x) {
      assert !TrimsEmpty()(fmt(x)) && TrimmedParse(parse7)(fmt(x)) == Some(x);
    }
  }

  // ---------------------------------------------------------------- closest row

  function Abs(x: real): real { if x < 0.0 then -x else x }

  function Diff(row: MappingRow, lum: real): real { Abs(row.luminance - lum) }

  /**
   * The row `findClosestMapping` picks: the first row of least distance to
   * `lum`, among those closer than the `DoubleMax` start; -1 when none is.
   */
  function ClosestIndex(mapping: seq<MappingRow>, lum: real): (r: int)
    ensures -1 <= r < |mapping|
    ensures r == -1 <==> forall j :: 0 <= j < |mapping| ==> Diff(mapping[j], lum) >= DoubleMax
    ensures r >= 0 ==> Diff(mapping[r], lum) < DoubleMax
    ensures r >= 0 ==> forall j :: 0 <= j < |mapping| ==> Diff(mapping[r], lum) <= Diff(mapping[j], lum)
    ensures r >= 0 ==> forall j :: 0 <= j < r ==> Diff(mapping[r], lum) < Diff(mapping[j], lum)
  {
    if mapping == [] then -1
    else
      var p := ClosestIndex(mapping[..|mapping| - 1], lum);
      var best := if p == -1 then DoubleMax else Diff(mapping[p], lum);
      if Diff(mapping[|mapping| - 1], lum) < best then |mapping| - 1 else p
  }

  /** The row found for `lum`, or the zero row. */
  function Closest(mapping: seq<MappingRow>, lum: real): MappingRow {
    var r := ClosestIndex(mapping, lum);
    if r == -1 then ZeroRow else mapping[r]
  }

  /** `findClosestMapping`: the strict `<` keeps the earliest of equally close rows. */
  method FindClosestMapping(mapping: seq<MappingRow>, lum: real) returns (best: MappingRow)
    ensures best == Closest(mapping, lum)
    ensures mapping == [] ==> best == ZeroRow
  {
    best := ZeroRow;
    var bestDiff := DoubleMax;
    ghost var r := -1;
    for i := 0 to |mapping|
      invariant r == ClosestIndex(mapping[..i], lum)
      invariant r == -1 ==> best == ZeroRow && bestDiff == DoubleMax
      invariant r >= 0 ==> best == mapping[r] && bestDiff == Diff(mapping[r], lum)
    {
      assert mapping[..i + 1][..i] == mapping[..i];
      var diff := Abs(mapping[i].luminance - lum);
      if diff < bestDiff {
        bestDiff := diff;
        best := mapping[i];
        r := i;
      }
    }
    assert mapping[..|mapping|] == mapping;
  }

  /** An exact match is found unless an earlier row matches exactly too. */
  lemma ExactMatch(mapping: seq<MappingRow>, lum: real, k: nat)
    requires k < |mapping| && mapping[k].luminance == lum
    ensures Closest(mapping, lum).luminance == lum
  {
  }

  // ---------------------------------------------------------------- one file

  /** The four expected-size vectors of one file, or of all files. */
  datatype EyeVectors = EyeVectors(leftBefore: seq<real>, rightBefore: seq<real>,
                                   leftAfter: seq<real>, rightAfter: seq<real>)

  const NoVectors := EyeVectors([], [], [], [])

  /** The left averages of the rows closest to each luminance value. */
  function AvgLefts(mapping: seq<MappingRow>, lums: seq<real>): (r: seq<real>)
    ensures |r| == |lums|
  {
    if lums == [] then [] else AvgLefts(mapping, lums[..|lums| - 1]) + [Closest(mapping, lums[|lums| - 1]).avgLeft]
  }

  /** The right averages of the rows closest to each luminance value. */
  function AvgRights(mapping: seq<MappingRow>, lums: seq<real>): (r: seq<real>)
    ensures |r| == |lums|
  {
    if lums == [] then [] else AvgRights(mapping, lums[..|lums| - 1]) + [Closest(mapping, lums[|lums| - 1]).avgRight]
  }

  /** Each value's expected sizes come from its own closest row. */
  lemma {:induction false} AvgAt(mapping: seq<MappingRow>, lums: seq<real>, k: nat)
    requires k < |lums|
    ensures AvgLefts(mapping, lums)[k] == Closest(mapping, lums[k]).avgLeft
    ensures AvgRights(mapping, lums)[k] == Closest(mapping, lums[k]).avgRight
  {
    if k < |lums| - 1 {
      AvgAt(mapping, lums[..|lums| - 1], k);
    }
  }

  /** The loops of lines 198-212 for one window. */
  method ConvertWindow(mapping: seq<MappingRow>, lums: seq<real>) returns (lefts: seq<real>, rights: seq<real>)
    ensures lefts == AvgLefts(mapping, lums) && rights == AvgRights(mapping, lums)
  {
    lefts, rights := [], [];
    for i := 0 to |lums|
      invariant lefts == AvgLefts(mapping, lums[..i]) && rights == AvgRights(mapping, lums[..i])
    {
      assert lums[..i + 1][..i] == lums[..i];
      var closest := FindClosestMapping(mapping, lums[i]);
      lefts := lefts + [closest.avgLeft];
      rights := rights + [closest.avgRight];
    }
    assert lums[..|lums|] == lums;
  }

  /** The name of the mapping file for a luminance file name. */
  function MappingName(name: string): string
    requires |name| >= 5
  {
    name[..5] + "_luminance_mapping.txt"
  }

  /**
   * One luminance file: skipped when its name is shorter than five
   * characters, when its mapping file is missing or when the mapping has no
   * row; otherwise its before and after values converted one by one.
   */
  function FileVectors(name: string, lines: seq<string>, mappings: map<string, seq<string>>,
                       parse: string -> Option<real>, parse7: string -> Option<MappingRow>): Option<EyeVectors>
  {
    if |name| < 5 || MappingName(name) !in mappings then None
    else
      var mapping := MappingRows(mappings[MappingName(name)], parse7);
      if mapping == [] then None
      else
        var (b, a) := Split(lines, TrimsEmpty(), TrimmedParse(parse));
        Some(EyeVectors(AvgLefts(mapping, b), AvgRights(mapping, b), AvgLefts(mapping, a), AvgRights(mapping, a)))
  }

  /** Every luminance value of a converted file gives exactly one expected size per eye. */
  lemma OnePerValue(name: string, lines: seq<string>, mappings: map<string, seq<string>>,
                    parse: string -> Option<real>, parse7: string -> Option<MappingRow>)
    ensures var v := FileVectors(name, lines, mappings, parse, parse7);
            var (b, a) := Split(lines, TrimsEmpty(), TrimmedParse(parse));
            v.Some? ==> |v.value.leftBefore| == |v.value.rightBefore| == |b|
                        && |v.value.leftAfter| == |v.value.rightAfter| == |a|
  {
  }

  /** The body of the file loop up to the per-file vectors. */
  method ConvertFile(name: string, lines: seq<string>, mappings: map<string, seq<string>>,
                     parse: string -> Option<real>, parse7: string -> Option<MappingRow>)
    returns (v: Option<EyeVectors>)
    ensures v == FileVectors(name, lines, mappings, parse, parse7)
  {
    if |name| < 5 {
      return None;
    }
    var mappingName := name[..5] + "_luminance_mapping.txt";
    if mappingName !in mappings {
      return None;
    }
    var mapping := ReadMappingFile(mappings[mappingName], parse7);
    if mapping == [] {
      return None;
    }
    var beforeLum, afterLum := ReadSections(lines, TrimsEmpty(), TrimmedParse(parse));
    var fileLeftBefore, fileRightBefore := ConvertWindow(mapping, beforeLum);
    var fileLeftAfter, fileRightAfter := ConvertWindow(mapping, afterLum);
    v := Some(EyeVectors(fileLeftBefore, fileRightBefore, fileLeftAfter, fileRightAfter));
  }

  // ---------------------------------------------------------------- all files

  function Concat(g: EyeVectors, v: EyeVectors): EyeVectors {
    EyeVectors(g.leftBefore + v.leftBefore, g.rightBefore + v.rightBefore,
               g.leftAfter + v.leftAfter, g.rightAfter + v.rightAfter)
  }

  /** The per-person vectors gain each of the file's averages that is not -1. */
  function AddAverages(p: EyeVectors, v: EyeVectors): EyeVectors {
    EyeVectors(PupilReport.Keep(p.leftBefore, PersonEntry(v.leftBefore)),
               PupilReport.Keep(p.rightBefore, PersonEntry(v.rightBefore)),
               PupilReport.Keep(p.leftAfter, PersonEntry(v.leftAfter)),
               PupilReport.Keep(p.rightAfter, PersonEntry(v.rightAfter)))
  }

  /** A luminance file: its name (for the index) and its lines. */
  datatype LumFile = LumFile(name: string, lines: seq<string>)

  /** The global and per-person vectors after the given files, in order. */
  function Gathered(files: seq<LumFile>, mappings: map<string, seq<string>>,
                    parse: string -> Option<real>, parse7: string -> Option<MappingRow>): (EyeVectors, EyeVectors)
  {
    if files == [] then (NoVectors, NoVectors)
    else
      var (g, p) := Gathered(files[..|files| - 1], mappings, parse, parse7);
      var f := files[|files| - 1];
      match FileVectors(f.name, f.lines, mappings, parse, parse7)
      case None => (g, p)
      case Some(v) => (Concat(g, v), AddAverages(p, v))
  }

  /** The file loop of `main`. */
  method GatherExpected(files: seq<LumFile>, mappings: map<string, seq<string>>,
                        parse: string -> Option<real>, parse7: string -> Option<MappingRow>)
    returns (global: EyeVectors, perPerson: EyeVectors)
    ensures (global, perPerson) == Gathered(files, mappings, parse, parse7)
  {
    global, perPerson := NoVectors, NoVectors;
    for f := 0 to |files|
      invariant (global, perPerson) == Gathered(files[..f], mappings, parse, parse7)
    {
      assert files[..f + 1][..f] == files[..f];
      var v := ConvertFile(files[f].name, files[f].lines, mappings, parse, parse7);
      if v.None? {
        continue;
      }
      var fv := v.value;
      global := Concat(global, fv);
      var leftBeforeAvg := FileAvg(fv.leftBefore);
      var rightBeforeAvg := FileAvg(fv.rightBefore);
      var leftAfterAvg := FileAvg(fv.leftAfter);
      var rightAfterAvg := FileAvg(fv.rightAfter);
      perPerson := EyeVectors(
        if leftBeforeAvg != -1.0 then perPerson.leftBefore + [leftBeforeAvg] else perPerson.leftBefore,
        if rightBeforeAvg != -1.0 then perPerson.rightBefore + [rightBeforeAvg] else perPerson.rightBefore,
        if leftAfterAvg != -1.0 then perPerson.leftAfter + [leftAfterAvg] else perPerson.leftAfter,
        if rightAfterAvg != -1.0 then perPerson.rightAfter + [rightAfterAvg] else perPerson.rightAfter);
    }
    assert files[..|files|] == files;
  }
}
