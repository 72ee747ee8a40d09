// The two-section text files that connect the window extractors to the
// aggregators: the values of the before window one per line, one empty line,
// then the values of the after window.  The readers switch to the after
// section at the first blank line and skip every line that does not parse.
// Number formatting and parsing are parameters (`fmt`, `parse`); the reading
// of a file into its lines is not modelled.

module Sections {
  import opened Wrappers
  import opened Text
  import opened Lists

  /** One formatted value per line. */
  function Lines<T>(xs: seq<T>, fmt: T -> string): (r: seq<string>)
    ensures |r| == |xs|
  {
    if xs == [] then [] else Lines(xs[..|xs| - 1], fmt) + [fmt(xs[|xs| - 1])]
  }

  lemma {:induction false} LinesAt<T>(xs: seq<T>, fmt: T -> string, k: nat)
    requires k < |xs|
    ensures Lines(xs, fmt)[k] == fmt(xs[k])
  {
    if k < |xs| - 1 {
      LinesAt(xs[..|xs| - 1], fmt, k);
    }
  }

  /** What an extractor writes: the before values, an empty line, the after values. */
  function Written<T>(before: seq<T>, after: seq<T>, fmt: T -> string): (lines: seq<string>)
    ensures |lines| == |before| + 1 + |after|
  {
    Lines(before, fmt) + [""] + Lines(after, fmt)
  }

  /** The writer loop of the extractors. */
  method Write<T>(before: seq<T>, after: seq<T>, fmt: T -> string) returns (lines: seq<string>)
    ensures lines == Written(before, after, fmt)
  {
    lines := [];
    for i := 0 to |before|
      invariant lines == Lines(before[..i], fmt)
    {
      assert before[..i + 1][..i] == before[..i];
      lines := lines + [fmt(before[i])];
    }
    assert before[..|before|] == before;
    lines := lines + [""];
    ghost var head := lines;
    for i := 0 to |after|
      invariant lines == head + Lines(after[..i], fmt)
    {
      assert after[..i + 1][..i] == after[..i];
      lines := lines + [fmt(after[i])];
    }
    assert after[..|after|] == after;
  }

  // ---------------------------------------------------------------- blank lines

  predicate IsLineSpace(c: char) {
    c == ' ' || c == '\t' || c == '\r' || c == '\n'
  }

  /** The line holds nothing but spaces, tabs, carriage returns and newlines. */
  function NoneOf4(): string -> bool {
    (line: string) => forall i :: 0 <= i < |line| ==> IsLineSpace(line[i])
  }

  /** `trim(line).empty()`: nothing but `isspace` characters. */
  function TrimsEmpty(): string -> bool {
    (line: string) => Strip(line) == []
  }

  // ---------------------------------------------------------------- readers

  /** `parse(trim(line))`: the readers that trim each line before converting it. */
  function TrimmedParse<T>(parse: string -> Option<T>): string -> Option<T> {
    (line: string) => parse(Strip(line))
  }

  /** A line as the readers take it: blank lines carry no value, others may fail to parse. */
  function ParseLine<T>(blank: string -> bool, parse: string -> Option<T>): string -> Option<T> {
    (line: string) => if blank(line) then None else parse(line)
  }

  /**
   * The two lists a reader recovers: the parsed lines before the first blank
   * line, and the parsed lines after it (later blank lines only separate
   * nothing).  Without a blank line everything is "before".
   */
  function Split<T>(lines: seq<string>, blank: string -> bool, parse: string -> Option<T>): (seq<T>, seq<T>) {
    var k := FirstFrom(lines, blank, 0);
    if k == -1 then (FilterMap(lines, ParseLine(blank, parse)), [])
    else (FilterMap(lines[..k], ParseLine(blank, parse)), FilterMap(lines[k + 1..], ParseLine(blank, parse)))
  }

  /** What the reader holds after `i` lines, when `k` is the first blank line or -1. */
  ghost predicate ReadSoFar<T>(lines: seq<string>, k: int, pl: string -> Option<T>, i: nat,
                               isAfter: bool, before: seq<T>, after: seq<T>)
    requires i <= |lines| && -1 <= k < |lines|
  {
    if 0 <= k < i then isAfter && before == FilterMap(lines[..k], pl) && after == FilterMap(lines[k + 1..i], pl)
    else !isAfter && before == FilterMap(lines[..i], pl) && after == []
  }

  /** A section's values once `line` is read into it. */
  function Next<T>(acc: seq<T>, pl: string -> Option<T>, line: string): seq<T> {
    match pl(line)
    case Some(v) => acc + [v]
    case None => acc
  }

  /** The reader loop with its after-section flag. */
  method ReadSections<T>(lines: seq<string>, blank: string -> bool, parse: string -> Option<T>)
    returns (before: seq<T>, after: seq<T>)
    ensures (before, after) == Split(lines, blank, parse)
  {
    ghost var pl := ParseLine(blank, parse);
    ghost var k := FirstFrom(lines, blank, 0);
    before, after := [], [];
    var isAfter := false;
    for i := 0 to |lines|
      invariant ReadSoFar(lines, k, pl, i, isAfter, before, after)
    {
      FirstBlank(lines, blank, i);
      if 0 <= k < i {
        ReadAfter(lines, pl, k, i, isAfter, before, after);
      } else if k == i {
        ReadAtBlank(lines, pl, k, i, isAfter, before, after);
      } else {
        ReadBefore(lines, pl, k, i, isAfter, before, after);
      }
      if blank(lines[i]) {
        isAfter := true;
        continue;
      }
      var v := parse(lines[i]);
      if v.Some? {
        if !isAfter {
          before := before + [v.value];
        } else {
          after := after + [v.value];
        }
      }
    }
    ReadDone(lines, blank, parse, isAfter, before, after);
  }

  lemma ReadDone<T>(lines: seq<string>, blank: string -> bool, parse: string -> Option<T>,
                    isAfter: bool, before: seq<T>, after: seq<T>)
    requires ReadSoFar(lines, FirstFrom(lines, blank, 0), ParseLine(blank, parse), |lines|, isAfter, before, after)
    ensures (before, after) == Split(lines, blank, parse)
  {
    assert lines[..|lines|] == lines;
  }

  /** After the first blank line, each line goes to the after section. */
  lemma ReadAfter<T>(lines: seq<string>, pl: string -> Option<T>, k: int, i: nat,
                     isAfter: bool, before: seq<T>, after: seq<T>)
    requires 0 <= k < i < |lines|
    requires ReadSoFar(lines, k, pl, i, isAfter, before, after)
    ensures isAfter && ReadSoFar(lines, k, pl, i + 1, true, before, Next(after, pl, lines[i]))
  {
    assert lines[k + 1..i + 1] == lines[k + 1..i] + [lines[i]];
    FilterMapSnoc(lines[k + 1..i], lines[i], pl);
  }

  /** The first blank line switches sections and adds nothing. */
  lemma ReadAtBlank<T>(lines: seq<string>, pl: string -> Option<T>, k: int, i: nat,
                       isAfter: bool, before: seq<T>, after: seq<T>)
    requires 0 <= k == i < |lines|
    requires ReadSoFar(lines, k, pl, i, isAfter, before, after)
    ensures !isAfter && ReadSoFar(lines, k, pl, i + 1, true, before, after)
  {
    assert lines[k + 1..i + 1] == [];
  }

  /** Before the first blank line, each line goes to the before section. */
  lemma ReadBefore<T>(lines: seq<string>, pl: string -> Option<T>, k: int, i: nat,
                      isAfter: bool, before: seq<T>, after: seq<T>)
    requires i < |lines| && -1 <= k < |lines| && !(0 <= k <= i)
    requires ReadSoFar(lines, k, pl, i, isAfter, before, after)
    ensures !isAfter && ReadSoFar(lines, k, pl, i + 1, false, Next(before, pl, lines[i]), after)
  {
    assert lines[..i + 1] == lines[..i] + [lines[i]];
    FilterMapSnoc(lines[..i], lines[i], pl);
  }

  /** Before the first blank line, line `i` is blank exactly when it is that line. */
  lemma FirstBlank(lines: seq<string>, blank: string -> bool, i: nat)
    requires i < |lines|
    ensures var k := FirstFrom(lines, blank, 0);
            !(0 <= k < i) ==> (blank(lines[i]) <==> k == i)
  {
  }

  /** Once the first blank line is passed, every later line belongs to the after section. */
  lemma SplitAtFirstBlank<T>(xs: seq<string>, b: string, ys: seq<string>, blank: string -> bool, parse: string -> Option<T>)
    requires blank(b) && forall k :: 0 <= k < |xs| ==> !blank(xs[k])
    ensures Split(xs + [b] + ys, blank, parse) == (FilterMap(xs, ParseLine(blank, parse)), FilterMap(ys, ParseLine(blank, parse)))
  {
    var lines := xs + [b] + ys;
    assert lines[|xs|] == b;
    assert FirstFrom(lines, blank, 0) == |xs|;
    assert lines[..|xs|] == xs;
    assert lines[|xs| + 1..] == ys;
  }

  /** Every listed value is written as a line that is not blank and that parses back to the value. */
  ghost predicate RecoversOn<T>(xs: seq<T>, fmt: T -> string, blank: string -> bool, parse: string -> Option<T>) {
    forall x :: x in xs ==> !blank(fmt(x)) && parse(fmt(x)) == Some(x)
  }

  /** Formatted values that each parse back to themselves survive the filter. */
  lemma {:induction false} ReadLines<T>(xs: seq<T>, fmt: T -> string, blank: string -> bool, parse: string -> Option<T>)
    requires RecoversOn(xs, fmt, blank, parse)
    ensures FilterMap(Lines(xs, fmt), ParseLine(blank, parse)) == xs
    ensures forall k :: 0 <= k < |xs| ==> !blank(Lines(xs, fmt)[k])
  {
    if xs != [] {
      var p := xs[..|xs| - 1];
      assert forall x :: x in p ==> x in xs;
      ReadLines(p, fmt, blank, parse);
      FilterMapSnoc(Lines(p, fmt), fmt(xs[|xs| - 1]), ParseLine(blank, parse));
      assert p + [xs[|xs| - 1]] == xs;
      forall k | 0 <= k < |xs| ensures !blank(Lines(xs, fmt)[k]) {
        LinesAt(xs, fmt, k);
      }
    }
  }

  /**
   * The round trip of the two-section format: when an empty line is blank
   * and every written value is formatted as a non-blank line that parses
   * back to the value, reading what was written gives back both lists.
   */
  lemma ReadWritten<T>(before: seq<T>, after: seq<T>, fmt: T -> string, blank: string -> bool, parse: string -> Option<T>)
    requires blank("")
    requires RecoversOn(before + after, fmt, blank, parse)
    ensures Split(Written(before, after, fmt), blank, parse) == (before, after)
  {
    ReadLines(before, fmt, blank, parse);
    ReadLines(after, fmt, blank, parse);
    SplitAtFirstBlank(Lines(before, fmt), "", Lines(after, fmt), blank, parse);
  }
}
