// findcalibration.cpp: every regular `.csv` file of the Evolab folder is
// scanned, line by line and comma-separated cell by cell, for the first cell
// mentioning "start calibration" and the first mentioning "finished
// calibration" (case-insensitively); each file is then counted as having both
// keywords (and moved to the "complete" folder), only the start, only the
// finish, or neither.

module Calibration {
  import opened Wrappers
  import opened Text
  import opened Lists

  const StartKeyword: string := "start calibration"
  const FinishKeyword: string := "finished calibration"

  // ---------------------------------------------------------------- names and cells

  /** `extractIndex`: the first five characters of the file name (fewer when it is shorter). */
  function ExtractIndex(fileName: string): (r: string)
    ensures |r| == if |fileName| < 5 then |fileName| else 5
    ensures r == fileName[..|r|]
  {
    Take(fileName, 5)
  }

  /** `toLowerCase`: the copy is lower-cased character by character, in place. */
  method ToLowerCase(str: string) returns (r: string)
    ensures |r| == |str| && forall k :: 0 <= k < |r| ==> r[k] == LowerChar(str[k])
    ensures r == Lower(str)
  {
    var a := new char[|str|](k requires 0 <= k < |str| => str[k]);
    for i := 0 to a.Length
      invariant forall k :: 0 <= k < i ==> a[k] == LowerChar(str[k])
      invariant forall k :: i <= k < a.Length ==> a[k] == str[k]
    {
      a[i] := LowerChar(a[i]);
    }
    r := a[..];
    forall k | 0 <= k < |r|
      ensures r[k] == Lower(str)[k]
    {
      LowerAt(str, k);
    }
  }

  function IsComma(): char -> bool {
    (ch: char) => ch == ','
  }

  /** The position of the first comma from `from` on, or -1. */
  function CommaFrom(line: string, from: nat): (r: int)
    ensures r == -1 || from <= r < |line|
    decreases |line| - from
  {
    if from >= |line| then -1
    else if line[from] == ',' then from
    else CommaFrom(line, from + 1)
  }

  lemma {:induction false} CommaFromSpec(line: string, from: nat)
    requires from <= |line|
    ensures CommaFrom(line, from) == FirstFrom(line, IsComma(), from)
    decreases |line| - from
  {
    if from < |line| && line[from] != ',' {
      CommaFromSpec(line, from + 1);
    }
  }

  /**
   * The cells `getline(ss, cell, ',')` yields from one line: the pieces
   * between commas, where an empty line has no cell and a trailing comma
   * does not start one.
   */
  function Cells(line: string): seq<string>
    decreases |line|
  {
    if line == [] then []
    else
      var c := CommaFrom(line, 0);
      if c == -1 then [line] else [line[..c]] + Cells(line[c + 1..])
  }

  /** No cell holds a comma. */
  lemma {:induction false} CellsCommaFree(line: string)
    ensures forall k :: 0 <= k < |Cells(line)| ==> ',' !in Cells(line)[k]
    decreases |line|
  {
    if line != [] {
      CommaFromSpec(line, 0);
      var c := FirstFrom(line, IsComma(), 0);
      if c != -1 {
        CellsCommaFree(line[c + 1..]);
        var r := Cells(line[c + 1..]);
        assert Cells(line) == [line[..c]] + r;
        assert forall k :: 0 < k < |Cells(line)| ==> Cells(line)[k] == r[k - 1];
      }
    }
  }

  /** Cells written back with commas between them. */
  function Join(cells: seq<string>): string {
    if |cells| <= 1 then (if cells == [] then [] else cells[0])
    else cells[0] + "," + Join(cells[1..])
  }

  /**
   * Splitting recovers the cells of a line written from comma-free cells,
   * unless the last of them is empty (which `getline` drops).
   */
  lemma {:induction false} CellsJoin(cells: seq<string>)
    requires forall k :: 0 <= k < |cells| ==> ',' !in cells[k]
    requires cells == [] || cells[|cells| - 1] != []
    ensures Cells(Join(cells)) == cells
  {
    if |cells| == 1 {
      CommaFromSpec(cells[0], 0);
      assert FirstFrom(cells[0], IsComma(), 0) == -1;
    } else if |cells| > 1 {
      var line := Join(cells);
      var c0 := cells[0];
      assert line == c0 + "," + Join(cells[1..]);
      assert line[|c0|] == ',';
      forall k | 0 <= k < |c0|
        ensures !IsComma()(line[k])
      {
        assert line[k] == c0[k];
      }
      assert FirstFrom(line, IsComma(), 0) == |c0|;
      CommaFromSpec(line, 0);
      assert line[..|c0|] == c0;
      assert line[|c0| + 1..] == Join(cells[1..]);
      CellsJoin(cells[1..]);
    }
  }

  /** The table of cells of a whole file, one row per line. */
  function Table(lines: seq<string>): (t: seq<seq<string>>)
    ensures |t| == |lines| && forall k :: 0 <= k < |t| ==> t[k] == Cells(lines[k])
  {
    seq(|lines|, k requires 0 <= k < |lines| => Cells(lines[k]))
  }

  // ---------------------------------------------------------------- the keyword scan

  /** Whether a keyword was seen, and the row and column of its first sighting (-1 when not). */
  datatype Found = Found(has: bool, row: int, col: int)

  const NotFound := Found(false, -1, -1)

  /** `s.find(t, from)`: the first position from `from` on where `t` occurs, or -1 (`npos`). */
  function Find(s: string, t: string, from: nat): int
    decreases |s| - from
  {
    if from + |t| > |s| then -1
    else if s[from..from + |t|] == t then from
    else Find(s, t, from + 1)
  }

  /** `find` reports the first occurrence, and reports one exactly when there is one. */
  lemma {:induction false} FindSpec(s: string, t: string, from: nat)
    ensures var r := Find(s, t, from);
      && (r == -1 || (from <= r && OccursAt(s, t, r) && forall k :: from <= k < r ==> !OccursAt(s, t, k)))
      && (r == -1 <==> forall k :: from <= k ==> !OccursAt(s, t, k))
    decreases |s| - from
  {
    if from + |t| <= |s| && s[from..from + |t|] != t {
      FindSpec(s, t, from + 1);
    }
  }

  /** `find` succeeds exactly when the text contains the keyword. */
  lemma FindContains(s: string, t: string)
    ensures Find(s, t, 0) != -1 <==> Contains(s, t)
  {
    FindSpec(s, t, 0);
  }

  /** `lowerCell.find(kw) != npos`. */
  function HasKeyword(kw: string): string -> bool {
    (cell: string) => Find(Lower(cell), kw, 0) != -1
  }

  /** The keyword test lower-cases the cell with `toLowerCase` and looks for the keyword with `find`. */
  method CellMentions(cell: string, kw: string) returns (b: bool)
    ensures b == HasKeyword(kw)(cell)
    ensures b <==> Contains(Lower(cell), kw)
  {
    var lowerCell := ToLowerCase(cell);
    FindContains(lowerCell, kw);
    b := Find(lowerCell, kw, 0) != -1;
  }

  /** The column of the first cell from `from` on that passes the test, or -1. */
  function FirstCell(cells: seq<string>, p: string -> bool, from: nat): int
    decreases |cells| - from
  {
    if from >= |cells| then -1
    else if p(cells[from]) then from
    else FirstCell(cells, p, from + 1)
  }

  lemma {:induction false} FirstCellSpec(cells: seq<string>, p: string -> bool, from: nat)
    requires from <= |cells|
    ensures FirstCell(cells, p, from) == FirstFrom(cells, p, from)
    decreases |cells| - from
  {
    if from < |cells| && !p(cells[from]) {
      FirstCellSpec(cells, p, from + 1);
    }
  }

  /** The sighting after scanning one row's cells, from the sighting before it. */
  function RowState(st: Found, cells: seq<string>, row: int, p: string -> bool): Found {
    if st.has then st
    else
      var c := FirstCell(cells, p, 0);
      if c == -1 then st else Found(true, row, c)
  }

  /** The sighting after scanning the rows in order. */
  function ScanState(rows: seq<seq<string>>, p: string -> bool): Found {
    if rows == [] then NotFound
    else RowState(ScanState(rows[..|rows| - 1], p), rows[|rows| - 1], |rows| - 1, p)
  }

  /** One more row: its cells are scanned after the rows before it. */
  lemma ScanStateSnoc(rows: seq<seq<string>>, p: string -> bool, i: nat)
    requires i < |rows|
    ensures ScanState(rows[..i + 1], p) == RowState(ScanState(rows[..i], p), rows[i], i, p)
  {
    assert rows[..i + 1][..i] == rows[..i];
  }

  /** One more cell: it is recorded when it mentions the keyword and nothing was recorded yet. */
  lemma RowStateSnoc(st: Found, cells: seq<string>, row: int, p: string -> bool, j: nat, s: Found)
    requires j < |cells| && s == RowState(st, cells[..j], row, p)
    ensures RowState(st, cells[..j + 1], row, p) == if p(cells[j]) && !s.has then Found(true, row, j) else s
  {
    if !st.has {
      FirstCellSpec(cells[..j], p, 0);
      FirstCellSpec(cells[..j + 1], p, 0);
      var c := FirstFrom(cells[..j], p, 0);
      var c' := FirstFrom(cells[..j + 1], p, 0);
      assert forall k :: 0 <= k < j ==> cells[..j + 1][k] == cells[..j][k];
      if c != -1 {
        assert c' == c;
      } else if p(cells[j]) {
        assert c' == j;
      } else {
        assert c' == -1;
      }
    }
  }

  /** The keyword occurs in cell `col` of row `row`. */
  ghost predicate Hit(rows: seq<seq<string>>, p: string -> bool, row: int, col: int) {
    0 <= row < |rows| && 0 <= col < |rows[row]| && p(rows[row][col])
  }

  /** (row, col) comes no later than (row', col') in reading order. */
  predicate NoLater(row: int, col: int, row': int, col': int) {
    row < row' || (row == row' && col <= col')
  }

  /** The recorded sighting is the first in reading order, or -1 when there is none. */
  ghost predicate FirstSighting(rows: seq<seq<string>>, p: string -> bool, f: Found) {
    && (f.has <==> exists r, c :: Hit(rows, p, r, c))
    && (f.has ==> Hit(rows, p, f.row, f.col) &&
                  forall r, c :: Hit(rows, p, r, c) ==> NoLater(f.row, f.col, r, c))
    && (!f.has ==> f.row == -1 && f.col == -1)
  }

  lemma HitPrefix(rows: seq<seq<string>>, p: string -> bool, r: int, c: int)
    requires rows != []
    ensures Hit(rows[..|rows| - 1], p, r, c) <==> Hit(rows, p, r, c) && r < |rows| - 1
  {
    if 0 <= r < |rows| - 1 {
      assert rows[..|rows| - 1][r] == rows[r];
    }
  }

  /**
   * The scan records the first cell, in reading order, that mentions the
   * keyword; row and column are -1 exactly when there is none.
   */
  lemma {:induction false} ScanFirst(rows: seq<seq<string>>, p: string -> bool)
    ensures FirstSighting(rows, p, ScanState(rows, p))
    ensures ScanState(rows, p).has <==> ScanState(rows, p).row != -1
  {
    if rows != [] {
      var n := |rows| - 1;
      var q := rows[..n];
      ScanFirst(q, p);
      var before := ScanState(q, p);
      forall r, c
        ensures Hit(q, p, r, c) <==> Hit(rows, p, r, c) && r < n
      {
        HitPrefix(rows, p, r, c);
      }
      if !before.has {
        FirstCellSpec(rows[n], p, 0);
        var c := FirstFrom(rows[n], p, 0);
        if c != -1 {
          assert Hit(rows, p, n, c);
        } else {
          forall r, c'
            ensures !Hit(rows, p, r, c')
          {
            if r == n && 0 <= c' < |rows[n]| {
              assert !p(rows[n][c']);
            }
          }
        }
      } else {
        assert Hit(rows, p, before.row, before.col);
      }
    }
  }

  /** `CalibrationResult`: the file's index and path, and the first sighting of each keyword. */
  datatype CalibrationResult = CalibrationResult(index: string, start: Found, finish: Found, path: string)

  /**
   * What `searchCalibrationKeywords` finds in a file: nothing when the file
   * cannot be opened (`None`), else the first sighting of each keyword in
   * the file's table of cells.
   */
  function Searched(path: string, file: Option<seq<string>>): CalibrationResult {
    var index := ExtractIndex(path);
    match file
    case None => CalibrationResult(index, NotFound, NotFound, path)
    case Some(lines) =>
      CalibrationResult(index, ScanState(Table(lines), HasKeyword(StartKeyword)), ScanState(Table(lines), HasKeyword(FinishKeyword)), path)
  }

  /**
   * `searchCalibrationKeywords`: the index and path, then, for a file that
   * opens, the scan for the two keywords.
   */
  method SearchCalibrationKeywords(path: string, file: Option<seq<string>>) returns (result: CalibrationResult)
    ensures result == Searched(path, file)
  {
    result := CalibrationResult(ExtractIndex(path), NotFound, NotFound, path);
    if file.None? {
      return;
    }
    var start, finish := ScanLines(file.value, HasKeyword(StartKeyword), HasKeyword(FinishKeyword));
    result := result.(start := start, finish := finish);
  }

  /**
   * The nested row and cell loops of `searchCalibrationKeywords`, with their
   * counters; `isStart` and `isFinish` are the lower-casing keyword tests.
   */
  method ScanLines(lines: seq<string>, isStart: string -> bool, isFinish: string -> bool)
    returns (start: Found, finish: Found)
    ensures start == ScanState(Table(lines), isStart)
    ensures finish == ScanState(Table(lines), isFinish)
  {
    ghost var rows := Table(lines);
    start, finish := NotFound, NotFound;
    var rowNum := 0;
    while rowNum < |lines|
      invariant rowNum <= |lines|
      invariant start == ScanState(rows[..rowNum], isStart)
      invariant finish == ScanState(rows[..rowNum], isFinish)
    {
      var cells := Cells(lines[rowNum]);
      ghost var start0, finish0 := start, finish;
      var colNum := 0;
      while colNum < |cells|
        invariant colNum <= |cells|
        invariant start == RowState(start0, cells[..colNum], rowNum, isStart)
        invariant finish == RowState(finish0, cells[..colNum], rowNum, isFinish)
      {
        RowStateSnoc(start0, cells, rowNum, isStart, colNum, start);
        RowStateSnoc(finish0, cells, rowNum, isFinish, colNum, finish);
        if isStart(cells[colNum]) && !start.has {
          start := Found(true, rowNum, colNum);
        }
        if isFinish(cells[colNum]) && !finish.has {
          finish := Found(true, rowNum, colNum);
        }
        colNum := colNum + 1;
      }
      assert cells[..|cells|] == cells;
      ScanStateSnoc(rows, isStart, rowNum);
      ScanStateSnoc(rows, isFinish, rowNum);
      rowNum := rowNum + 1;
    }
    assert rows[..|lines|] == rows;
  }

  // ---------------------------------------------------------------- the folder loop

  /** `fs::path::extension` of a file name: from its last '.', unless that is the first character. */
  function Extension(name: string): (r: string)
    ensures r == [] || (r[0] == '.' && EndsWith(name, r))
  {
    if name == "." || name == ".." then []
    else
      var d := LastWhere(name, (ch: char) => ch == '.');
      if d <= 0 then [] else name[d..]
  }

  function IsCSVFile(name: string): bool {
    Extension(name) == ".csv"
  }

  /** A name has the `.csv` extension exactly when it ends in ".csv" after at least one character. */
  lemma CsvExtension(name: string)
    ensures IsCSVFile(name) <==> |name| > 4 && EndsWith(name, ".csv")
  {
    if |name| > 4 && EndsWith(name, ".csv") {
      var d := LastWhere(name, (ch: char) => ch == '.');
      assert name[|name| - 4] == '.';
      assert d == |name| - 4 by {
        assert forall k :: |name| - 4 < k < |name| ==> name[k] == name[|name| - 4..][k - (|name| - 4)];
      }
      assert name[d..] == ".csv";
    }
  }

  /** A directory entry: its file name, whether it is a regular file, and its lines (`None`: cannot be opened). */
  datatype Entry = Entry(name: string, regular: bool, file: Option<seq<string>>)

  /** The files `main` looks at, and what it finds in each. */
  function Examined(): Entry -> Option<CalibrationResult> {
    (e: Entry) => if e.regular && IsCSVFile(e.name) then Some(Searched(e.name, e.file)) else None
  }

  datatype Category = Both | OnlyStart | OnlyFinish | NoKeywords

  /** The category of a result, tested in the order of `main`. */
  function CategoryOf(r: CalibrationResult): Category {
    if r.start.has && r.finish.has then Both
    else if r.start.has then OnlyStart
    else if r.finish.has then OnlyFinish
    else NoKeywords
  }

  function InCategory(cat: Category): CalibrationResult -> bool {
    (r: CalibrationResult) => CategoryOf(r) == cat
  }

  /** The file name moved to the "complete" folder, for a file with both keywords. */
  function MovedName(): CalibrationResult -> Option<string> {
    (r: CalibrationResult) => if CategoryOf(r) == Both then Some(r.path) else None
  }

  /** The four category counters of `main`. */
  datatype Counts = Counts(both: nat, onlyStart: nat, onlyFinish: nat, none: nat)

  /** The counters with the one of `cat` incremented. */
  function Bump(c: Counts, cat: Category): Counts {
    match cat
    case Both => c.(both := c.both + 1)
    case OnlyStart => c.(onlyStart := c.onlyStart + 1)
    case OnlyFinish => c.(onlyFinish := c.onlyFinish + 1)
    case NoKeywords => c.(none := c.none + 1)
  }

  /** The results, the four counters and the files moved. */
  datatype Summary = Summary(results: seq<CalibrationResult>, counts: Counts, moved: seq<string>)

  /** The counters and the moved files account for the results so far. */
  ghost predicate Tallied(rs: seq<CalibrationResult>, c: Counts, moved: seq<string>) {
    && c.both == Count(rs, InCategory(Both))
    && c.onlyStart == Count(rs, InCategory(OnlyStart))
    && c.onlyFinish == Count(rs, InCategory(OnlyFinish))
    && c.none == Count(rs, InCategory(NoKeywords))
    && moved == FilterMap(rs, MovedName())
  }

  /** One more result bumps the counter of its category, and a file with both keywords is moved. */
  lemma TallyResult(rs: seq<CalibrationResult>, r: CalibrationResult, c: Counts, moved: seq<string>)
    requires Tallied(rs, c, moved)
    ensures Tallied(rs + [r], Bump(c, CategoryOf(r)), moved + if CategoryOf(r) == Both then [r.path] else [])
  {
    CountSnoc(rs, r, InCategory(Both));
    CountSnoc(rs, r, InCategory(OnlyStart));
    CountSnoc(rs, r, InCategory(OnlyFinish));
    CountSnoc(rs, r, InCategory(NoKeywords));
    FilterMapSnoc(rs, r, MovedName());
  }

  /**
   * The category step of `main`'s loop: the counter of the result's
   * category goes up, and a file with both keywords is moved.
   */
  method Categorize(result: CalibrationResult, c: Counts, moved: seq<string>)
    returns (c': Counts, moved': seq<string>)
    ensures c' == Bump(c, CategoryOf(result))
    ensures moved' == moved + if CategoryOf(result) == Both then [result.path] else []
  {
    c', moved' := c, moved;
    if result.start.has && result.finish.has {
      c' := c'.(both := c'.both + 1);
      moved' := moved' + [result.path];
    } else if result.start.has {
      c' := c'.(onlyStart := c'.onlyStart + 1);
    } else if result.finish.has {
      c' := c'.(onlyFinish := c'.onlyFinish + 1);
    } else {
      c' := c'.(none := c'.none + 1);
    }
  }

  /**
   * `main`: nothing (exit code 1) without the Evolab folder; otherwise every
   * regular `.csv` file is searched, in directory order, and counted in its
   * category, and the files with both keywords are moved.
   */
  method FindCalibration(folderExists: bool, entries: seq<Entry>) returns (r: Option<Summary>)
    ensures !folderExists ==> r == None
    ensures folderExists ==> r.Some? && r.value.results == FilterMap(entries, Examined())
    ensures folderExists ==> Tallied(r.value.results, r.value.counts, r.value.moved)
  {
    if !folderExists {
      return None;
    }
    var results: seq<CalibrationResult> := [];
    var counts := Counts(0, 0, 0, 0);
    var moved: seq<string> := [];
    for i := 0 to |entries|
      invariant results == FilterMap(entries[..i], Examined())
      invariant Tallied(results, counts, moved)
    {
      var entry := entries[i];
      if entry.regular && IsCSVFile(entry.name) {
        var result := SearchCalibrationKeywords(entry.name, entry.file);
        assert Examined()(entry) == Some(result);
        FilterMapKeepsNext(entries, i, Examined(), result);
        TallyResult(results, result, counts, moved);
        results := results + [result];
        counts, moved := Categorize(result, counts, moved);
      } else {
        FilterMapDropsNext(entries, i, Examined());
      }
    }
    assert entries[..|entries|] == entries;
    return Some(Summary(results, counts, moved));
  }

  /** Every result falls in exactly one category, so the four counts add up to the number of files. */
  lemma {:induction false} CategoriesPartition(rs: seq<CalibrationResult>)
    ensures Count(rs, InCategory(Both)) + Count(rs, InCategory(OnlyStart)) +
            Count(rs, InCategory(OnlyFinish)) + Count(rs, InCategory(NoKeywords)) == |rs|
  {
    if rs != [] {
      CategoriesPartition(rs[..|rs| - 1]);
    }
  }

  /** A file is moved exactly when both keywords were found in it, and as many files are moved as counted. */
  lemma MovedIffBoth(rs: seq<CalibrationResult>, name: string)
    ensures name in FilterMap(rs, MovedName()) <==>
            exists k :: 0 <= k < |rs| && rs[k].path == name && rs[k].start.has && rs[k].finish.has
    ensures |FilterMap(rs, MovedName())| == Count(rs, InCategory(Both))
  {
    FilterMapMember(rs, MovedName(), name);
    MovedCount(rs);
  }

  lemma {:induction false} MovedCount(rs: seq<CalibrationResult>)
    ensures |FilterMap(rs, MovedName())| == Count(rs, InCategory(Both))
  {
    if rs != [] {
      MovedCount(rs[..|rs| - 1]);
    }
  }

  /** The percentages of the summary: 0 without files, else the count times 100 over the total. */
  function Percent(count: nat, total: nat): (p: real)
    ensures count <= total ==> 0.0 <= p <= 100.0
    ensures total > 0 ==> p * (total as real) == count as real * 100.0
  {
    if total > 0 then count as real * 100.0 / total as real else 0.0
  }

  /** With at least one file the four percentages add up to 100. */
  lemma PercentagesAddUp(a: nat, b: nat, c: nat, d: nat)
    requires a + b + c + d > 0
    ensures var t := a + b + c + d;
      Percent(a, t) + Percent(b, t) + Percent(c, t) + Percent(d, t) == 100.0
  {
    var t := a + b + c + d;
    var total := t as real;
    var x, y, z, w := a as real * 100.0, b as real * 100.0, c as real * 100.0, d as real * 100.0;
    AddFractions(x, y, total);
    AddFractions(x + y, z, total);
    AddFractions(x + y + z, w, total);
    assert x + y + z + w == total * 100.0;
    WholeOver(total);
  }

  lemma AddFractions(x: real, y: real, k: real)
    requires k != 0.0
    ensures x / k + y / k == (x + y) / k
  {
  }

  lemma WholeOver(k: real)
    requires k != 0.0
    ensures k * 100.0 / k == 100.0
  {
  }
}
