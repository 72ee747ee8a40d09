// crisistime.py and postcrisis.py: for every participant index of the data
// workbook the participant's CSV file is looked up in the shook and noshook
// folders.  crisistime.py writes the crisis time read from the file's
// robotEvent column; postcrisis.py also reads the times of the first and the
// last data rows and writes the pre-crisis and post-crisis intervals.  Both
// collect the indices they could not serve in four issue lists.

module CrisisTimes {
  import opened Wrappers
  import opened Text
  import opened Lists
  import Index

  /** The folders searched, in order. */
  const Folders: seq<string> := ["shook", "shook/baseline", "noshook", "noshook/baseline"]

  /** Seconds added to the time of the "0.2 seconds" row in the noshook folders. */
  const Offset: real := 0.229

  // ---------------------------------------------------------------- find_matching_csv

  /** POSIX `os.path.join(folder, name)` for a relative name. */
  function PathJoin(folder: string, name: string): string {
    if folder == [] || EndsWith(folder, "/") then folder + name else folder + "/" + name
  }

  /** A name ending in ".csv" whose first five characters are the index. */
  predicate IndexFile(index: string, name: string) {
    EndsWith(name, ".csv") && Take(name, 5) == index
  }

  function NamesIndex(index: string): string -> bool {
    (name: string) => IndexFile(index, name)
  }

  /** A folder of the search: it is a directory and lists a file named for the index. */
  ghost predicate HasMatch(listing: string -> Option<seq<string>>, folder: string, index: string) {
    listing(folder).Some? &&
    exists k :: 0 <= k < |listing(folder).value| && IndexFile(index, listing(folder).value[k])
  }

  /**
   * The file one folder offers for the index, with the folder: the first
   * listed name for it; nothing when the folder is not a directory (`None`)
   * or lists no such name.
   */
  function MatchIn(folder: string, listing: string -> Option<seq<string>>, index: string)
    : Option<(string, string)>
  {
    match listing(folder)
    case None => None
    case Some(names) =>
      var k := FirstFrom(names, NamesIndex(index), 0);
      if k == -1 then None else Some((PathJoin(folder, names[k]), folder))
  }

  /** A folder offers a file exactly when it lists a name for the index, and it offers the first. */
  lemma MatchInSpec(folder: string, listing: string -> Option<seq<string>>, index: string)
    ensures var r := MatchIn(folder, listing, index);
      && (r.Some? <==> HasMatch(listing, folder, index))
      && (r.Some? ==>
            var names := listing(folder).value;
            var k := FirstFrom(names, NamesIndex(index), 0);
            0 <= k && r.value == (PathJoin(folder, names[k]), folder))
  {
    if listing(folder).Some? {
      var names := listing(folder).value;
      assert forall k :: 0 <= k < |names| ==> (NamesIndex(index)(names[k]) <==> IndexFile(index, names[k]));
    }
  }

  /** The file `find_matching_csv` picks, with its folder: the first folder's that offers one. */
  function MatchingCsv(folders: seq<string>, listing: string -> Option<seq<string>>, index: string)
    : Option<(string, string)>
  {
    if folders == [] then None
    else
      var here := MatchIn(folders[0], listing, index);
      if here.Some? then here else MatchingCsv(folders[1..], listing, index)
  }

  /**
   * The file picked is the one offered by the first folder that offers
   * one (and `MatchIn` says what a folder offers); there is none exactly
   * when no folder offers one.
   */
  lemma {:induction false} MatchingCsvSpec(folders: seq<string>, listing: string -> Option<seq<string>>, index: string)
    ensures var r := MatchingCsv(folders, listing, index);
      && (r.None? <==> forall j :: 0 <= j < |folders| ==> MatchIn(folders[j], listing, index).None?)
      && (r.Some? ==> exists j :: 0 <= j < |folders| && r == MatchIn(folders[j], listing, index) &&
                        forall i :: 0 <= i < j ==> MatchIn(folders[i], listing, index).None?)
  {
    if folders != [] {
      var rest := folders[1..];
      MatchingCsvSpec(rest, listing, index);
      assert forall j :: 0 < j < |folders| ==> folders[j] == rest[j - 1];
      var r := MatchingCsv(folders, listing, index);
      if MatchIn(folders[0], listing, index).None? && r.Some? {
        var j :| 0 <= j < |rest| && r == MatchIn(rest[j], listing, index) &&
                 forall i :: 0 <= i < j ==> MatchIn(rest[i], listing, index).None?;
        assert folders[j + 1] == rest[j];
      }
    }
  }

  /** The folder scan of postcrisis.py's `find_matching_csv`, with its early return. */
  method FindMatchingCsv(folders: seq<string>, listing: string -> Option<seq<string>>, index: string)
    returns (r: Option<(string, string)>)
    ensures r == MatchingCsv(folders, listing, index)
  {
    var f := 0;
    while f < |folders|
      invariant f <= |folders|
      invariant MatchingCsv(folders[f..], listing, index) == MatchingCsv(folders, listing, index)
    {
      var folder := folders[f];
      assert folders[f..][0] == folder && folders[f..][1..] == folders[f + 1..];
      var dir := listing(folder);
      if dir.Some? {
        var names := dir.value;
        var k := 0;
        while k < |names|
          invariant k <= |names|
          invariant FirstFrom(names, NamesIndex(index), k) == FirstFrom(names, NamesIndex(index), 0)
        {
          if EndsWith(names[k], ".csv") && Take(names[k], 5) == index {
            return Some((PathJoin(folder, names[k]), folder));
          }
          k := k + 1;
        }
      }
      f := f + 1;
    }
    return None;
  }

  /** The folder types `get_crisis_time` knows how to read. */
  predicate Typed(folder: string) {
    StartsWith(folder, "shook") || StartsWith(folder, "noshook")
  }

  /**
   * crisistime.py's copy of the rule, which also asks the folder to be of
   * a known type: the file of the first typed folder that offers one.
   */
  function MatchingTypedCsv(folders: seq<string>, listing: string -> Option<seq<string>>, index: string)
    : Option<(string, string)>
  {
    if folders == [] then None
    else
      var here := MatchIn(folders[0], listing, index);
      if Typed(folders[0]) && here.Some? then here else MatchingTypedCsv(folders[1..], listing, index)
  }

  /** The folder scan of crisistime.py's `find_matching_csv`: a match in an untyped folder is passed over. */
  method FindMatchingTypedCsv(folders: seq<string>, listing: string -> Option<seq<string>>, index: string)
    returns (r: Option<(string, string)>)
    ensures r == MatchingTypedCsv(folders, listing, index)
  {
    var f := 0;
    while f < |folders|
      invariant f <= |folders|
      invariant MatchingTypedCsv(folders[f..], listing, index) == MatchingTypedCsv(folders, listing, index)
    {
      var folder := folders[f];
      assert folders[f..][0] == folder && folders[f..][1..] == folders[f + 1..];
      var dir := listing(folder);
      if dir.Some? {
        var names := dir.value;
        var k := 0;
        while k < |names|
          invariant k <= |names|
          invariant Typed(folder) ==>
            FirstFrom(names, NamesIndex(index), k) == FirstFrom(names, NamesIndex(index), 0)
        {
          if EndsWith(names[k], ".csv") && Take(names[k], 5) == index {
            if StartsWith(folder, "shook") {
              return Some((PathJoin(folder, names[k]), folder));
            } else if StartsWith(folder, "noshook") {
              return Some((PathJoin(folder, names[k]), folder));
            }
          }
          k := k + 1;
        }
      }
      f := f + 1;
    }
    return None;
  }

  /** Over folders that are all typed, the two rules pick the same file. */
  lemma {:induction false} TypedAgree(folders: seq<string>, listing: string -> Option<seq<string>>, index: string)
    requires forall j :: 0 <= j < |folders| ==> Typed(folders[j])
    ensures MatchingTypedCsv(folders, listing, index) == MatchingCsv(folders, listing, index)
  {
    if folders != [] {
      TypedAgree(folders[1..], listing, index);
    }
  }

  /** With the configured folders, all of them typed, the two scripts pick the same file. */
  lemma SameMatch(listing: string -> Option<seq<string>>, index: string)
    ensures MatchingTypedCsv(Folders, listing, index) == MatchingCsv(Folders, listing, index)
  {
    forall j | 0 <= j < |Folders|
      ensures Typed(Folders[j])
    {
    }
    TypedAgree(Folders, listing, index);
  }

  // ---------------------------------------------------------------- the robotEvent column and the data rows

  /** `"robotevent" in col.strip().lower()`. */
  predicate RobotEventName(col: string) {
    Contains(Lower(Strip(col)), "robotevent")
  }

  function NamesRobotEvent(): string -> bool {
    (col: string) => RobotEventName(col)
  }

  /** The robotEvent column: the first column whose name mentions "robotevent", or -1. */
  function EventCol(header: seq<string>): (r: int)
    ensures -1 <= r < |header|
  {
    First(header, NamesRobotEvent(), 0)
  }

  /** It is the first such column, and there is none exactly when no column mentions "robotevent". */
  lemma EventColSpec(header: seq<string>)
    ensures EventCol(header) == FirstFrom(header, NamesRobotEvent(), 0)
  {
    FirstIsFirstFrom(header, NamesRobotEvent(), 0);
  }

  /** `find_robot_event_col`: the scan over the header that returns at the first mention. */
  method FindRobotEventCol(header: seq<string>) returns (r: int)
    ensures r == EventCol(header)
  {
    r := FindFirst(header, NamesRobotEvent(), 0);
  }

  /**
   * A data row the readers use: it reaches the event column, its first
   * cell is not blank (`row[0].strip() != ""`, see `Text.StripSpec`) and
   * parses as the row's time.
   */
  predicate Usable(row: seq<string>, ev: nat, parse: string -> Option<real>) {
    ev < |row| && !IsBlank(row[0]) && parse(row[0]).Some?
  }

  function UsableAt(ev: nat, parse: string -> Option<real>): seq<string> -> bool {
    (row: seq<string>) => Usable(row, ev, parse)
  }

  /**
   * The event cell marks the crisis: "shook" (case-sensitively) in a shook
   * folder, "0.2 seconds" in a noshook folder, nothing in any other.
   */
  predicate Marks(folder: string, event: string) {
    || (StartsWith(folder, "shook") && Contains(event, "shook"))
    || (StartsWith(folder, "noshook") && Contains(event, "0.2 seconds"))
  }

  /** A usable row whose event cell marks the crisis. */
  predicate MarksCrisis(row: seq<string>, folder: string, ev: nat, parse: string -> Option<real>) {
    Usable(row, ev, parse) && Marks(folder, row[ev])
  }

  /** The cell is blank: nothing is left once whitespace is stripped. */
  method StripsToEmpty(cell: string) returns (b: bool)
    ensures b <==> IsBlank(cell)
  {
    StripSpec(cell);
    b := Strip(cell) == [];
  }

  /** No folder is of both types. */
  lemma NotBoth(folder: string)
    ensures !(StartsWith(folder, "shook") && StartsWith(folder, "noshook"))
  {
    assert StartsWith(folder, "shook") ==> folder[..5][0] == folder[0] == 's';
    assert StartsWith(folder, "noshook") ==> folder[..7][0] == folder[0] == 'n';
  }

  /** The crisis time of a marking row at time `t`: `t` in a shook folder, `t` + 0.229 in a noshook one. */
  function CrisisValue(folder: string, t: real): real {
    if StartsWith(folder, "shook") then t else t + Offset
  }

  /** The crisis time the data rows from `from` on give: that of the first marking row, if any. */
  function CrisisFrom(rows: seq<seq<string>>, folder: string, ev: nat, parse: string -> Option<real>, from: nat)
    : Option<real>
    decreases |rows| - from
  {
    if from >= |rows| then None
    else if MarksCrisis(rows[from], folder, ev, parse) then Some(CrisisValue(folder, parse(rows[from][0]).value))
    else CrisisFrom(rows, folder, ev, parse, from + 1)
  }

  /** There is a crisis time exactly when some row marks it, and then it is the first marking row's. */
  lemma {:induction false} CrisisFromSpec(rows: seq<seq<string>>, folder: string, ev: nat, parse: string -> Option<real>, from: nat)
    requires from <= |rows|
    ensures CrisisFrom(rows, folder, ev, parse, from).None? <==>
            forall k :: from <= k < |rows| ==> !MarksCrisis(rows[k], folder, ev, parse)
    ensures CrisisFrom(rows, folder, ev, parse, from).Some? ==>
            exists k :: from <= k < |rows| && MarksCrisis(rows[k], folder, ev, parse) &&
                        CrisisFrom(rows, folder, ev, parse, from) == Some(CrisisValue(folder, parse(rows[k][0]).value)) &&
                        forall j :: from <= j < k ==> !MarksCrisis(rows[j], folder, ev, parse)
    decreases |rows| - from
  {
    if from < |rows| && !MarksCrisis(rows[from], folder, ev, parse) {
      CrisisFromSpec(rows, folder, ev, parse, from + 1);
    }
  }

  // ---------------------------------------------------------------- get_crisis_time (crisistime.py)

  /** Why a file gave no time: no header row, no robotEvent column, no marking row, or it could not be read. */
  datatype Reason = NoHeader | NoColumn | NoKeyword | Other

  datatype CrisisLookup = CrisisAt(time: real) | NoCrisis(reason: Reason)

  /**
   * A CSV file as `csv.reader` yields it: the rows decoded before the first
   * error, and whether reading then raised (a file that cannot be opened or
   * decoded at all has no rows and raises).
   */
  datatype CsvFile = CsvFile(rows: seq<seq<string>>, broken: bool)

  /**
   * What `get_crisis_time` returns for a file: the crisis time of its data
   * rows, or the reason there is none.  The reader is consumed row by row,
   * so an error after the first marking row is never reached, while one
   * met before it (or before the header) is "other".
   */
  function CrisisTimeOf(folder: string, file: CsvFile, parse: string -> Option<real>): CrisisLookup {
    var lines := file.rows;
    if lines == [] then NoCrisis(if file.broken then Other else NoHeader)
    else
      var ev := EventCol(StripEach(lines[0]));
      if ev == -1 then NoCrisis(NoColumn)
      else match CrisisFrom(lines[1..], folder, ev, parse, 0)
        case None => NoCrisis(if file.broken then Other else NoKeyword)
        case Some(t) => CrisisAt(t)
  }

  /** `get_crisis_time`: the header, the column, then the row loop that returns at the first marking row. */
  method GetCrisisTime(folder: string, file: CsvFile, parse: string -> Option<real>)
    returns (r: CrisisLookup)
    ensures r == CrisisTimeOf(folder, file, parse)
  {
    var lines := file.rows;
    if lines == [] {
      return NoCrisis(if file.broken then Other else NoHeader);
    }
    var ev := FindRobotEventCol(StripEach(lines[0]));
    if ev == -1 {
      return NoCrisis(NoColumn);
    }
    var rows := lines[1..];
    var i := 0;
    while i < |rows|
      invariant i <= |rows|
      invariant CrisisFrom(rows, folder, ev, parse, i) == CrisisFrom(rows, folder, ev, parse, 0)
    {
      var row := rows[i];
      if |row| <= ev || row == [] {
        i := i + 1;
        continue;
      }
      var blank := StripsToEmpty(row[0]);
      if blank {
        i := i + 1;
        continue;
      }
      var time := parse(row[0]);
      if time.None? {
        i := i + 1;
        continue;
      }
      var event := row[ev];
      if StartsWith(folder, "shook") && Contains(event, "shook") {
        return CrisisAt(time.value);
      } else if StartsWith(folder, "noshook") && Contains(event, "0.2 seconds") {
        NotBoth(folder);
        return CrisisAt(time.value + Offset);
      }
      i := i + 1;
    }
    return NoCrisis(if file.broken then Other else NoKeyword);
  }

  // ---------------------------------------------------------------- get_crisis_and_row_times (postcrisis.py)

  /** The time of the very first data row, when that row is usable. */
  function FirstDataTime(rows: seq<seq<string>>, ev: nat, parse: string -> Option<real>): Option<real> {
    if rows != [] && Usable(rows[0], ev, parse) then parse(rows[0][0]) else None
  }

  /** The time of the last usable data row. */
  function LastDataTime(rows: seq<seq<string>>, ev: nat, parse: string -> Option<real>): Option<real> {
    if rows == [] then None
    else if Usable(rows[|rows| - 1], ev, parse) then parse(rows[|rows| - 1][0])
    else LastDataTime(rows[..|rows| - 1], ev, parse)
  }

  /** There is a last time exactly when some row is usable, and then it is the last usable row's. */
  lemma {:induction false} LastDataTimeSpec(rows: seq<seq<string>>, ev: nat, parse: string -> Option<real>)
    ensures LastDataTime(rows, ev, parse).None? <==> forall k :: 0 <= k < |rows| ==> !Usable(rows[k], ev, parse)
    ensures LastDataTime(rows, ev, parse).Some? ==>
            exists k :: 0 <= k < |rows| && Usable(rows[k], ev, parse) &&
                        LastDataTime(rows, ev, parse) == parse(rows[k][0]) &&
                        forall j :: k < j < |rows| ==> !Usable(rows[j], ev, parse)
  {
    if rows != [] {
      var n := |rows| - 1;
      var init := rows[..n];
      LastDataTimeSpec(init, ev, parse);
      assert forall k :: 0 <= k < n ==> init[k] == rows[k];
      if !Usable(rows[n], ev, parse) && LastDataTime(rows, ev, parse).Some? {
        var k :| 0 <= k < n && Usable(init[k], ev, parse) &&
                 LastDataTime(init, ev, parse) == parse(init[k][0]) &&
                 forall j :: k < j < n ==> !Usable(init[j], ev, parse);
        assert init[k] == rows[k];
      }
    }
  }

  /** The crisis, first and last times of a file, and the reason a crisis time is missing. */
  datatype RowTimes = RowTimes(crisis: Option<real>, first: Option<real>, last: Option<real>, error: Option<Reason>)

  /** What `get_crisis_and_row_times` returns for a file: the whole file is read first, so any read error is "other". */
  function RowTimesOf(folder: string, file: CsvFile, parse: string -> Option<real>): RowTimes {
    if file.broken then RowTimes(None, None, None, Some(Other))
    else
      var lines := file.rows;
      if lines == [] then RowTimes(None, None, None, Some(NoHeader))
      else
        var ev := EventCol(StripEach(lines[0]));
        if ev == -1 then RowTimes(None, None, None, Some(NoColumn))
        else
          var rows := lines[1..];
          var crisis := CrisisFrom(rows, folder, ev, parse, 0);
          RowTimes(crisis, FirstDataTime(rows, ev, parse), LastDataTime(rows, ev, parse),
                   if crisis.None? then Some(NoKeyword) else None)
  }

  /**
   * The row loop of `get_crisis_and_row_times`: every usable row updates
   * the last time, the first row alone can set the first time, and the
   * first marking row fixes the crisis time.
   */
  method ScanRowTimes(rows: seq<seq<string>>, folder: string, ev: nat, parse: string -> Option<real>)
    returns (crisis: Option<real>, first: Option<real>, last: Option<real>)
    ensures crisis == CrisisFrom(rows, folder, ev, parse, 0)
    ensures first == FirstDataTime(rows, ev, parse)
    ensures last == LastDataTime(rows, ev, parse)
  {
    crisis, first, last := None, None, None;
    for i := 0 to |rows|
      invariant crisis.None? ==> CrisisFrom(rows, folder, ev, parse, i) == CrisisFrom(rows, folder, ev, parse, 0)
      invariant crisis.Some? ==> crisis == CrisisFrom(rows, folder, ev, parse, 0)
      invariant first == if i > 0 then FirstDataTime(rows, ev, parse) else None
      invariant last == LastDataTime(rows[..i], ev, parse)
    {
      assert rows[..i + 1][..i] == rows[..i] && rows[..i + 1][i] == rows[i];
      var row := rows[i];
      if |row| <= ev || row == [] {
        continue;
      }
      var blank := StripsToEmpty(row[0]);
      if blank {
        continue;
      }
      var time := parse(row[0]);
      if time.None? {
        continue;
      }
      assert Usable(row, ev, parse);
      if first.None? && i == 0 {
        first := time;
      }
      last := time;
      var event := row[ev];
      if crisis.None? {
        if StartsWith(folder, "shook") && Contains(event, "shook") {
          assert MarksCrisis(rows[i], folder, ev, parse);
          crisis := Some(time.value);
        } else if StartsWith(folder, "noshook") && Contains(event, "0.2 seconds") {
          assert MarksCrisis(rows[i], folder, ev, parse);
          NotBoth(folder);
          crisis := Some(time.value + Offset);
        } else {
          assert !MarksCrisis(rows[i], folder, ev, parse);
        }
      }
    }
    assert rows[..|rows|] == rows;
  }

  /** `get_crisis_and_row_times`: the header, the column, then the row loop. */
  method GetCrisisAndRowTimes(folder: string, file: CsvFile, parse: string -> Option<real>)
    returns (r: RowTimes)
    ensures r == RowTimesOf(folder, file, parse)
  {
    if file.broken {
      return RowTimes(None, None, None, Some(Other));
    }
    var lines := file.rows;
    if lines == [] {
      return RowTimes(None, None, None, Some(NoHeader));
    }
    var ev := FindRobotEventCol(StripEach(lines[0]));
    if ev == -1 {
      return RowTimes(None, None, None, Some(NoColumn));
    }
    var crisis, first, last := ScanRowTimes(lines[1..], folder, ev, parse);
    if crisis.None? {
      return RowTimes(None, first, last, Some(NoKeyword));
    }
    return RowTimes(crisis, first, last, None);
  }

  /**
   * On a file read without error the two scripts agree: postcrisis.py
   * finds a crisis time exactly when crisistime.py does, the same one, and
   * otherwise reports the same reason.  On a file with a read error,
   * postcrisis.py reports "other", while crisistime.py still reports a
   * missing column, or the crisis time of a marking row read before the
   * error.
   */
  lemma ScriptsAgree(folder: string, file: CsvFile, parse: string -> Option<real>)
    ensures var c := CrisisTimeOf(folder, file, parse);
      var t := RowTimesOf(folder, file, parse);
      !file.broken ==>
      && (c.CrisisAt? <==> t.crisis.Some?)
      && (c.CrisisAt? ==> t.crisis == Some(c.time) && t.error.None?)
      && (c.NoCrisis? ==> t.error == Some(c.reason))
    ensures var c := CrisisTimeOf(folder, file, parse);
      var t := RowTimesOf(folder, file, parse);
      file.broken ==>
      && t == RowTimes(None, None, None, Some(Other))
      && (c.NoCrisis? ==> c.reason == Other || c.reason == NoColumn)
      && (c.CrisisAt? <==>
            (file.rows != [] && EventCol(StripEach(file.rows[0])) != -1 &&
             CrisisFrom(file.rows[1..], folder, EventCol(StripEach(file.rows[0])), parse, 0).Some?))
  {
  }

  /**
   * A file with a first time or a crisis time also has a last time: the
   * row behind either is usable, and the last usable row comes no earlier.
   */
  lemma LastTimeExists(folder: string, file: CsvFile, parse: string -> Option<real>)
    ensures var t := RowTimesOf(folder, file, parse);
      (t.first.Some? || t.crisis.Some?) ==> t.last.Some?
  {
    if !file.broken && file.rows != [] {
      var lines := file.rows;
      var ev := EventCol(StripEach(lines[0]));
      if ev != -1 {
        RowsLastTime(lines[1..], folder, ev, parse);
      }
    }
  }

  lemma RowsLastTime(rows: seq<seq<string>>, folder: string, ev: nat, parse: string -> Option<real>)
    ensures (FirstDataTime(rows, ev, parse).Some? || CrisisFrom(rows, folder, ev, parse, 0).Some?) ==>
            LastDataTime(rows, ev, parse).Some?
  {
    LastDataTimeSpec(rows, ev, parse);
    CrisisFromSpec(rows, folder, ev, parse, 0);
    if FirstDataTime(rows, ev, parse).Some? {
      assert Usable(rows[0], ev, parse);
    }
  }

  /** The intervals written for a participant. */
  datatype Intervals = Intervals(pre: real, post: real)

  /** Written only when all three times exist: crisis - first and last - crisis. */
  function IntervalsOf(t: RowTimes): (r: Option<Intervals>)
    ensures r.Some? <==> t.crisis.Some? && t.first.Some? && t.last.Some?
    ensures r.Some? ==> r.value.pre + r.value.post == t.last.value - t.first.value
    ensures r.Some? ==> r.value.pre == t.crisis.value - t.first.value
  {
    if t.crisis.Some? && t.first.Some? && t.last.Some? then
      Some(Intervals(t.crisis.value - t.first.value, t.last.value - t.crisis.value))
    else None
  }

  // ---------------------------------------------------------------- the main loops

  /** The four issue lists. */
  datatype Issue = NoCsv | ColumnMissing | KeywordMissing | OtherIssue

  /** Where a reason lands: its own list for a missing column or keyword, "other" for anything else. */
  function IssueFor(reason: Option<Reason>): Issue {
    if reason == Some(NoColumn) then ColumnMissing
    else if reason == Some(NoKeyword) then KeywordMissing
    else OtherIssue
  }

  /** What the main loop makes of one workbook row: the value written, or the issue listed. */
  datatype Outcome<V> = Outcome(index: string, folderReport: string, value: Option<V>, issue: Option<Issue>)

  /** The written column, in workbook order, and the four issue lists of (index, folder) pairs. */
  datatype Report<V> = Report(column: seq<Option<V>>,
                              noCsv: seq<(string, string)>, noColumn: seq<(string, string)>,
                              noKeyword: seq<(string, string)>, other: seq<(string, string)>)

  function ListedAs<V>(issue: Issue): Outcome<V> -> Option<(string, string)> {
    (o: Outcome<V>) => if o.issue == Some(issue) then Some((o.index, o.folderReport)) else None
  }

  function ValueOf<V>(): Outcome<V> -> Option<V> {
    (o: Outcome<V>) => o.value
  }

  /** The report of a run: every row's value, and each issue list holding the rows with that issue, in order. */
  function ReportOf<V>(os: seq<Outcome<V>>): Report<V> {
    Report(MapSeq(os, ValueOf()),
           FilterMap(os, ListedAs(NoCsv)), FilterMap(os, ListedAs(ColumnMissing)),
           FilterMap(os, ListedAs(KeywordMissing)), FilterMap(os, ListedAs(OtherIssue)))
  }

  /**
   * One row's bookkeeping in the main loops: the value (or NaN) is
   * written, and an index that is not served joins the list of its issue.
   */
  method Record<V>(ghost os: seq<Outcome<V>>, report: Report<V>, o: Outcome<V>) returns (r: Report<V>)
    requires report == ReportOf(os)
    ensures r == ReportOf(os + [o])
  {
    assert (os + [o])[..|os|] == os;
    FilterMapSnoc(os, o, ListedAs(NoCsv));
    FilterMapSnoc(os, o, ListedAs(ColumnMissing));
    FilterMapSnoc(os, o, ListedAs(KeywordMissing));
    FilterMapSnoc(os, o, ListedAs(OtherIssue));
    r := report.(column := report.column + [o.value]);
    var entry := (o.index, o.folderReport);
    if o.issue == Some(NoCsv) {
      r := r.(noCsv := r.noCsv + [entry]);
    } else if o.issue == Some(ColumnMissing) {
      r := r.(noColumn := r.noColumn + [entry]);
    } else if o.issue == Some(KeywordMissing) {
      r := r.(noKeyword := r.noKeyword + [entry]);
    } else if o.issue == Some(OtherIssue) {
      r := r.(other := r.other + [entry]);
    }
  }

  function Written<V>(): Option<V> -> bool {
    (v: Option<V>) => v.Some?
  }

  /** A row is served or listed, never both. */
  predicate Served<V>(o: Outcome<V>) {
    o.value.Some? <==> o.issue.None?
  }

  /**
   * Every workbook row of a run is accounted for exactly once: its value
   * is written, or it is in exactly one of the four issue lists.
   */
  lemma {:induction false} EveryRowOnce<V>(os: seq<Outcome<V>>)
    requires forall k :: 0 <= k < |os| ==> Served(os[k])
    ensures var r := ReportOf(os);
      |r.column| == |os| &&
      Count(r.column, Written()) + |r.noCsv| + |r.noColumn| + |r.noKeyword| + |r.other| == |os|
  {
    if os != [] {
      var n := |os| - 1;
      var init := os[..n];
      var o := os[n];
      EveryRowOnce(init);
      assert os == init + [o];
      ListedStep(init, o, NoCsv);
      ListedStep(init, o, ColumnMissing);
      ListedStep(init, o, KeywordMissing);
      ListedStep(init, o, OtherIssue);
      var col, colInit := MapSeq(os, ValueOf()), MapSeq(init, ValueOf());
      assert col == colInit + [o.value];
      CountSnoc(colInit, o.value, Written());
      assert Count(col, Written()) == Count(colInit, Written()) + if o.value.Some? then 1 else 0;
      OneList(o);
    }
  }

  /** A row with an issue has exactly one of the four. */
  lemma OneList<V>(o: Outcome<V>)
    ensures (if o.issue == Some(NoCsv) then 1 else 0) + (if o.issue == Some(ColumnMissing) then 1 else 0) +
            (if o.issue == Some(KeywordMissing) then 1 else 0) + (if o.issue == Some(OtherIssue) then 1 else 0) ==
            if o.issue.Some? then 1 else 0
  {
    if o.issue.Some? {
      match o.issue.value
      case NoCsv =>
      case ColumnMissing =>
      case KeywordMissing =>
      case OtherIssue =>
    }
  }

  /** One more row adds one entry to the list of its issue, and none to another. */
  lemma ListedStep<V>(os: seq<Outcome<V>>, o: Outcome<V>, issue: Issue)
    ensures |FilterMap(os + [o], ListedAs(issue))| == |FilterMap(os, ListedAs(issue))| + if o.issue == Some(issue) then 1 else 0
  {
    FilterMapSnoc(os, o, ListedAs(issue));
  }

  /** The environment of a run: folder listings, file contents, number parsing and `str` of a float. */
  datatype Env = Env(listing: string -> Option<seq<string>>, files: string -> CsvFile,
                     parse: string -> Option<real>, floatStr: real -> string)

  /** No file was found for the index. */
  predicate Unmatched(m: Option<(string, string)>) {
    m.None? || m.value.0 == [] || m.value.1 == []
  }

  /** The folder printed beside an index in the issue lists. */
  function FolderReport(m: Option<(string, string)>): string {
    if m.Some? then m.value.1 else "not found"
  }

  /** crisistime.py's outcome for one workbook row: the crisis time, or the issue. */
  function CrisisOutcome(env: Env, id: Index.Cell): (o: Outcome<real>)
    ensures Served(o)
  {
    var index := Index.Idx5Direct(id, env.floatStr);
    var m := MatchingTypedCsv(Folders, env.listing, index);
    if Unmatched(m) then Outcome(index, FolderReport(m), None, Some(NoCsv))
    else match CrisisTimeOf(m.value.1, env.files(m.value.0), env.parse)
      case CrisisAt(t) => Outcome(index, FolderReport(m), Some(t), None)
      case NoCrisis(reason) => Outcome(index, FolderReport(m), None, Some(IssueFor(Some(reason))))
  }

  /** postcrisis.py's outcome for one workbook row: the two intervals, or the issue. */
  function IntervalOutcome(env: Env, id: Index.Cell): (o: Outcome<Intervals>)
    ensures Served(o)
  {
    var index := Index.Idx5Direct(id, env.floatStr);
    var m := MatchingCsv(Folders, env.listing, index);
    if Unmatched(m) then Outcome(index, FolderReport(m), None, Some(NoCsv))
    else TimesOutcome(index, FolderReport(m), RowTimesOf(m.value.1, env.files(m.value.0), env.parse))
  }

  /** The intervals of a file's times, or the list its reason sends the index to. */
  function TimesOutcome(index: string, folderReport: string, t: RowTimes): (o: Outcome<Intervals>)
    ensures Served(o)
  {
    match IntervalsOf(t)
    case Some(iv) => Outcome(index, folderReport, Some(iv), None)
    case None => Outcome(index, folderReport, None, Some(IssueFor(t.error)))
  }

  function CrisisOutcomes(env: Env): Index.Cell -> Outcome<real> {
    (id: Index.Cell) => CrisisOutcome(env, id)
  }

  function IntervalOutcomes(env: Env): Index.Cell -> Outcome<Intervals> {
    (id: Index.Cell) => IntervalOutcome(env, id)
  }

  /** crisistime.py's handling of one workbook row. */
  method CrisisRow(env: Env, id: Index.Cell) returns (o: Outcome<real>)
    ensures o == CrisisOutcome(env, id)
  {
    var index := Index.Idx5Direct(id, env.floatStr);
    var m := FindMatchingTypedCsv(Folders, env.listing, index);
    var folderReport := FolderReport(m);
    if Unmatched(m) {
      return Outcome(index, folderReport, None, Some(NoCsv));
    }
    var c := GetCrisisTime(m.value.1, env.files(m.value.0), env.parse);
    if c.CrisisAt? {
      o := Outcome(index, folderReport, Some(c.time), None);
    } else {
      o := Outcome(index, folderReport, None, Some(IssueFor(Some(c.reason))));
    }
  }

  /** postcrisis.py's handling of one workbook row. */
  method IntervalRow(env: Env, id: Index.Cell) returns (o: Outcome<Intervals>)
    ensures o == IntervalOutcome(env, id)
  {
    var index := Index.Idx5Direct(id, env.floatStr);
    var m := FindMatchingCsv(Folders, env.listing, index);
    var folderReport := FolderReport(m);
    if Unmatched(m) {
      return Outcome(index, folderReport, None, Some(NoCsv));
    }
    var t := GetCrisisAndRowTimes(m.value.1, env.files(m.value.0), env.parse);
    o := Conclude(index, folderReport, t);
  }

  /** The write of postcrisis.py's main loop: both intervals when all three times exist, else the issue. */
  method Conclude(index: string, folderReport: string, t: RowTimes) returns (o: Outcome<Intervals>)
    ensures o == TimesOutcome(index, folderReport, t)
  {
    if t.crisis.Some? && t.first.Some? && t.last.Some? {
      o := Outcome(index, folderReport, Some(Intervals(t.crisis.value - t.first.value, t.last.value - t.crisis.value)), None);
    } else if t.error == Some(NoColumn) {
      o := Outcome(index, folderReport, None, Some(ColumnMissing));
    } else if t.error == Some(NoKeyword) {
      o := Outcome(index, folderReport, None, Some(KeywordMissing));
    } else {
      o := Outcome(index, folderReport, None, Some(OtherIssue));
    }
  }

  /** crisistime.py's main loop over the workbook's index column. */
  method CrisisTimeMain(env: Env, ids: seq<Index.Cell>) returns (r: Report<real>)
    ensures r == ReportOf(MapSeq(ids, CrisisOutcomes(env)))
  {
    r := ReportOf([]);
    ghost var os: seq<Outcome<real>> := [];
    for i := 0 to |ids|
      invariant os == MapSeq(ids[..i], CrisisOutcomes(env)) && r == ReportOf(os)
    {
      MapSeqNext(ids, i, CrisisOutcomes(env));
      var o := CrisisRow(env, ids[i]);
      r := Record(os, r, o);
      os := os + [o];
    }
    assert ids[..|ids|] == ids;
  }

  /** postcrisis.py's main loop over the workbook's index column. */
  method PostCrisisMain(env: Env, ids: seq<Index.Cell>) returns (r: Report<Intervals>)
    ensures r == ReportOf(MapSeq(ids, IntervalOutcomes(env)))
  {
    r := ReportOf([]);
    ghost var os: seq<Outcome<Intervals>> := [];
    for i := 0 to |ids|
      invariant os == MapSeq(ids[..i], IntervalOutcomes(env)) && r == ReportOf(os)
    {
      MapSeqNext(ids, i, IntervalOutcomes(env));
      var o := IntervalRow(env, ids[i]);
      r := Record(os, r, o);
      os := os + [o];
    }
    assert ids[..|ids|] == ids;
  }

  /** Each script's run accounts for every workbook row exactly once. */
  lemma RunsAccountForEveryRow(env: Env, ids: seq<Index.Cell>)
    ensures var r := ReportOf(MapSeq(ids, CrisisOutcomes(env)));
      Count(r.column, Written()) + |r.noCsv| + |r.noColumn| + |r.noKeyword| + |r.other| == |ids|
    ensures var r := ReportOf(MapSeq(ids, IntervalOutcomes(env)));
      Count(r.column, Written()) + |r.noCsv| + |r.noColumn| + |r.noKeyword| + |r.other| == |ids|
  {
    var cs := MapSeq(ids, CrisisOutcomes(env));
    var ivs := MapSeq(ids, IntervalOutcomes(env));
    assert forall k :: 0 <= k < |cs| ==> Served(cs[k]);
    assert forall k :: 0 <= k < |ivs| ==> Served(ivs[k]);
    EveryRowOnce(cs);
    EveryRowOnce(ivs);
  }
}
