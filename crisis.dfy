// The crisis split shared by the Python per-row analyses (velocity, player-robot
// distance, gaze SD, looking-at-robot, robot looks, exit sign, follow distance):
// the split row is the first row whose event cell mentions "shook"; failing
// that, the first row whose event cell mentions "0.2 seconds" gives a time t0
// and the split is the first row, from that one on, whose time reaches
// t0 + offset.  Every script's copy is checked against `SplitIndex`.

module Crisis {
  import opened Wrappers
  import opened Text
  import opened Columns
  import opened Lists

  /** Seconds added after the "0.2 seconds" tag to estimate the crisis time. */
  const Offset: real := 0.229

  /** Row reaches the event column and `"shook" in ev.strip().lower()`. */
  predicate ShookRow(row: seq<string>, ev: nat) {
    ev < |row| && Contains(Lower(Strip(row[ev])), "shook")
  }

  /** Row reaches both columns and `"0.2 seconds" in ev.strip().lower()`. */
  predicate Tag02Row(row: seq<string>, ev: nat, time: nat) {
    ev < |row| && time < |row| && Contains(Lower(Strip(row[ev])), "0.2 seconds")
  }

  /** Row reaches the time column, its time parses and is at least `target`. */
  predicate AtOrAfter(row: seq<string>, time: nat, target: real, parse: string -> Option<real>) {
    time < |row| && parse(row[time]).Some? && parse(row[time]).value >= target
  }

  function ShookAt(ev: nat): seq<string> -> bool {
    (row: seq<string>) => ShookRow(row, ev)
  }

  function Tag02At(ev: nat, time: nat): seq<string> -> bool {
    (row: seq<string>) => Tag02Row(row, ev, time)
  }

  function AtOrAfterOf(time: nat, target: real, parse: string -> Option<real>): seq<string> -> bool {
    (row: seq<string>) => AtOrAfter(row, time, target, parse)
  }

  /**
   * `r` is what the "0.2 seconds" fallback chooses: the first tagged row i0
   * has a parseable time t0, r is at or after i0, r's time reaches
   * t0 + offset and no row from i0 up to r does.
   */
  predicate FallbackSplit(rows: seq<seq<string>>, ev: nat, time: int, offset: real,
                          parse: string -> Option<real>, r: int) {
    0 <= time && 0 <= r < |rows| &&
    var i0 := FirstFrom(rows, Tag02At(ev, time), 0);
    0 <= i0 <= r && parse(rows[i0][time]).Some? &&
    var target := parse(rows[i0][time]).value + offset;
    AtOrAfter(rows[r], time, target, parse) &&
    forall k :: i0 <= k < r ==> !AtOrAfter(rows[k], time, target, parse)
  }

  predicate AnyShook(rows: seq<seq<string>>, ev: nat) {
    exists k :: 0 <= k < |rows| && ShookRow(rows[k], ev)
  }

  /**
   * The split row for event column `ev` and time column `time` (-1 when the
   * header has no time column), or -1 when there is none.
   */
  function SplitIndex(rows: seq<seq<string>>, ev: nat, time: int, offset: real,
                      parse: string -> Option<real>): (r: int)
    ensures -1 <= r < |rows|
  {
    var s := FirstFrom(rows, ShookAt(ev), 0);
    if s != -1 then s
    else if time < 0 then -1
    else
      var i0 := FirstFrom(rows, Tag02At(ev, time), 0);
      if i0 == -1 then -1
      else match parse(rows[i0][time])
        case None => -1
        case Some(t0) => FirstFrom(rows, AtOrAfterOf(time, t0 + offset, parse), i0)
  }

  /**
   * Any "shook" row wins, and then the first one; otherwise the split is the
   * "0.2 seconds" fallback, which needs a time column, and it is the only
   * row the fallback rule admits; -1 means neither rule finds a row.
   */
  lemma SplitIndexSpec(rows: seq<seq<string>>, ev: nat, time: int, offset: real,
                       parse: string -> Option<real>)
    ensures var r := SplitIndex(rows, ev, time, offset, parse);
      && (AnyShook(rows, ev) <==> (r >= 0 && ShookRow(rows[r], ev)))
      && (r >= 0 && ShookRow(rows[r], ev) ==> forall k :: 0 <= k < r ==> !ShookRow(rows[k], ev))
      && (r >= 0 && !ShookRow(rows[r], ev) ==> FallbackSplit(rows, ev, time, offset, parse, r))
      && (!AnyShook(rows, ev) && time < 0 ==> r == -1)
      && (!AnyShook(rows, ev) ==> forall m :: FallbackSplit(rows, ev, time, offset, parse, m) ==> m == r)
      && (r == -1 ==> !AnyShook(rows, ev) && forall m :: !FallbackSplit(rows, ev, time, offset, parse, m))
  {
    var r := SplitIndex(rows, ev, time, offset, parse);
    SplitShook(rows, ev, time, offset, parse, r);
    SplitFallback(rows, ev, time, offset, parse, r);
    if !AnyShook(rows, ev) {
      forall m | FallbackSplit(rows, ev, time, offset, parse, m) ensures m == r {
        FallbackUnique(rows, ev, time, offset, parse, r, m);
      }
    }
  }

  /** Without a "shook" row, a row the fallback rule admits is the split. */
  lemma FallbackUnique(rows: seq<seq<string>>, ev: nat, time: int, offset: real, parse: string -> Option<real>,
                       r: int, m: int)
    requires r == SplitIndex(rows, ev, time, offset, parse)
    requires !AnyShook(rows, ev) && FallbackSplit(rows, ev, time, offset, parse, m)
    ensures m == r
  {
    var i0 := FirstFrom(rows, Tag02At(ev, time), 0);
    var t0 := parse(rows[i0][time]).value;
    var p := AtOrAfterOf(time, t0 + offset, parse);
    assert r == FirstFrom(rows, p, i0);
    assert p(rows[m]);
    assert forall k :: i0 <= k < m ==> !p(rows[k]);
  }

  lemma SplitShook(rows: seq<seq<string>>, ev: nat, time: int, offset: real, parse: string -> Option<real>, r: int)
    requires r == SplitIndex(rows, ev, time, offset, parse)
    ensures AnyShook(rows, ev) <==> (r >= 0 && ShookRow(rows[r], ev))
    ensures r >= 0 && ShookRow(rows[r], ev) ==> forall k :: 0 <= k < r ==> !ShookRow(rows[k], ev)
  {
    var s := FirstFrom(rows, ShookAt(ev), 0);
    if s == -1 {
      assert forall k :: 0 <= k < |rows| ==> !ShookAt(ev)(rows[k]);
    } else {
      assert r == s && ShookAt(ev)(rows[s]);
    }
  }

  lemma SplitFallback(rows: seq<seq<string>>, ev: nat, time: int, offset: real, parse: string -> Option<real>, r: int)
    requires r == SplitIndex(rows, ev, time, offset, parse)
    ensures r >= 0 && !ShookRow(rows[r], ev) ==> FallbackSplit(rows, ev, time, offset, parse, r)
    ensures !AnyShook(rows, ev) && time < 0 ==> r == -1
  {
    var s := FirstFrom(rows, ShookAt(ev), 0);
    if s == -1 && time >= 0 {
      var i0 := FirstFrom(rows, Tag02At(ev, time), 0);
      if i0 != -1 && parse(rows[i0][time]).Some? {
        var t0 := parse(rows[i0][time]).value;
        FallbackAt(rows, ev, time, offset, parse, i0, t0, r);
      }
    } else if s != -1 {
      assert ShookAt(ev)(rows[s]);
    }
  }

  lemma FallbackAt(rows: seq<seq<string>>, ev: nat, time: nat, offset: real, parse: string -> Option<real>,
                   i0: nat, t0: real, r: int)
    requires i0 == FirstFrom(rows, Tag02At(ev, time), 0) && i0 < |rows| && time < |rows[i0]|
    requires parse(rows[i0][time]) == Some(t0)
    requires r == FirstFrom(rows, AtOrAfterOf(time, t0 + offset, parse), i0)
    ensures r >= 0 ==> FallbackSplit(rows, ev, time, offset, parse, r)
  {
    if r >= 0 {
      assert AtOrAfterOf(time, t0 + offset, parse)(rows[r]);
    }
  }

  /** The "shook" loop: the first row whose event cell mentions "shook". */
  method FindFirstShook(rows: seq<seq<string>>, ev: nat) returns (r: int)
    ensures r == FirstFrom(rows, ShookAt(ev), 0)
  {
    var i := 0;
    while i < |rows|
      invariant 0 <= i <= |rows|
      invariant FirstFrom(rows, ShookAt(ev), i) == FirstFrom(rows, ShookAt(ev), 0)
    {
      if ShookRow(rows[i], ev) {
        return i;
      }
      i := i + 1;
    }
    return -1;
  }

  /** The "0.2 seconds" loop: the first tagged row reaching both columns. */
  method FindFirst02(rows: seq<seq<string>>, ev: nat, time: nat) returns (r: int)
    ensures r == FirstFrom(rows, Tag02At(ev, time), 0)
  {
    var i := 0;
    while i < |rows|
      invariant 0 <= i <= |rows|
      invariant FirstFrom(rows, Tag02At(ev, time), i) == FirstFrom(rows, Tag02At(ev, time), 0)
    {
      if Tag02Row(rows[i], ev, time) {
        return i;
      }
      i := i + 1;
    }
    return -1;
  }

  /** The final loop: the first row from `start` on whose time reaches `target`. */
  method FindFirstAtOrAfter(rows: seq<seq<string>>, time: nat, target: real,
                            parse: string -> Option<real>, start: nat) returns (r: int)
    requires start <= |rows|
    ensures r == FirstFrom(rows, AtOrAfterOf(time, target, parse), start)
  {
    var m := start;
    while m < |rows|
      invariant start <= m <= |rows|
      invariant FirstFrom(rows, AtOrAfterOf(time, target, parse), m)
             == FirstFrom(rows, AtOrAfterOf(time, target, parse), start)
    {
      if AtOrAfter(rows[m], time, target, parse) {
        return m;
      }
      m := m + 1;
    }
    return -1;
  }

  /** The split search with its early returns (`split_index_shook_or_02` and its copies). */
  method FindSplitIndex(rows: seq<seq<string>>, ev: nat, time: int, offset: real,
                        parse: string -> Option<real>) returns (r: int)
    ensures r == SplitIndex(rows, ev, time, offset, parse)
  {
    r := FindFirstShook(rows, ev);
    if r != -1 {
      return;
    }
    if time < 0 {
      return -1;
    }
    var start := FindFirst02(rows, ev, time);
    if start == -1 {
      return -1;
    }
    var t0 := parse(rows[start][time]);
    if t0.None? {
      return -1;
    }
    r := FindFirstAtOrAfter(rows, time, t0.value + offset, parse, start);
  }

  /** `ev_col = find_col_caseins(header, "robotEvent")`, falling back to "Event". */
  function EventColCaseIns(header: seq<string>): (r: int)
    ensures -1 <= r < |header|
    ensures r >= 0 ==> SameCaseIns(header[r], "robotEvent") || SameCaseIns(header[r], "Event")
    ensures r == -1 <==> ColCaseIns(header, "robotEvent") == -1 && ColCaseIns(header, "Event") == -1
  {
    var e := ColCaseIns(header, "robotEvent");
    if e != -1 then e else ColCaseIns(header, "Event")
  }

  /** The split with both columns resolved case-insensitively from the header. */
  function SplitByHeader(header: seq<string>, rows: seq<seq<string>>, offset: real,
                         parse: string -> Option<real>): (r: int)
    ensures -1 <= r < |rows|
    ensures EventColCaseIns(header) == -1 ==> r == -1
  {
    var ev := EventColCaseIns(header);
    if ev == -1 then -1 else SplitIndex(rows, ev, ColCaseIns(header, "Time"), offset, parse)
  }

  /**
   * `find_crisis_split_index(header, rows, offset)`: columns "Time" and
   * "robotEvent"/"Event" found by case-insensitive header match, then the split.
   */
  method FindCrisisSplitIndex(header: seq<string>, rows: seq<seq<string>>, offset: real,
                              parse: string -> Option<real>) returns (r: int)
    ensures r == SplitByHeader(header, rows, offset, parse)
  {
    var timeCol := FindColCaseIns(header, "Time");
    var evCol := FindColCaseIns(header, "robotEvent");
    if evCol == -1 {
      evCol := FindColCaseIns(header, "Event");
    }
    if evCol == -1 {
      return -1;
    }
    r := FindSplitIndex(rows, evCol, timeCol, offset, parse);
  }
}
