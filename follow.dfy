// Side-locked follow distance and time (followdistancetime.py).  Each packed
// row holds a time, the player and robot positions, the lower-cased
// roomEvent text and the raw cells.  For each robot row on the chosen side
// of the crisis time, the player row matched to it is found by scanning from
// the end of the file; consecutive matches add the player's displacement and
// the elapsed robot time.  The Euclidean norm is a parameter.

module Follow {
  import opened Wrappers
  import opened Text
  import opened Columns
  import opened Lists
  import opened Geometry

  /** Metres: a player this close to the robot is following it. */
  const ProximityThreshold: real := 2.0
  /** Seconds: how far back a matching player row may lie. */
  const FollowWindow: real := 10.0
  /** Seconds added to the fallback tag time. */
  const Offset: real := 0.229

  datatype PRow = PRow(t: real, player: Vec3, robot: Vec3, roomEvt: string, raw: seq<string>)

  /** Column indices of the eight required columns. */
  datatype Cols = Cols(time: nat, px: nat, py: nat, pz: nat, rx: nat, ry: nat, rz: nat, room: nat)

  predicate Reaches8(r: seq<string>, c: Cols) {
    c.time < |r| && c.px < |r| && c.py < |r| && c.pz < |r|
    && c.rx < |r| && c.ry < |r| && c.rz < |r| && c.room < |r|
  }

  /** A raw row is packed when it reaches every column and its seven numbers parse. */
  function Pack(c: Cols, parse: string -> Option<real>): seq<string> -> Option<PRow> {
    (r: seq<string>) =>
      if !Reaches8(r, c) then None
      else if parse(r[c.time]).Some? && parse(r[c.px]).Some? && parse(r[c.py]).Some?
              && parse(r[c.pz]).Some? && parse(r[c.rx]).Some? && parse(r[c.ry]).Some?
              && parse(r[c.rz]).Some? then
        Some(PRow(parse(r[c.time]).value,
                  Vec3(parse(r[c.px]).value, parse(r[c.py]).value, parse(r[c.pz]).value),
                  Vec3(parse(r[c.rx]).value, parse(r[c.ry]).value, parse(r[c.rz]).value),
                  Lower(Strip(r[c.room])), r))
      else None
  }

  /** The packing loop of `main`. */
  method PackRows(rowsRaw: seq<seq<string>>, c: Cols, parse: string -> Option<real>)
    returns (rows: seq<PRow>)
    ensures rows == FilterMap(rowsRaw, Pack(c, parse))
  {
    rows := [];
    for i := 0 to |rowsRaw|
      invariant rows == FilterMap(rowsRaw[..i], Pack(c, parse))
    {
      assert rowsRaw[..i + 1][..i] == rowsRaw[..i];
      var p := Pack(c, parse)(rowsRaw[i]);
      if p.Some? {
        rows := rows + [p.value];
      }
    }
    assert rowsRaw[..|rowsRaw|] == rowsRaw;
  }

  // ------------------------------------------------------------------ sides

  /**
   * Which robot rows take part: `Pre(c)` is `t < c`, `Post(c)` is `t >= c`;
   * `Whole` is the no-crisis call with an infinite crisis time in pre mode.
   */
  datatype Side = Pre(c: real) | Post(c: real) | Whole

  predicate OnSide(side: Side, t: real) {
    match side
    case Pre(c) => t < c
    case Post(c) => t >= c
    case Whole => true
  }

  /** Every time lies on exactly one side of a crisis time. */
  lemma OnSideExactlyOne(c: real, t: real)
    ensures OnSide(Pre(c), t) != OnSide(Post(c), t)
  {
  }

  // --------------------------------------------------------------- matching

  /** The player row j is within reach of a robot at `robot`. */
  predicate Close(rows: seq<PRow>, j: nat, robot: Vec3, norm: Vec3 -> real)
    requires j < |rows|
  {
    norm(Sub(rows[j].player, robot)) <= ProximityThreshold
  }

  /**
   * The match for a robot row at time t, looking at rows below n from the
   * top down: rows off the side are skipped, a row more than the window
   * before t stops the scan, and the first close one is the match.
   */
  function MatchBelow(rows: seq<PRow>, side: Side, t: real, robot: Vec3, norm: Vec3 -> real, n: nat): (r: int)
    requires n <= |rows|
    ensures -1 <= r < n
  {
    if n == 0 then -1
    else
      var k := n - 1;
      if !OnSide(side, rows[k].t) then MatchBelow(rows, side, t, robot, norm, k)
      else if t - rows[k].t > FollowWindow then -1
      else if Close(rows, k, robot, norm) then k
      else MatchBelow(rows, side, t, robot, norm, k)
  }

  /**
   * A match is on the side, at most the window before t and close to the
   * robot, and every later row on the side is within the window and not
   * close; without a match, every close row on the side is preceded in the
   * scan by one more than the window before t.
   */
  lemma {:induction false} MatchBelowSpec(rows: seq<PRow>, side: Side, t: real, robot: Vec3, norm: Vec3 -> real, n: nat)
    requires n <= |rows|
    ensures var r := MatchBelow(rows, side, t, robot, norm, n);
      && (r >= 0 ==> OnSide(side, rows[r].t) && t - rows[r].t <= FollowWindow && Close(rows, r, robot, norm))
      && (r >= 0 ==> forall k :: r < k < n && OnSide(side, rows[k].t) ==>
                       t - rows[k].t <= FollowWindow && !Close(rows, k, robot, norm))
      && (r == -1 ==> forall k :: 0 <= k < n && OnSide(side, rows[k].t) && Close(rows, k, robot, norm) ==>
                        exists l :: k <= l < n && OnSide(side, rows[l].t) && t - rows[l].t > FollowWindow)
  {
    if n > 0 {
      MatchBelowSpec(rows, side, t, robot, norm, n - 1);
      var k := n - 1;
      if OnSide(side, rows[k].t) && t - rows[k].t > FollowWindow {
        forall j | 0 <= j < n && OnSide(side, rows[j].t) && Close(rows, j, robot, norm)
          ensures exists l :: j <= l < n && OnSide(side, rows[l].t) && t - rows[l].t > FollowWindow
        {
          assert j <= k;
        }
      }
    }
  }

  /** The inner `for j in range(len(rows) - 1, -1, -1)` loop. */
  method FindMatch(rows: seq<PRow>, side: Side, t: real, robot: Vec3, norm: Vec3 -> real) returns (m: int)
    ensures m == MatchBelow(rows, side, t, robot, norm, |rows|)
  {
    var j := |rows|;
    while j > 0
      invariant 0 <= j <= |rows|
      invariant MatchBelow(rows, side, t, robot, norm, j) == MatchBelow(rows, side, t, robot, norm, |rows|)
    {
      j := j - 1;
      var tj := rows[j].t;
      if !OnSide(side, tj) {
        continue;
      }
      if t - tj > FollowWindow {
        return -1;
      }
      if norm(Sub(rows[j].player, robot)) <= ProximityThreshold {
        return j;
      }
    }
    return -1;
  }

  // ------------------------------------------------------------ accumulator

  /** followed_distance, followed_time, (prev_pos, prev_time) and inside_survey. */
  datatype Acc = Acc(dist: real, time: real, prev: Option<(Vec3, real)>, inside: bool)

  const Start: Acc := Acc(0.0, 0.0, None, false)

  /** One pass of the outer loop body for robot row i. */
  function Step(rows: seq<PRow>, side: Side, norm: Vec3 -> real, a: Acc, i: nat): Acc
    requires i < |rows|
  {
    var row := rows[i];
    if !OnSide(side, row.t) then a
    else if row.roomEvt == "entered survey room" then a.(prev := None, inside := true)
    else if row.roomEvt == "exited survey room" then a.(prev := None, inside := false)
    else if a.inside then a
    else
      var m := MatchBelow(rows, side, row.t, row.robot, norm, |rows|);
      if m == -1 then a
      else
        var pj := rows[m].player;
        match a.prev
        case None => a.(prev := Some((pj, row.t)))
        case Some(pv) => Acc(a.dist + norm(Sub(pv.0, pj)), a.time + (row.t - pv.1), Some((pj, row.t)), a.inside)
  }

  /** The accumulator after the first n robot rows. */
  function FollowUpTo(rows: seq<PRow>, side: Side, norm: Vec3 -> real, n: nat): Acc
    requires n <= |rows|
  {
    if n == 0 then Start else Step(rows, side, norm, FollowUpTo(rows, side, norm, n - 1), n - 1)
  }

  /** `compute_follow_stats_side_locked(rows, crisis_time, mode)`. */
  method FollowStats(rows: seq<PRow>, side: Side, norm: Vec3 -> real) returns (dist: real, time: real)
    ensures dist == FollowUpTo(rows, side, norm, |rows|).dist
    ensures time == FollowUpTo(rows, side, norm, |rows|).time
  {
    var a := Start;
    for i := 0 to |rows|
      invariant a == FollowUpTo(rows, side, norm, i)
    {
      a := FollowRow(rows, side, norm, a, i);
    }
    dist, time := a.dist, a.time;
  }

  /** The body of the outer loop for robot row i. */
  method FollowRow(rows: seq<PRow>, side: Side, norm: Vec3 -> real, a: Acc, i: nat) returns (b: Acc)
    requires i < |rows|
    ensures b == Step(rows, side, norm, a, i)
  {
    var row := rows[i];
    if !OnSide(side, row.t) {
      return a;
    }
    if row.roomEvt == "entered survey room" {
      return a.(prev := None, inside := true);
    } else if row.roomEvt == "exited survey room" {
      return a.(prev := None, inside := false);
    }
    if a.inside {
      return a;
    }
    var m := FindMatch(rows, side, row.t, row.robot, norm);
    if m == -1 {
      return a;
    }
    var pj := rows[m].player;
    b := a;
    if a.prev.Some? {
      b := b.(dist := a.dist + norm(Sub(a.prev.value.0, pj)), time := a.time + (row.t - a.prev.value.1));
    }
    b := b.(prev := Some((pj, row.t)));
  }

  /** A survey-room boundary row on the side resets the previous match and adds nothing. */
  lemma BoundaryResets(rows: seq<PRow>, side: Side, norm: Vec3 -> real, a: Acc, i: nat)
    requires i < |rows| && OnSide(side, rows[i].t)
    requires rows[i].roomEvt == "entered survey room" || rows[i].roomEvt == "exited survey room"
    ensures var b := Step(rows, side, norm, a, i);
      b.dist == a.dist && b.time == a.time && b.prev.None?
      && (b.inside <==> rows[i].roomEvt == "entered survey room")
  {
  }

  /** Rows between an "entered" and an "exited" row, and rows off the side, change nothing. */
  lemma SkippedRows(rows: seq<PRow>, side: Side, norm: Vec3 -> real, a: Acc, i: nat)
    requires i < |rows|
    requires !OnSide(side, rows[i].t)
             || (a.inside && rows[i].roomEvt != "entered survey room" && rows[i].roomEvt != "exited survey room")
    ensures Step(rows, side, norm, a, i) == a
  {
  }

  /** The first match after a reset only records the position. */
  lemma FirstMatchAddsNothing(rows: seq<PRow>, side: Side, norm: Vec3 -> real, a: Acc, i: nat)
    requires i < |rows| && a.prev.None?
    ensures Step(rows, side, norm, a, i).dist == a.dist && Step(rows, side, norm, a, i).time == a.time
  {
  }

  /** With a non-negative norm the followed distance never decreases and is never negative. */
  lemma {:induction false} DistanceGrows(rows: seq<PRow>, side: Side, norm: Vec3 -> real, i: nat, n: nat)
    requires i <= n <= |rows|
    requires forall v :: norm(v) >= 0.0
    ensures 0.0 <= FollowUpTo(rows, side, norm, i).dist <= FollowUpTo(rows, side, norm, n).dist
    decreases n
  {
    if i < n {
      DistanceGrows(rows, side, norm, i, n - 1);
      StepGrows(rows, side, norm, FollowUpTo(rows, side, norm, n - 1), n - 1);
    } else if n > 0 {
      DistanceGrows(rows, side, norm, n - 1, n - 1);
      StepGrows(rows, side, norm, FollowUpTo(rows, side, norm, n - 1), n - 1);
    }
  }

  lemma StepGrows(rows: seq<PRow>, side: Side, norm: Vec3 -> real, a: Acc, i: nat)
    requires i < |rows| && forall v :: norm(v) >= 0.0
    ensures a.dist <= Step(rows, side, norm, a, i).dist
  {
  }

  // ------------------------------------------------------------ crisis time

  /** The robotEvent cell (or "") mentions "shook" after strip and lower-casing. */
  function ShookAt(evCol: nat): PRow -> bool {
    (r: PRow) => Contains(Lower(Strip(if evCol < |r.raw| then r.raw[evCol] else "")), "shook")
  }

  /** As written: any raw cell whose lower-cased text contains "0.2". */
  function Any02AsWritten(tag: string): PRow -> bool {
    (r: PRow) => exists k :: 0 <= k < |r.raw| && Contains(Lower(r.raw[k]), tag)
  }

  /**
   * The crisis time of `main`: the time of the first packed row whose
   * robotEvent mentions "shook", else the time of the first row having a
   * cell that contains `tag`, plus the offset; `None` for no crisis.
   */
  function CrisisTimeWith(rows: seq<PRow>, evCol: int, tag: string): (r: Option<real>)
    ensures r.Some? <==> (evCol >= 0 && FirstFrom(rows, ShookAt(evCol), 0) != -1)
                         || FirstFrom(rows, Any02AsWritten(tag), 0) != -1
    ensures evCol >= 0 && FirstFrom(rows, ShookAt(evCol), 0) != -1 ==>
              r == Some(rows[FirstFrom(rows, ShookAt(evCol), 0)].t)
  {
    var s := if evCol >= 0 then FirstFrom(rows, ShookAt(evCol), 0) else -1;
    if s != -1 then Some(rows[s].t)
    else
      var f := FirstFrom(rows, Any02AsWritten(tag), 0);
      if f != -1 then Some(rows[f].t + Offset) else None
  }

  /**
   * Without a "shook" row the crisis time is the time of the first row
   * having a cell that contains `tag`, plus the offset.
   */
  lemma CrisisFallbackTime(rows: seq<PRow>, evCol: int, tag: string, s: int, f: int)
    requires s == (if evCol >= 0 then FirstFrom(rows, ShookAt(evCol), 0) else -1)
    requires f == FirstFrom(rows, Any02AsWritten(tag), 0)
    ensures s == -1 && f != -1 ==> CrisisTimeWith(rows, evCol, tag) == Some(rows[f].t + Offset)
    ensures s == -1 && f == -1 ==> CrisisTimeWith(rows, evCol, tag).None?
  {
  }

  /** `main`'s rule as written, whose fallback looks for "0.2" in every cell. */
  function CrisisTimeAsWritten(rows: seq<PRow>, evCol: int): Option<real> {
    CrisisTimeWith(rows, evCol, ['0', '.', '2'])
  }

  /** The rule of the other scripts, for comparison: the fallback looks for the "0.2 seconds" tag. */
  function CrisisTime(rows: seq<PRow>, evCol: int): Option<real> {
    CrisisTimeWith(rows, evCol, ['0', '.', '2', ' ', 's', 'e', 'c', 'o', 'n', 'd', 's'])
  }

  /**
   * As written, a row without any event whose time cell reads "10.25"
   * already places the crisis after it; the tag rule finds no crisis.
   */
  lemma NumericCellTriggersFallback(raw: seq<string>, row: PRow, tag: string, tagLong: string)
    requires raw == [['1', '0', '.', '2', '5']] && row == PRow(10.25, Vec3(0.0, 0.0, 0.0), Vec3(0.0, 0.0, 0.0), [], raw)
    requires tag == ['0', '.', '2'] && tagLong == ['0', '.', '2', ' ', 's', 'e', 'c', 'o', 'n', 'd', 's']
    ensures CrisisTimeAsWritten([row], -1) == Some(10.25 + Offset)
    ensures CrisisTime([row], -1).None?
  {
    var cell := raw[0];
    assert Lower(cell) == cell by {
      LowerAt(cell, 0); LowerAt(cell, 1); LowerAt(cell, 2); LowerAt(cell, 3); LowerAt(cell, 4);
    }
    assert OccursAt(Lower(cell), tag, 1);
    assert Any02AsWritten(tag)(row);
    assert !Any02AsWritten(tagLong)(row);
    assert FirstFrom([row], Any02AsWritten(tagLong), 1) == -1;
  }

  /**
   * A row the tag rule's fallback picks also satisfies the written one, so
   * the written fallback picks the same row or an earlier one, and the
   * written rule finds a crisis whenever the tag rule does.
   */
  lemma WrittenFallbackFirst(rows: seq<PRow>, evCol: int)
    ensures var f := FirstFrom(rows, Any02AsWritten(['0', '.', '2']), 0);
      var g := FirstFrom(rows, Any02AsWritten(['0', '.', '2', ' ', 's', 'e', 'c', 'o', 'n', 'd', 's']), 0);
      g != -1 ==> 0 <= f <= g
    ensures CrisisTime(rows, evCol).Some? ==> CrisisTimeAsWritten(rows, evCol).Some?
  {
    var short, long := ['0', '.', '2'], ['0', '.', '2', ' ', 's', 'e', 'c', 'o', 'n', 'd', 's'];
    var g := FirstFrom(rows, Any02AsWritten(long), 0);
    if g != -1 {
      var k :| 0 <= k < |rows[g].raw| && Contains(Lower(rows[g].raw[k]), long);
      PrefixContained(Lower(rows[g].raw[k]), long, short);
      assert Any02AsWritten(short)(rows[g]);
    }
  }

  /** A text containing `t` contains every prefix of `t`. */
  lemma PrefixContained(c: string, t: string, p: string)
    requires Contains(c, t) && StartsWith(t, p)
    ensures Contains(c, p)
  {
    var i :| 0 <= i <= |c| - |t| && OccursAt(c, t, i);
    assert c[i..i + |p|] == c[i..i + |t|][..|p|];
    assert OccursAt(c, p, i);
  }

  /** The shook and fallback scans of `main`, the fallback looking for `tag`. */
  method FindCrisisTime(rows: seq<PRow>, evCol: int, tag: string) returns (r: Option<real>)
    ensures r == CrisisTimeWith(rows, evCol, tag)
  {
    if evCol >= 0 {
      var s := FindFirst(rows, ShookAt(evCol), 0);
      if s != -1 {
        return Some(rows[s].t);
      }
    }
    var f := FindFirst(rows, Any02AsWritten(tag), 0);
    if f != -1 {
      return Some(rows[f].t + Offset);
    }
    return None;
  }

  // ------------------------------------------------------------------- main

  datatype Totals = Totals(dist: real, time: real)

  /** Overall, pre and post totals written for one participant; `None` is NaN. */
  datatype Outcome = Outcome(overall: Option<Totals>, pre: Option<Totals>, post: Option<Totals>)

  function TotalsOf(rows: seq<PRow>, side: Side, norm: Vec3 -> real): Totals {
    var a := FollowUpTo(rows, side, norm, |rows|);
    Totals(a.dist, a.time)
  }

  /**
   * The per-participant result after the CSV was read: no packed rows give
   * NaN everywhere; without a crisis the whole file is the overall and pre
   * and post are NaN; otherwise overall is pre + post.
   */
  function FollowOutcome(rows: seq<PRow>, crisis: Option<real>, norm: Vec3 -> real): (o: Outcome)
    ensures rows == [] ==> o == Outcome(None, None, None)
    ensures rows != [] ==> o.overall.Some?
    ensures o.pre.Some? <==> rows != [] && crisis.Some?
    ensures o.pre.Some? <==> o.post.Some?
    ensures o.pre.Some? ==> o.overall.value.dist == o.pre.value.dist + o.post.value.dist
                            && o.overall.value.time == o.pre.value.time + o.post.value.time
    ensures rows != [] && crisis.None? ==> o.overall == Some(TotalsOf(rows, Whole, norm))
  {
    if rows == [] then Outcome(None, None, None)
    else match crisis
      case None => Outcome(Some(TotalsOf(rows, Whole, norm)), None, None)
      case Some(c) =>
        var p := TotalsOf(rows, Pre(c), norm);
        var q := TotalsOf(rows, Post(c), norm);
        Outcome(Some(Totals(p.dist + q.dist, p.time + q.time)), Some(p), Some(q))
  }

  /** The required columns, found case-insensitively; `None` when any is missing. */
  function RequiredCols(header: seq<string>): (r: Option<Cols>)
    ensures r.Some? <==> (ColCaseIns(header, "Time") >= 0 && ColCaseIns(header, "PlayerVR.x") >= 0
      && ColCaseIns(header, "PlayerVR.y") >= 0 && ColCaseIns(header, "PlayerVR.z") >= 0
      && ColCaseIns(header, "Robot.x") >= 0 && ColCaseIns(header, "Robot.y") >= 0
      && ColCaseIns(header, "Robot.z") >= 0 && ColCaseIns(header, "roomEvent") >= 0)
  {
    var t, px, py, pz := ColCaseIns(header, "Time"), ColCaseIns(header, "PlayerVR.x"),
                         ColCaseIns(header, "PlayerVR.y"), ColCaseIns(header, "PlayerVR.z");
    var rx, ry, rz, room := ColCaseIns(header, "Robot.x"), ColCaseIns(header, "Robot.y"),
                            ColCaseIns(header, "Robot.z"), ColCaseIns(header, "roomEvent");
    if t < 0 || px < 0 || py < 0 || pz < 0 || rx < 0 || ry < 0 || rz < 0 || room < 0 then None
    else Some(Cols(t, px, py, pz, rx, ry, rz, room))
  }

  /**
   * One participant's CSV: an empty header, a missing column or no data
   * rows is a read error (all NaN); otherwise the rows are packed, the
   * crisis time found by the written rule (a shook row, else the first row
   * with a cell containing "0.2") and the totals computed.
   */
  method ProcessCsv(header: seq<string>, rowsRaw: seq<seq<string>>, parse: string -> Option<real>,
                    norm: Vec3 -> real) returns (o: Outcome)
    ensures header == [] || RequiredCols(header).None? || rowsRaw == [] ==> o == Outcome(None, None, None)
    ensures header != [] && RequiredCols(header).Some? && rowsRaw != [] ==>
              var rows := FilterMap(rowsRaw, Pack(RequiredCols(header).value, parse));
              o == FollowOutcome(rows, CrisisTimeAsWritten(rows, ColCaseIns(header, "robotEvent")), norm)
  {
    if header == [] || rowsRaw == [] {
      return Outcome(None, None, None);
    }
    var cols := RequiredCols(header);
    if cols.None? {
      return Outcome(None, None, None);
    }
    var rows := PackRows(rowsRaw, cols.value, parse);
    var crisis := FindCrisisTime(rows, ColCaseIns(header, "robotEvent"), ['0', '.', '2']);
    o := FollowFromRows(rows, crisis, norm);
  }

  /** The part of `main` after the crisis time is known: the side-locked totals. */
  method FollowFromRows(rows: seq<PRow>, crisis: Option<real>, norm: Vec3 -> real) returns (o: Outcome)
    ensures o == FollowOutcome(rows, crisis, norm)
  {
    if rows == [] {
      return Outcome(None, None, None);
    }
    if crisis.None? {
      var d, t := FollowStats(rows, Whole, norm);
      assert Totals(d, t) == TotalsOf(rows, Whole, norm);
      return Outcome(Some(Totals(d, t)), None, None);
    }
    var dp, tp := FollowStats(rows, Pre(crisis.value), norm);
    var dq, tq := FollowStats(rows, Post(crisis.value), norm);
    assert Totals(dp, tp) == TotalsOf(rows, Pre(crisis.value), norm);
    assert Totals(dq, tq) == TotalsOf(rows, Post(crisis.value), norm);
    o := Outcome(Some(Totals(dp + dq, tp + tq)), Some(Totals(dp, tp)), Some(Totals(dq, tq)));
  }
}
