// Player velocity (velocity.py): per-row times and positions, the Survey Room
// exclusion toggle, speeds between adjacent valid rows, and the pre/post masks
// around the crisis time.  NaN is `None`; the Euclidean norm is a parameter.

module Velocity {
  import opened Wrappers
  import opened Text
  import opened Columns
  import opened Crisis
  import opened Geometry

  /**
   * `split_index_shook_or_02(header, rows, time_idx)` of velocity.py: the
   * event column is found by exact name, "robotEvent" before "Event".
   */
  function SplitExact(header: seq<string>, rows: seq<seq<string>>, timeIdx: int,
                      parse: string -> Option<real>): (r: int)
    ensures -1 <= r < |rows|
    ensures IndexOf(header, "robotEvent") == -1 && IndexOf(header, "Event") == -1 ==> r == -1
    ensures IndexOf(header, "robotEvent") != -1 ==>
              r == SplitIndex(rows, IndexOf(header, "robotEvent"), timeIdx, Offset, parse)
    ensures IndexOf(header, "robotEvent") == -1 && IndexOf(header, "Event") != -1 ==>
              r == SplitIndex(rows, IndexOf(header, "Event"), timeIdx, Offset, parse)
  {
    var e := IndexOf(header, "robotEvent");
    var ev := if e != -1 then e else IndexOf(header, "Event");
    if ev == -1 then -1 else SplitIndex(rows, ev, timeIdx, Offset, parse)
  }

  method SplitIndexShookOr02(header: seq<string>, rows: seq<seq<string>>, timeIdx: int,
                             parse: string -> Option<real>) returns (r: int)
    ensures r == SplitExact(header, rows, timeIdx, parse)
  {
    var ev := IndexOf(header, "robotEvent");
    if ev == -1 {
      ev := IndexOf(header, "Event");
      if ev == -1 {
        return -1;
      }
    }
    r := FindSplitIndex(rows, ev, timeIdx, Offset, parse);
  }

  // ---------------------------------------------------------------- survey room

  datatype Marker = Enter | Exit | NoMarker

  /** roomEvent column, exact text ("" for a short row). */
  function ExactMarker(row: seq<string>, col: nat): Marker {
    var rv := if col < |row| then row[col] else "";
    if rv == "Entered Survey Room" then Enter
    else if rv == "Exited Survey Room" then Exit
    else NoMarker
  }

  /** Event column fallback: substring of the stripped, lower-cased text. */
  function LooseMarker(row: seq<string>, col: nat): Marker {
    var s := Lower(Strip(if col < |row| then row[col] else ""));
    if Contains(s, "entered survey room") then Enter
    else if Contains(s, "exited survey room") then Exit
    else NoMarker
  }

  /** Marker of row k: roomEvent when present, else Event, else none. */
  function MarkerAt(rows: seq<seq<string>>, k: nat, rvCol: int, evtCol: int): Marker
    requires k < |rows|
  {
    if rvCol >= 0 then ExactMarker(rows[k], rvCol)
    else if evtCol >= 0 then LooseMarker(rows[k], evtCol)
    else NoMarker
  }

  function Markers(rows: seq<seq<string>>, rvCol: int, evtCol: int): (m: seq<Marker>)
    ensures |m| == |rows|
    ensures forall k :: 0 <= k < |rows| ==> m[k] == MarkerAt(rows, k, rvCol, evtCol)
  {
    seq(|rows|, k requires 0 <= k < |rows| => MarkerAt(rows, k, rvCol, evtCol))
  }

  /** The toggle's state after the first n markers. */
  function StateAfter(m: seq<Marker>, n: nat): bool
    requires n <= |m|
  {
    if n == 0 then false
    else match m[n - 1]
      case Enter => true
      case Exit => false
      case NoMarker => StateAfter(m, n - 1)
  }

  /** in_survey[k] holds iff the latest marker at or before k is an "Entered" one. */
  lemma {:induction false} StateAfterLatest(m: seq<Marker>, n: nat)
    requires n <= |m|
    ensures StateAfter(m, n) <==>
              exists j :: 0 <= j < n && m[j] == Enter && forall l :: j < l < n ==> m[l] == NoMarker
  {
    if n > 0 {
      StateAfterLatest(m, n - 1);
      if m[n - 1] == Enter {
      } else if m[n - 1] == Exit {
        forall j | 0 <= j < n && m[j] == Enter ensures exists l :: j < l < n && m[l] != NoMarker {
          assert j < n - 1 && m[n - 1] != NoMarker;
        }
      } else {
        if exists j :: 0 <= j < n && m[j] == Enter && forall l :: j < l < n ==> m[l] == NoMarker {
          var j :| 0 <= j < n && m[j] == Enter && forall l :: j < l < n ==> m[l] == NoMarker;
          assert j < n - 1;
        }
      }
    }
  }

  /**
   * The survey-room exclusion loop of `main`: `in_survey[k]` is the toggle
   * state after row k.  `rvCol` is the exact "roomEvent" column and
   * `evtCol` the exact "Event" column, -1 when absent.
   */
  method SurveyMask(rows: seq<seq<string>>, rvCol: int, evtCol: int) returns (inSurvey: array<bool>)
    ensures fresh(inSurvey) && inSurvey.Length == |rows|
    ensures forall k :: 0 <= k < |rows| ==> inSurvey[k] == StateAfter(Markers(rows, rvCol, evtCol), k + 1)
  {
    inSurvey := new bool[|rows|](_ => false);
    if rvCol != -1 || evtCol != -1 {
      ToggleLoop(Markers(rows, rvCol, evtCol), inSurvey);
    } else {
      NeverEntered(Markers(rows, rvCol, evtCol));
    }
  }

  /**
   * The `for k in range(n)` loop, which keeps `state` and records it per
   * row; `m` holds each row's marker.
   */
  method ToggleLoop(m: seq<Marker>, inSurvey: array<bool>)
    requires inSurvey.Length == |m|
    modifies inSurvey
    ensures forall k :: 0 <= k < |m| ==> inSurvey[k] == StateAfter(m, k + 1)
  {
    var state := false;
    for k := 0 to |m|
      invariant state == StateAfter(m, k)
      invariant forall j :: 0 <= j < k ==> inSurvey[j] == StateAfter(m, j + 1)
    {
      if m[k] == Enter {
        state := true;
      } else if m[k] == Exit {
        state := false;
      }
      inSurvey[k] := state;
    }
  }

  /** Without a marker the toggle stays off. */
  lemma NeverEntered(m: seq<Marker>)
    requires forall j :: 0 <= j < |m| ==> m[j] == NoMarker
    ensures forall n :: 0 < n <= |m| ==> !StateAfter(m, n)
  {
    forall n | 0 < n <= |m| ensures !StateAfter(m, n) {
      NeverEnteredUpTo(m, n);
    }
  }

  lemma {:induction false} NeverEnteredUpTo(m: seq<Marker>, n: nat)
    requires n <= |m| && forall j :: 0 <= j < |m| ==> m[j] == NoMarker
    ensures !StateAfter(m, n)
  {
    if n > 0 {
      NeverEnteredUpTo(m, n - 1);
    }
  }

  // ------------------------------------------------------------- speeds

  /** `times[k]`: the parsed time, NaN for a short row or an unparseable cell. */
  function TimeAt(row: seq<string>, tCol: nat, parse: string -> Option<real>): Option<real> {
    if tCol < |row| then parse(row[tCol]) else None
  }

  /** `pxyz[k]`: the position when all three coordinates parse. */
  function PosAt(row: seq<string>, px: nat, py: nat, pz: nat, parse: string -> Option<real>): Option<Vec3> {
    if px < |row| && py < |row| && pz < |row|
       && parse(row[px]).Some? && parse(row[py]).Some? && parse(row[pz]).Some?
    then Some(Vec3(parse(row[px]).value, parse(row[py]).value, parse(row[pz]).value))
    else None
  }

  /** The pair (i - 1, i) yields a speed. */
  predicate PairOk(times: seq<Option<real>>, pos: seq<Option<Vec3>>, valid: seq<bool>, i: int)
    requires |pos| == |times| == |valid| && 1 <= i < |times|
  {
    valid[i - 1] && valid[i] && times[i - 1].Some? && times[i].Some?
    && times[i].value > times[i - 1].value && pos[i - 1].Some? && pos[i].Some?
  }

  function SpeedAt(times: seq<Option<real>>, pos: seq<Option<Vec3>>, valid: seq<bool>,
                   norm: Vec3 -> real, i: int): real
    requires |pos| == |times| == |valid| && 1 <= i < |times| && PairOk(times, pos, valid, i)
  {
    norm(Sub(pos[i].value, pos[i - 1].value)) / (times[i].value - times[i - 1].value)
  }

  /** Speeds of the adjacent valid pairs within the first n rows, in order. */
  function Speeds(times: seq<Option<real>>, pos: seq<Option<Vec3>>, valid: seq<bool>,
                  norm: Vec3 -> real, n: nat): (r: seq<real>)
    requires |pos| == |times| == |valid| && n <= |times|
    ensures |r| <= if n == 0 then 0 else n - 1
  {
    if n <= 1 then []
    else Speeds(times, pos, valid, norm, n - 1)
         + if PairOk(times, pos, valid, n - 1) then [SpeedAt(times, pos, valid, norm, n - 1)] else []
  }

  /** Index of the last valid row before i, or -1 (`prev_idx`). */
  function LastValid(valid: seq<bool>, i: nat): (r: int)
    requires i <= |valid|
    ensures -1 <= r < i && (r >= 0 ==> valid[r])
    ensures forall j :: r < j < i ==> !valid[j]
  {
    if i == 0 then -1 else if valid[i - 1] then i - 1 else LastValid(valid, i - 1)
  }

  /** `compute_speeds_for_mask(times, pxyz, valid_mask)`. */
  method ComputeSpeedsForMask(times: seq<Option<real>>, pos: seq<Option<Vec3>>, valid: seq<bool>,
                              norm: Vec3 -> real) returns (speeds: seq<real>)
    requires |pos| == |times| == |valid|
    ensures speeds == Speeds(times, pos, valid, norm, |times|)
    ensures |speeds| <= if |times| == 0 then 0 else |times| - 1
  {
    speeds := [];
    var prev := -1;
    for i := 0 to |times|
      invariant prev == LastValid(valid, i)
      invariant speeds == Speeds(times, pos, valid, norm, i)
    {
      if !valid[i] {
        continue;
      }
      if prev == -1 || i - prev != 1 {
        prev := i;
        continue;
      }
      var t0, t1 := times[prev], times[i];
      if t0.None? || t1.None? || t1.value <= t0.value {
        prev := i;
        continue;
      }
      var p0, p1 := pos[prev], pos[i];
      if p0.None? || p1.None? {
        prev := i;
        continue;
      }
      speeds := speeds + [norm(Sub(p1.value, p0.value)) / (t1.value - t0.value)];
      prev := i;
    }
  }

  /** Within any mask, a speed comes only from two adjacent rows that are both in the mask. */
  lemma {:induction false} SpeedsFromAdjacent(times: seq<Option<real>>, pos: seq<Option<Vec3>>,
                                              valid: seq<bool>, norm: Vec3 -> real, n: nat, k: int)
    requires |pos| == |times| == |valid| && n <= |times|
    requires 0 <= k < |Speeds(times, pos, valid, norm, n)|
    ensures exists i :: 1 <= i < n && PairOk(times, pos, valid, i)
                        && Speeds(times, pos, valid, norm, n)[k] == SpeedAt(times, pos, valid, norm, i)
  {
    var p := Speeds(times, pos, valid, norm, n - 1);
    if k < |p| {
      SpeedsFromAdjacent(times, pos, valid, norm, n - 1, k);
    } else {
      assert PairOk(times, pos, valid, n - 1);
    }
  }

  // ------------------------------------------------------------- masks

  /**
   * `valid = isfinite(times) & isfinite(pxyz).all(axis=1) & ~in_survey`.
   */
  function ValidMask(times: seq<Option<real>>, pos: seq<Option<Vec3>>, inSurvey: seq<bool>): (v: seq<bool>)
    requires |pos| == |times| == |inSurvey|
    ensures |v| == |times|
    ensures forall k :: 0 <= k < |v| ==> (v[k] <==> times[k].Some? && pos[k].Some? && !inSurvey[k])
  {
    seq(|times|, k requires 0 <= k < |times| => times[k].Some? && pos[k].Some? && !inSurvey[k])
  }

  /** `valid & (times < crisis_t)`. */
  function PreMask(valid: seq<bool>, times: seq<Option<real>>, c: real): (v: seq<bool>)
    requires |valid| == |times|
    ensures |v| == |valid|
    ensures forall k :: 0 <= k < |v| ==> (v[k] <==> valid[k] && times[k].Some? && times[k].value < c)
  {
    seq(|valid|, k requires 0 <= k < |valid| => valid[k] && times[k].Some? && times[k].value < c)
  }

  /** `valid & (times >= crisis_t)`. */
  function PostMask(valid: seq<bool>, times: seq<Option<real>>, c: real): (v: seq<bool>)
    requires |valid| == |times|
    ensures |v| == |valid|
    ensures forall k :: 0 <= k < |v| ==> (v[k] <==> valid[k] && times[k].Some? && times[k].value >= c)
  {
    seq(|valid|, k requires 0 <= k < |valid| => valid[k] && times[k].Some? && times[k].value >= c)
  }

  /** The pre and post masks are disjoint and together are exactly the valid mask. */
  lemma MasksPartition(times: seq<Option<real>>, pos: seq<Option<Vec3>>, inSurvey: seq<bool>, c: real)
    requires |pos| == |times| == |inSurvey|
    ensures var valid := ValidMask(times, pos, inSurvey);
      var pre, post := PreMask(valid, times, c), PostMask(valid, times, c);
      forall k :: 0 <= k < |times| ==> !(pre[k] && post[k]) && (pre[k] || post[k] <==> valid[k])
  {
    var valid := ValidMask(times, pos, inSurvey);
    var pre, post := PreMask(valid, times, c), PostMask(valid, times, c);
    forall k | 0 <= k < |times|
      ensures !(pre[k] && post[k]) && (pre[k] || post[k] <==> valid[k])
    {
      if valid[k] {
        assert times[k].Some?;
      }
    }
  }

  /**
   * The crisis time of `main`: the time of the split row, or nothing when
   * there is no split or its time is NaN (then pre and post are NaN).
   */
  function CrisisTime(times: seq<Option<real>>, split: int): (r: Option<real>)
    requires -1 <= split < |times|
    ensures r.Some? <==> split >= 0 && times[split].Some?
    ensures r.Some? ==> r.value == times[split].value
  {
    if split == -1 then None else times[split]
  }
}
