// Gaze counts over the "LookingAt" column: the number of separate looks at
// the robot (looksatrobot.py) or at an exit sign (exitsign.py), and the
// share of rows looking at the robot (lookingatrobot.py).  Each is computed
// over all rows and, around the crisis split row, over the rows before it
// and the rows after it.

module LookRuns {
  import opened Text
  import opened Lists

  /** `count_robot_looks`: the cell reached, is not empty and is exactly "Robot". */
  predicate RobotHit(row: seq<string>, col: nat) {
    col < |row| && row[col] != "" && row[col] == "Robot"
  }

  /** `count_signage_looks`: the cell reached, is not empty and starts with "Signage". */
  predicate SignageHit(row: seq<string>, col: nat) {
    col < |row| && row[col] != "" && StartsWith(row[col], "Signage")
  }

  function RobotHits(rows: seq<seq<string>>, col: nat): (h: seq<bool>)
    ensures |h| == |rows| && forall i :: 0 <= i < |rows| ==> h[i] == RobotHit(rows[i], col)
  {
    seq(|rows|, i requires 0 <= i < |rows| => RobotHit(rows[i], col))
  }

  function SignageHits(rows: seq<seq<string>>, col: nat): (h: seq<bool>)
    ensures |h| == |rows| && forall i :: 0 <= i < |rows| ==> h[i] == SignageHit(rows[i], col)
  {
    seq(|rows|, i requires 0 <= i < |rows| => SignageHit(rows[i], col))
  }

  /** Number of maximal blocks of consecutive `true`s. */
  function Runs(h: seq<bool>): nat {
    if h == [] then 0
    else Runs(h[..|h| - 1]) + if h[|h| - 1] && (|h| == 1 || !h[|h| - 2]) then 1 else 0
  }

  function Trues(h: seq<bool>): nat {
    if h == [] then 0 else Trues(h[..|h| - 1]) + if h[|h| - 1] then 1 else 0
  }

  /** There are never more looks than looking rows, and none without one. */
  lemma {:induction false} RunsAtMostTrues(h: seq<bool>)
    ensures Runs(h) <= Trues(h)
    ensures Trues(h) > 0 ==> Runs(h) > 0
  {
    if h != [] {
      RunsAtMostTrues(h[..|h| - 1]);
      var p := h[..|h| - 1];
      if Trues(p) > 0 && Runs(p) == 0 {
        assert false;
      }
      if |h| >= 2 && h[|h| - 1] && h[|h| - 2] {
        TrueLast(p);
      }
    }
  }

  lemma TrueLast(p: seq<bool>)
    requires p != [] && p[|p| - 1]
    ensures Trues(p) > 0
  {
  }

  /** An uninterrupted block of looking rows is one look. */
  lemma {:induction false} RunsBlock(h: seq<bool>)
    requires h != [] && forall i :: 0 <= i < |h| ==> h[i]
    ensures Runs(h) == 1
  {
    if |h| > 1 {
      RunsBlock(h[..|h| - 1]);
    }
  }

  /** Counting two stretches separately splits one look in two when they join inside a look. */
  lemma {:induction false} RunsAppend(a: seq<bool>, b: seq<bool>)
    ensures Runs(a + b) == Runs(a) + Runs(b) - if a != [] && b != [] && a[|a| - 1] && b[0] then 1 else 0
    decreases |b|
  {
    if b == [] {
      assert a + b == a;
    } else if |b| == 1 {
      assert (a + b)[..|a + b| - 1] == a;
      assert b[..0] == [];
    } else {
      var b' := b[..|b| - 1];
      assert (a + b)[..|a + b| - 1] == a + b';
      RunsAppend(a, b');
      assert b'[0] == b[0];
      assert b'[..|b'| - 1] == b[..|b| - 2];
    }
  }

  /**
   * Leaving the crisis row out changes the number of looks by at most one:
   * pre + post looks lie within one of the overall looks.
   */
  lemma SplitRuns(h: seq<bool>, s: int)
    requires 0 <= s < |h|
    ensures Runs(h) - 1 <= Runs(h[..s]) + Runs(h[s + 1..]) <= Runs(h) + 1
  {
    var a, x, b := h[..s], [h[s]], h[s + 1..];
    assert h == (a + x) + b;
    RunsAppend(a + x, b);
    RunsAppend(a, x);
    assert x[..0] == [];
  }

  /** `count_robot_looks(rows, look_col)`. */
  method CountRobotLooks(rows: seq<seq<string>>, lookCol: nat) returns (robotLooks: nat)
    ensures robotLooks == Runs(RobotHits(rows, lookCol))
  {
    ghost var h := RobotHits(rows, lookCol);
    robotLooks := 0;
    var inLook := false;
    for i := 0 to |rows|
      invariant robotLooks == Runs(h[..i])
      invariant inLook == (i > 0 && h[i - 1])
    {
      assert h[..i + 1][..i] == h[..i];
      var r := rows[i];
      if |r| <= lookCol {
        inLook := false;
      } else if r[lookCol] == "" {
        inLook := false;
      } else if r[lookCol] == "Robot" {
        if !inLook {
          robotLooks := robotLooks + 1;
          inLook := true;
        }
      } else {
        inLook := false;
      }
    }
    assert h[..|rows|] == h;
  }

  /** `count_signage_looks(rows, look_col)`. */
  method CountSignageLooks(rows: seq<seq<string>>, lookCol: nat) returns (count: nat)
    ensures count == Runs(SignageHits(rows, lookCol))
  {
    ghost var h := SignageHits(rows, lookCol);
    count := 0;
    var inLook := false;
    for i := 0 to |rows|
      invariant count == Runs(h[..i])
      invariant inLook == (i > 0 && h[i - 1])
    {
      assert h[..i + 1][..i] == h[..i];
      var r := rows[i];
      if |r| <= lookCol {
        inLook := false;
      } else if r[lookCol] == "" {
        inLook := false;
      } else if StartsWith(r[lookCol], "Signage") {
        if !inLook {
          count := count + 1;
          inLook := true;
        }
      } else {
        inLook := false;
      }
    }
    assert h[..|rows|] == h;
  }

  /** Different exit signs looked at one after another are one look. */
  lemma SignageBlock(rows: seq<seq<string>>, col: nat)
    requires rows != [] && forall i :: 0 <= i < |rows| ==> col < |rows[i]| && StartsWith(rows[i][col], "Signage")
    ensures Runs(SignageHits(rows, col)) == 1
  {
    RunsBlock(SignageHits(rows, col));
  }

  /** Slicing the rows slices the look marks. */
  lemma HitsSlice(rows: seq<seq<string>>, col: nat, s: int)
    requires 0 <= s < |rows|
    ensures RobotHits(rows[..s], col) == RobotHits(rows, col)[..s]
    ensures RobotHits(rows[s + 1..], col) == RobotHits(rows, col)[s + 1..]
    ensures SignageHits(rows[..s], col) == SignageHits(rows, col)[..s]
    ensures SignageHits(rows[s + 1..], col) == SignageHits(rows, col)[s + 1..]
  {
  }

  /** The pre and post look counts of the main loops lie within one of the overall count. */
  lemma PrePostLooks(rows: seq<seq<string>>, col: nat, s: int)
    requires 0 <= s < |rows|
    ensures var all := Runs(RobotHits(rows, col));
      all - 1 <= Runs(RobotHits(rows[..s], col)) + Runs(RobotHits(rows[s + 1..], col)) <= all + 1
    ensures var all := Runs(SignageHits(rows, col));
      all - 1 <= Runs(SignageHits(rows[..s], col)) + Runs(SignageHits(rows[s + 1..], col)) <= all + 1
  {
    HitsSlice(rows, col, s);
    SplitRuns(RobotHits(rows, col), s);
    SplitRuns(SignageHits(rows, col), s);
  }
}

module LookShare {
  import opened Wrappers
  import opened Lists

  /** Every row that reaches the column counts in the denominator, blank or not. */
  function Reaching(rows: seq<seq<string>>, col: nat): nat {
    Count(rows, (r: seq<string>) => col < |r|)
  }

  /** Rows whose cell is exactly "Robot". */
  function AtRobot(rows: seq<seq<string>>, col: nat): nat {
    Count(rows, (r: seq<string>) => col < |r| && r[col] == "Robot")
  }

  lemma {:induction false} AtRobotAtMostReaching(rows: seq<seq<string>>, col: nat)
    ensures AtRobot(rows, col) <= Reaching(rows, col)
  {
    if rows != [] {
      AtRobotAtMostReaching(rows[..|rows| - 1], col);
    }
  }

  /**
   * `percent_looking_robot_include_blanks(rows, look_col)`: the percentage
   * of reaching rows that look at the robot, NaN (`None`) without any.
   */
  method PercentLookingRobot(rows: seq<seq<string>>, lookCol: nat)
    returns (pct: Option<real>, robotCnt: nat, denom: nat)
    ensures denom == Reaching(rows, lookCol) && robotCnt == AtRobot(rows, lookCol)
    ensures robotCnt <= denom
    ensures denom == 0 <==> pct.None?
    ensures pct.Some? ==> pct.value == (robotCnt as real) / (denom as real) * 100.0
    ensures pct.Some? ==> 0.0 <= pct.value <= 100.0
  {
    robotCnt, denom := 0, 0;
    for i := 0 to |rows|
      invariant denom == Reaching(rows[..i], lookCol) && robotCnt == AtRobot(rows[..i], lookCol)
    {
      assert rows[..i + 1][..i] == rows[..i];
      var r := rows[i];
      if |r| > lookCol {
        denom := denom + 1;
        if r[lookCol] == "Robot" {
          robotCnt := robotCnt + 1;
        }
      }
    }
    assert rows[..|rows|] == rows;
    AtRobotAtMostReaching(rows, lookCol);
    if denom > 0 {
      pct := Some((robotCnt as real) / (denom as real) * 100.0);
      ShareBounds(robotCnt, denom);
    } else {
      pct := None;
    }
  }

  lemma ShareBounds(k: nat, n: nat)
    requires 0 < n && k <= n
    ensures 0.0 <= (k as real) / (n as real) * 100.0 <= 100.0
  {
    assert (k as real) / (n as real) <= 1.0;
  }

  /** Leaving out the split row, the pre and post denominators add up to at most the overall one. */
  lemma PrePostDenominators(rows: seq<seq<string>>, col: nat, s: int)
    requires 0 <= s < |rows|
    ensures Reaching(rows[..s], col) + Reaching(rows[s + 1..], col) <= Reaching(rows, col)
    ensures AtRobot(rows[..s], col) + AtRobot(rows[s + 1..], col) <= AtRobot(rows, col)
  {
    SplitAround(rows, s);
    var f := (r: seq<string>) => col < |r|;
    var g := (r: seq<string>) => col < |r| && r[col] == "Robot";
    CountAppend(rows[..s] + [rows[s]], rows[s + 1..], f);
    CountAppend(rows[..s], [rows[s]], f);
    CountAppend(rows[..s] + [rows[s]], rows[s + 1..], g);
    CountAppend(rows[..s], [rows[s]], g);
  }
}
