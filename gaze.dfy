// Gaze spread (sdgaze.py) and player-robot distance (playerrobotdistance.py):
// per-row values collected in a loop, summarised overall and on each side
// of the crisis split row.

module GazeSpread {
  import opened Wrappers
  import opened Text
  import opened Columns
  import opened Lists
  import opened Stats
  import Crisis

  /** Seconds added after the "0.2 seconds" tag for the crisis estimate. */
  const Offset: real := 0.229

  /** Row reaches the three gaze columns and none of the three cells is empty. */
  predicate Usable(row: seq<string>, x: nat, y: nat, z: nat) {
    x < |row| && y < |row| && z < |row| && row[x] != "" && row[y] != "" && row[z] != ""
  }

  // The three appends run one after another inside one `try`: a y that does
  // not parse leaves the x already appended, a bad z leaves x and y.

  function XOf(x: nat, y: nat, z: nat, parse: string -> Option<real>): seq<string> -> Option<real> {
    (r: seq<string>) => if Usable(r, x, y, z) then parse(r[x]) else None
  }

  function YOf(x: nat, y: nat, z: nat, parse: string -> Option<real>): seq<string> -> Option<real> {
    (r: seq<string>) => if Usable(r, x, y, z) && parse(r[x]).Some? then parse(r[y]) else None
  }

  function ZOf(x: nat, y: nat, z: nat, parse: string -> Option<real>): seq<string> -> Option<real> {
    (r: seq<string>) =>
      if Usable(r, x, y, z) && parse(r[x]).Some? && parse(r[y]).Some? then parse(r[z]) else None
  }

  datatype Spread = Spread(varX: real, varY: real, varZ: real)

  /** NaN unless every axis has at least two values, else the three sample variances. */
  function SpreadOf(gx: seq<real>, gy: seq<real>, gz: seq<real>): (r: Option<Spread>)
    ensures r.Some? <==> |gx| >= 2 && |gy| >= 2 && |gz| >= 2
    ensures r.Some? ==> r.value.varX >= 0.0 && r.value.varY >= 0.0 && r.value.varZ >= 0.0
  {
    if |gx| < 2 || |gy| < 2 || |gz| < 2 then None
    else Some(Spread(Variance(gx), Variance(gy), Variance(gz)))
  }

  /** `len(gx) >= len(gy) >= len(gz)` always holds. */
  lemma AxesOrdered(rows: seq<seq<string>>, x: nat, y: nat, z: nat, parse: string -> Option<real>)
    ensures |FilterMap(rows, XOf(x, y, z, parse))| >= |FilterMap(rows, YOf(x, y, z, parse))|
                                                       >= |FilterMap(rows, ZOf(x, y, z, parse))|
  {
    FilterMapFewer(rows, XOf(x, y, z, parse), YOf(x, y, z, parse));
    FilterMapFewer(rows, YOf(x, y, z, parse), ZOf(x, y, z, parse));
  }

  /** `segment_sd_gaze(rows, x_col, y_col, z_col)`, with variances in place of SDs. */
  method SegmentSdGaze(rows: seq<seq<string>>, x: nat, y: nat, z: nat, parse: string -> Option<real>)
    returns (r: Option<Spread>)
    ensures r == SpreadOf(FilterMap(rows, XOf(x, y, z, parse)), FilterMap(rows, YOf(x, y, z, parse)),
                          FilterMap(rows, ZOf(x, y, z, parse)))
  {
    var gx, gy, gz := [], [], [];
    for i := 0 to |rows|
      invariant gx == FilterMap(rows[..i], XOf(x, y, z, parse))
      invariant gy == FilterMap(rows[..i], YOf(x, y, z, parse))
      invariant gz == FilterMap(rows[..i], ZOf(x, y, z, parse))
    {
      assert rows[..i + 1][..i] == rows[..i];
      var row := rows[i];
      if Usable(row, x, y, z) {
        var px := parse(row[x]);
        if px.Some? {
          gx := gx + [px.value];
          var py := parse(row[y]);
          if py.Some? {
            gy := gy + [py.value];
            var pz := parse(row[z]);
            if pz.Some? {
              gz := gz + [pz.value];
            }
          }
        }
      }
    }
    assert rows[..|rows|] == rows;
    r := SpreadOf(gx, gy, gz);
  }

  /** The spread of one stretch of rows, NaN as `None`. */
  function GazeOf(rows: seq<seq<string>>, x: nat, y: nat, z: nat, parse: string -> Option<real>): Option<Spread> {
    SpreadOf(FilterMap(rows, XOf(x, y, z, parse)), FilterMap(rows, YOf(x, y, z, parse)),
             FilterMap(rows, ZOf(x, y, z, parse)))
  }

  /** The three spreadsheet cells of one participant: overall, pre and post. */
  datatype GazeCells = GazeCells(overall: Option<Spread>, pre: Option<Spread>, post: Option<Spread>)

  const AllNaN: GazeCells := GazeCells(None, None, None)

  /**
   * The per-file body of `main` once the header and the rows are read: the
   * gaze columns by trimmed case-insensitive name, then `WithColumns`.
   */
  function GazeFile(header: seq<string>, rows: seq<seq<string>>, parse: string -> Option<real>): (r: GazeCells)
    ensures var h := StripEach(header);
      (ColCaseIns(h, "Gaze Visualizer.x") == -1 || ColCaseIns(h, "Gaze Visualizer.y") == -1
       || ColCaseIns(h, "Gaze Visualizer.z") == -1) ==> r == AllNaN
    ensures ColCaseIns(StripEach(header), "Time") == -1 ==> r.pre.None? && r.post.None?
    ensures Crisis.SplitByHeader(StripEach(header), rows, Offset, parse) == -1 ==> r.pre.None? && r.post.None?
  {
    var h := StripEach(header);
    var x, y, z := ColCaseIns(h, "Gaze Visualizer.x"), ColCaseIns(h, "Gaze Visualizer.y"), ColCaseIns(h, "Gaze Visualizer.z");
    if x < 0 || y < 0 || z < 0 then AllNaN else WithColumns(h, rows, x, y, z, parse)
  }

  /**
   * The overall spread, then the pre and post spreads around the crisis
   * split row, which belongs to neither; the sides are NaN when there is no
   * split or no Time column.
   */
  function WithColumns(h: seq<string>, rows: seq<seq<string>>, x: nat, y: nat, z: nat,
                       parse: string -> Option<real>): GazeCells
  {
    Sides(rows, x, y, z, Crisis.SplitByHeader(h, rows, Offset, parse), ColCaseIns(h, "Time") != -1, parse)
  }

  function Sides(rows: seq<seq<string>>, x: nat, y: nat, z: nat, s: int, hasTime: bool,
                 parse: string -> Option<real>): GazeCells
    requires -1 <= s < |rows|
  {
    if s == -1 || !hasTime then GazeCells(GazeOf(rows, x, y, z, parse), None, None)
    else GazeCells(GazeOf(rows, x, y, z, parse), GazeOf(rows[..s], x, y, z, parse), GazeOf(rows[s + 1..], x, y, z, parse))
  }

  /**
   * Only sdgaze.py also asks for a Time column: a "shook" row gives a split
   * without one, yet the pre and post cells stay NaN.
   */
  lemma ShookWithoutTime(header: seq<string>, rows: seq<seq<string>>, parse: string -> Option<real>, k: nat)
    requires ColCaseIns(StripEach(header), "Time") == -1 && Crisis.EventColCaseIns(StripEach(header)) >= 0
    requires k < |rows| && Crisis.ShookRow(rows[k], Crisis.EventColCaseIns(StripEach(header)))
    ensures Crisis.SplitByHeader(StripEach(header), rows, Offset, parse) >= 0
    ensures GazeFile(header, rows, parse).pre.None? && GazeFile(header, rows, parse).post.None?
  {
    var h := StripEach(header);
    var ev := Crisis.EventColCaseIns(h);
    var r := Crisis.SplitIndex(rows, ev, ColCaseIns(h, "Time"), Offset, parse);
    assert Crisis.AnyShook(rows, ev);
    Crisis.SplitShook(rows, ev, ColCaseIns(h, "Time"), Offset, parse, r);
  }

  /**
   * With a split row and every column present, the pre spread is that of
   * `rows[:split]`, the post spread that of `rows[split+1:]`, and each axis'
   * overall values are the pre ones, the split row's own, then the post ones.
   */
  lemma SidesAroundSplit(header: seq<string>, rows: seq<seq<string>>, parse: string -> Option<real>,
                         x: nat, y: nat, z: nat, s: nat)
    requires x == ColCaseIns(StripEach(header), "Gaze Visualizer.x")
    requires y == ColCaseIns(StripEach(header), "Gaze Visualizer.y")
    requires z == ColCaseIns(StripEach(header), "Gaze Visualizer.z")
    requires ColCaseIns(StripEach(header), "Time") >= 0
    requires s == Crisis.SplitByHeader(StripEach(header), rows, Offset, parse)
    ensures s < |rows|
    ensures GazeFile(header, rows, parse) ==
            GazeCells(GazeOf(rows, x, y, z, parse), GazeOf(rows[..s], x, y, z, parse), GazeOf(rows[s + 1..], x, y, z, parse))
    ensures var f := XOf(x, y, z, parse);
      FilterMap(rows, f) == FilterMap(rows[..s], f) + FilterMap([rows[s]], f) + FilterMap(rows[s + 1..], f)
    ensures var f := YOf(x, y, z, parse);
      FilterMap(rows, f) == FilterMap(rows[..s], f) + FilterMap([rows[s]], f) + FilterMap(rows[s + 1..], f)
    ensures var f := ZOf(x, y, z, parse);
      FilterMap(rows, f) == FilterMap(rows[..s], f) + FilterMap([rows[s]], f) + FilterMap(rows[s + 1..], f)
  {
    FilterMapAround(rows, s, XOf(x, y, z, parse));
    FilterMapAround(rows, s, YOf(x, y, z, parse));
    FilterMapAround(rows, s, ZOf(x, y, z, parse));
  }

  /** `main`'s per-file steps after the CSV is read, with the spreads computed by `SegmentSdGaze`. */
  method ProcessGazeFile(header: seq<string>, rows: seq<seq<string>>, parse: string -> Option<real>)
    returns (r: GazeCells)
    ensures r == GazeFile(header, rows, parse)
  {
    var h := StripEach(header);
    var x := FindColCaseIns(h, "Gaze Visualizer.x");
    var y := FindColCaseIns(h, "Gaze Visualizer.y");
    var z := FindColCaseIns(h, "Gaze Visualizer.z");
    if x < 0 || y < 0 || z < 0 {
      return AllNaN;
    }
    r := ProcessWithColumns(h, rows, x, y, z, parse);
  }

  method ProcessWithColumns(h: seq<string>, rows: seq<seq<string>>, x: nat, y: nat, z: nat,
                            parse: string -> Option<real>) returns (r: GazeCells)
    ensures r == WithColumns(h, rows, x, y, z, parse)
  {
    var timeCol := FindColCaseIns(h, "Time");
    var s := Crisis.FindCrisisSplitIndex(h, rows, Offset, parse);
    r := ProcessSides(rows, x, y, z, s, timeCol != -1, parse);
  }

  method ProcessSides(rows: seq<seq<string>>, x: nat, y: nat, z: nat, s: int, hasTime: bool,
                      parse: string -> Option<real>) returns (r: GazeCells)
    requires -1 <= s < |rows|
    ensures r == Sides(rows, x, y, z, s, hasTime, parse)
  {
    var overall := SegmentSdGaze(rows, x, y, z, parse);
    if s == -1 || !hasTime {
      return GazeCells(overall, None, None);
    }
    var pre := SegmentSdGaze(rows[..s], x, y, z, parse);
    var post := SegmentSdGaze(rows[s + 1..], x, y, z, parse);
    r := GazeCells(overall, pre, post);
  }
}

module PlayerRobotDistance {
  import opened Wrappers
  import opened Lists
  import opened Stats
  import opened Geometry

  /** Column indices of PlayerVR.x/y/z and Robot.x/y/z. */
  datatype Cols = Cols(px: nat, py: nat, pz: nat, rx: nat, ry: nat, rz: nat)

  predicate ReachesAll(row: seq<string>, c: Cols) {
    c.px < |row| && c.py < |row| && c.pz < |row| && c.rx < |row| && c.ry < |row| && c.rz < |row|
  }

  /** Player and robot position of a row whose six coordinates all parse. */
  function Positions(row: seq<string>, c: Cols, parse: string -> Option<real>): Option<(Vec3, Vec3)> {
    if !ReachesAll(row, c) then None
    else if parse(row[c.px]).Some? && parse(row[c.py]).Some? && parse(row[c.pz]).Some?
         && parse(row[c.rx]).Some? && parse(row[c.ry]).Some? && parse(row[c.rz]).Some? then
      Some((Vec3(parse(row[c.px]).value, parse(row[c.py]).value, parse(row[c.pz]).value),
            Vec3(parse(row[c.rx]).value, parse(row[c.ry]).value, parse(row[c.rz]).value)))
    else None
  }

  /** A row's distance `norm(p - q)`, the norm being left abstract. */
  function DistanceOf(c: Cols, parse: string -> Option<real>, norm: Vec3 -> real): seq<string> -> Option<real> {
    (r: seq<string>) =>
      match Positions(r, c, parse)
      case None => None
      case Some(pq) => Some(norm(Sub(pq.0, pq.1)))
  }

  /** `compute_distances(rows, ...)`: one distance per row whose six coordinates parse. */
  method ComputeDistances(rows: seq<seq<string>>, c: Cols, parse: string -> Option<real>, norm: Vec3 -> real)
    returns (dists: seq<real>)
    ensures dists == FilterMap(rows, DistanceOf(c, parse, norm))
    ensures |dists| <= |rows|
  {
    dists := [];
    for i := 0 to |rows|
      invariant dists == FilterMap(rows[..i], DistanceOf(c, parse, norm))
    {
      assert rows[..i + 1][..i] == rows[..i];
      var pq := Positions(rows[i], c, parse);
      if pq.Some? {
        dists := dists + [norm(Sub(pq.value.0, pq.value.1))];
      }
    }
    assert rows[..|rows|] == rows;
  }

  /**
   * Pre = rows[:split] and post = rows[split+1:]: the overall distances are
   * the pre distances, the split row's own, then the post distances.
   */
  lemma PrePostDistances(rows: seq<seq<string>>, s: int, c: Cols, parse: string -> Option<real>,
                         norm: Vec3 -> real)
    requires 0 <= s < |rows|
    ensures var f := DistanceOf(c, parse, norm);
      FilterMap(rows, f) == FilterMap(rows[..s], f) + FilterMap([rows[s]], f) + FilterMap(rows[s + 1..], f)
    ensures |rows[..s]| + |rows[s + 1..]| == |rows| - 1
  {
    SplitAround(rows, s);
    FilterMapAround(rows, s, DistanceOf(c, parse, norm));
  }
}
