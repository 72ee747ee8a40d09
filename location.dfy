// Robot location around the crisis (locationtimemap.py): relaxed column
// lookup, the crisis-time scan, the enter/exit Survey Room tags, and inside
// the enter..exit window the visits to the crisis sphere and the stationary
// sessions in it.  The longest session's move-again time gives the delta to
// the crisis time, which is an outlier beyond ten seconds.

module LocationTimeMap {
  import opened Wrappers
  import opened Text
  import opened Columns
  import opened Lists
  import opened Geometry
  import opened Stats

  // ---------------------------------------------------------------- columns

  /** `find_column_indices_relaxed`: the first header whose token contains the key's token. */
  function RelaxedCol(header: seq<string>, key: string): (r: int)
    ensures -1 <= r < |header|
  {
    FirstFrom(Tokens(header), Mentions(NormalizeHeaderToken(key)), 0)
  }

  /** One key of the loop. */
  method LookUp(normed: seq<string>, header: seq<string>, key: string) returns (idx: int)
    requires normed == Tokens(header)
    ensures idx == RelaxedCol(header, key)
  {
    idx := FindFirst(normed, Mentions(NormalizeHeaderToken(key)), 0);
  }

  /** Every key of the map is mapped to its relaxed column. */
  predicate RelaxedMap(header: seq<string>, out: map<string, int>) {
    forall k :: k in out ==> out[k] == RelaxedCol(header, k)
  }

  lemma RelaxedMapPut(header: seq<string>, out: map<string, int>, key: string, idx: int)
    requires RelaxedMap(header, out) && idx == RelaxedCol(header, key)
    ensures RelaxedMap(header, out[key := idx])
  {
  }

  /** Adding key i keeps the map's keys exactly the first i + 1 keys. */
  lemma KeysPut(keys: seq<string>, i: nat, out: map<string, int>, out': map<string, int>, idx: int)
    requires i < |keys| && out' == out[keys[i] := idx]
    requires forall j :: 0 <= j < i ==> keys[j] in out
    requires forall k :: k in out ==> k in keys[..i]
    ensures forall j :: 0 <= j < i + 1 ==> keys[j] in out'
    ensures forall k :: k in out' ==> k in keys[..i + 1]
  {
    assert keys[..i + 1] == keys[..i] + [keys[i]];
  }

  method FindColumnIndicesRelaxed(header: seq<string>, keys: seq<string>) returns (out: map<string, int>)
    ensures forall j :: 0 <= j < |keys| ==> keys[j] in out
    ensures forall k :: k in out ==> k in keys
    ensures RelaxedMap(header, out)
  {
    var normed := Tokens(header);
    out := map[];
    for i := 0 to |keys|
      invariant forall j :: 0 <= j < i ==> keys[j] in out
      invariant forall k :: k in out ==> k in keys[..i]
      invariant RelaxedMap(header, out)
    {
      var idx := LookUp(normed, header, keys[i]);
      RelaxedMapPut(header, out, keys[i], idx);
      KeysPut(keys, i, out, out[keys[i] := idx], idx);
      out := out[keys[i] := idx];
    }
    assert keys[..|keys|] == keys;
  }

  // ------------------------------------------------------------- text

  predicate IsWs(c: char) {
    IsSpace(c) || c == '\U{00A0}'
  }

  /** `re.sub(r"\s+", " ", s)`: every run of whitespace becomes one space. */
  function Collapse(s: string): (r: string)
    ensures |r| <= |s|
  {
    if s == [] then []
    else
      var p := Collapse(s[..|s| - 1]);
      var c := s[|s| - 1];
      if !IsWs(c) then p + [c]
      else if p != [] && p[|p| - 1] == ' ' then p
      else p + [' ']
  }

  /** The collapsed text holds no whitespace but single plain spaces. */
  lemma {:induction false} CollapseSpec(s: string)
    ensures forall k :: 0 <= k < |Collapse(s)| ==> !IsWs(Collapse(s)[k]) || Collapse(s)[k] == ' '
    ensures forall k :: 0 <= k < |Collapse(s)| - 1 ==> Collapse(s)[k] != ' ' || Collapse(s)[k + 1] != ' '
  {
    if s != [] {
      var p, c := Collapse(s[..|s| - 1]), s[|s| - 1];
      CollapseSpec(s[..|s| - 1]);
      if !IsWs(c) {
        assert c != ' ' && Collapse(s) == p + [c];
        assert forall k :: 0 <= k < |p| ==> Collapse(s)[k] == p[k];
      } else if p != [] && p[|p| - 1] == ' ' {
        assert Collapse(s) == p;
      } else {
        assert Collapse(s) == p + [' '];
        assert forall k :: 0 <= k < |p| ==> Collapse(s)[k] == p[k];
      }
    }
  }

  /** `normalize_text`: lower-case, non-breaking spaces and whitespace runs to one space, stripped. */
  function NormalizeText(s: string): string {
    Strip(Collapse(Lower(s)))
  }

  // --------------------------------------------------------- crisis time

  datatype Folder = ShookFolder | NoShookFolder

  /**
   * The header keys and tags the script looks for.  They are passed as a
   * value so that proofs treat them as unknown strings.
   */
  datatype Keys = Keys(time: string, robotEvent: string, roomEvent: string, rx: string, ry: string, rz: string,
                       shook: string, tag02: string, enterTag: string, exitTag: string)

  const SourceKeys: Keys := Keys("time", "robotevent", "roomevent", "robot.x", "robot.y", "robot.z",
                                 "shook", "0.2 seconds", "Robot entered Survey Room", "Robot exited Survey Room")

  /** The crisis tag of a folder. */
  function CrisisTag(keys: Keys, folder: Folder): string {
    match folder
    case ShookFolder => keys.shook
    case NoShookFolder => keys.tag02
  }

  /** What the noshook folder adds to the tag row's time. */
  const Offset: real := 0.229

  function FolderOffset(folder: Folder): real {
    if folder == ShookFolder then 0.0 else Offset
  }

  /** The normalized robotEvent cell of a row ("" when the row is too short). */
  function EventText(row: seq<string>, ev: nat): string {
    if ev < |row| then NormalizeText(row[ev]) else ""
  }

  /** Each data row with its normalized robotEvent cell. */
  function EventTexts(rows: seq<seq<string>>, ev: nat): (r: seq<(seq<string>, string)>)
    ensures |r| == |rows|
    ensures forall i :: 0 <= i < |rows| ==> r[i].0 == rows[i]
  {
    if rows == [] then []
    else EventTexts(rows[..|rows| - 1], ev) + [(rows[|rows| - 1], EventText(rows[|rows| - 1], ev))]
  }

  /**
   * The text paired with a row is its normalized event cell.  (Kept out of
   * `EventTexts`' contract, like `TokensAt`.)
   */
  lemma {:induction false} EventTextAt(rows: seq<seq<string>>, ev: nat, i: nat)
    requires i < |rows|
    ensures EventTexts(rows, ev)[i].1 == EventText(rows[i], ev)
  {
    if i < |rows| - 1 {
      EventTextAt(rows[..|rows| - 1], ev, i);
    }
  }

  /** The row is kept (reaches both columns, its time parses) and its normalized event cell holds the tag. */
  predicate IsCrisisRow(e: (seq<string>, string), time: nat, ev: nat, tag: string, parse: string -> Option<real>) {
    e.0 != [] && time < |e.0| && ev < |e.0| && parse(e.0[time]).Some? && Contains(e.1, tag)
  }

  function CrisisHit(time: nat, ev: nat, tag: string, parse: string -> Option<real>): ((seq<string>, string)) -> bool {
    (e: (seq<string>, string)) => IsCrisisRow(e, time, ev, tag, parse)
  }

  /** The time column of the csv.reader header, 0 when none matches. */
  function TimeColOrZero(keys: Keys, header: seq<string>): (r: nat)
    ensures r < |header| || r == 0
  {
    var tc := RelaxedCol(header, keys.time);
    if tc != -1 then tc else 0
  }

  /**
   * The scan of `detect_crisis_time_with_csv_reader`: the file's first line
   * is the header; without a robotEvent column there is no tag row.  The
   * result is the time of the first tagged data row.
   */
  function TagRowTime(keys: Keys, file: seq<seq<string>>, folder: Folder, parse: string -> Option<real>): (r: Option<real>)
    ensures file == [] || RelaxedCol(file[0], keys.robotEvent) == -1 ==> r.None?
  {
    if file == [] then None
    else
      var time := TimeColOrZero(keys, file[0]);
      var ev := RelaxedCol(file[0], keys.robotEvent);
      if ev == -1 then None
      else
        var texts := EventTexts(file[1..], ev);
        var f := FirstFrom(texts, CrisisHit(time, ev, CrisisTag(keys, folder), parse), 0);
        if f == -1 then None
        else parse(texts[f].0[time])
  }

  /** `detect_crisis_time_with_csv_reader`: the tag row's time, plus 0.229 s in the noshook folder. */
  function CrisisTime(keys: Keys, file: seq<seq<string>>, folder: Folder, parse: string -> Option<real>): (r: Option<real>)
  {
    Shift(TagRowTime(keys, file, folder, parse), FolderOffset(folder))
  }

  function Shift(t: Option<real>, d: real): (r: Option<real>)
    ensures r.Some? <==> t.Some?
    ensures r.Some? ==> r.value - t.value == d
  {
    if t.Some? then Some(t.value + d) else None
  }

  /**
   * The tag row time is the time of the first tagged data row.  The columns,
   * the tagged texts and the result are bound by the preconditions.
   */
  lemma TagRowTimeSpec(keys: Keys, file: seq<seq<string>>, folder: Folder, parse: string -> Option<real>,
                       time: nat, ev: nat, tag: string, texts: seq<(seq<string>, string)>, r: Option<real>)
    requires file != [] && ev == RelaxedCol(file[0], keys.robotEvent) && time == TimeColOrZero(keys, file[0])
    requires tag == CrisisTag(keys, folder) && texts == EventTexts(file[1..], ev)
    requires r == TagRowTime(keys, file, folder, parse)
    ensures r.Some? <==> exists k :: 0 <= k < |texts| && IsCrisisRow(texts[k], time, ev, tag, parse)
    ensures r.Some? ==> exists k :: (&& 0 <= k < |texts| && IsCrisisRow(texts[k], time, ev, tag, parse)
                                     && (forall j :: 0 <= j < k ==> !IsCrisisRow(texts[j], time, ev, tag, parse))
                                     && r == parse(file[k + 1][time]))
  {
    var hit := CrisisHit(time, ev, tag, parse);
    var f := FirstFrom(texts, hit, 0);
    if f != -1 {
      assert hit(texts[f]);
      assert texts[f].0 == file[f + 1];
    }
  }

  /** The scan loop: rows in file order, returning at the first hit. */
  method ScanTagRow(keys: Keys, file: seq<seq<string>>, folder: Folder, parse: string -> Option<real>)
    returns (r: Option<real>)
    ensures r == TagRowTime(keys, file, folder, parse)
  {
    if file == [] {
      return None;
    }
    var time := TimeColOrZero(keys, file[0]);
    var ev := RelaxedCol(file[0], keys.robotEvent);
    if ev == -1 {
      return None;
    }
    var texts := EventTexts(file[1..], ev);
    var f := FindFirst(texts, CrisisHit(time, ev, CrisisTag(keys, folder), parse), 0);
    if f == -1 {
      return None;
    }
    r := parse(texts[f].0[time]);
  }

  method DetectCrisisTime(keys: Keys, file: seq<seq<string>>, folder: Folder, parse: string -> Option<real>)
    returns (r: Option<real>)
    ensures r == CrisisTime(keys, file, folder, parse)
  {
    var t := ScanTagRow(keys, file, folder, parse);
    r := Shift(t, FolderOffset(folder));
  }

  // --------------------------------------------------------- enter / exit

  /**
   * `df.astype(str).map(normalize_text)` over the table's `width` columns;
   * a missing cell reads "nan".
   */
  function NormTable(rows: seq<seq<string>>, width: nat): (t: seq<seq<string>>)
    ensures |t| == |rows|
    ensures forall i :: 0 <= i < |rows| ==> t[i] == NormRow(rows[i], width)
  {
    seq(|rows|, i requires 0 <= i < |rows| => NormRow(rows[i], width))
  }

  /** The first n cells of a row, normalized. */
  function NormRow(row: seq<string>, n: nat): (r: seq<string>)
    ensures |r| == n
  {
    Build(n, NormCellOf(row))
  }

  function NormCellOf(row: seq<string>): nat -> string {
    (k: nat) => NormalizeText(CellText(row, k))
  }

  /**
   * Cell k of a normalized row is the normalized text of the cell ("nan"
   * for a missing one).
   */
  lemma NormRowAt(row: seq<string>, n: nat, k: nat)
    requires k < n
    ensures NormRow(row, n)[k] == NormalizeText(CellText(row, k))
  {
    BuildAt(n, NormCellOf(row), k);
  }

  /** The normalized roomEvent cell holds the needle, or, without that column, any cell does. */
  predicate TagRow(nrow: seq<string>, roomCol: int, needle: string) {
    if roomCol >= 0 then roomCol < |nrow| && Contains(nrow[roomCol], needle)
    else AnyCellHas(nrow, needle, |nrow|)
  }

  /** Some normalized cell below n holds the needle. */
  predicate AnyCellHas(nrow: seq<string>, needle: string, n: nat)
    requires n <= |nrow|
  {
    n > 0 && (AnyCellHas(nrow, needle, n - 1) || Contains(nrow[n - 1], needle))
  }

  lemma {:induction false} AnyCellHasSpec(nrow: seq<string>, needle: string, n: nat)
    requires n <= |nrow|
    ensures AnyCellHas(nrow, needle, n) <==> exists k :: 0 <= k < n && Contains(nrow[k], needle)
  {
    if n > 0 {
      AnyCellHasSpec(nrow, needle, n - 1);
    }
  }

  /** Which rows of the table carry the needle. */
  function TagHits(rows: seq<seq<string>>, width: nat, roomCol: int, needle: string): (h: seq<bool>)
    ensures |h| == |rows|
    ensures forall i :: 0 <= i < |rows| ==> h[i] == TagRow(NormTable(rows, width)[i], roomCol, needle)
  {
    var table := NormTable(rows, width);
    seq(|rows|, i requires 0 <= i < |rows| => TagRow(table[i], roomCol, needle))
  }

  /** The flagged rows below n, in ascending order. */
  function FlaggedBelow(flags: seq<bool>, n: nat): (r: seq<nat>)
    requires n <= |flags|
    ensures forall k :: 0 <= k < |r| ==> r[k] < n
    ensures forall a, b :: 0 <= a < b < |r| ==> r[a] < r[b]
    ensures forall i: nat :: i in r <==> i < n && flags[i]
  {
    if n == 0 then []
    else FlaggedBelow(flags, n - 1) + if flags[n - 1] then [n - 1] else []
  }

  /**
   * `count_and_locate_tag(df, room_event_idx, tag_text)`: the count, the
   * ascending row list and whether every cell was scanned, for the
   * normalized tag.
   */
  function CountAndLocateTag(rows: seq<seq<string>>, width: nat, roomCol: int, tag: string): (r: (nat, seq<nat>, bool)) {
    LocateNeedle(rows, width, roomCol, NormalizeText(tag))
  }

  /** The rows whose normalized cells hold `needle`, counted and in ascending order. */
  function LocateNeedle(rows: seq<seq<string>>, width: nat, roomCol: int, needle: string): (r: (nat, seq<nat>, bool))
    ensures r.0 == |r.1| && r.2 == (roomCol == -1)
    ensures forall k :: 0 <= k < |r.1| ==> r.1[k] < |rows|
    ensures forall k :: 0 <= k < |r.1| - 1 ==> r.1[k] < r.1[k + 1]
    ensures forall i: nat :: i in r.1 <==> i < |rows| && TagHits(rows, width, roomCol, needle)[i]
  {
    var idxs := FlaggedBelow(TagHits(rows, width, roomCol, needle), |rows|);
    (|idxs|, idxs, roomCol == -1)
  }

  // ------------------------------------------------------------- geometry

  /**
   * What `abs_pos` yields: `None`, an array holding NaN (a missing cell
   * reads as NaN and passes `float`), or the absolute position.
   */
  datatype Pos = NoPos | NaNPos | At(v: Vec3)

  /** A pandas cell: a missing (short row or empty) cell is NaN. */
  function Cell(row: seq<string>, col: nat): Option<string> {
    if col < |row| && row[col] != "" then Some(row[col]) else None
  }

  /** `astype(str)`: NaN reads "nan". */
  function CellText(row: seq<string>, col: nat): string {
    match Cell(row, col)
    case Some(s) => s
    case None => "nan"
  }

  /** `float(v)` of one cell: `None` when it raises, `Some(None)` for NaN. */
  function Coord(c: Option<string>, parse: string -> Option<real>): Option<Option<real>> {
    match c
    case None => Some(None)
    case Some(s) => match parse(s) case Some(v) => Some(Some(v)) case None => None
  }

  function Abs(x: real): real { if x < 0.0 then -x else x }

  /** `abs_pos`: a raising cell, or a coordinate equal to -1, gives `None`. */
  function AbsPos(x: Option<string>, y: Option<string>, z: Option<string>, parse: string -> Option<real>): (r: Pos)
    ensures r.At? <==> (&& x.Some? && y.Some? && z.Some?
                        && parse(x.value).Some? && parse(y.value).Some? && parse(z.value).Some?
                        && parse(x.value).value != -1.0 && parse(y.value).value != -1.0 && parse(z.value).value != -1.0)
    ensures r.At? ==> r.v.x >= 0.0 && r.v.y >= 0.0 && r.v.z >= 0.0
  {
    match (Coord(x, parse), Coord(y, parse), Coord(z, parse))
    case (Some(fx), Some(fy), Some(fz)) =>
      if fx == Some(-1.0) || fy == Some(-1.0) || fz == Some(-1.0) then NoPos
      else if fx.None? || fy.None? || fz.None? then NaNPos
      else At(Vec3(Abs(fx.value), Abs(fy.value), Abs(fz.value)))
    case _ => NoPos
  }

  function SqNorm(v: Vec3): real { v.x * v.x + v.y * v.y + v.z * v.z }

  /** The crisis sphere's centre. */
  const CrisisMean: Vec3 := Vec3(26.417208, 0.0, 49.383189)

  /**
   * The squared radius: (2 * norm(sqrt(var)))^2 = 4 * (0.208328 + 0 + 0.173854)
   * for the per-axis variances of the sphere.
   */
  const CrisisRadiusSq: real := 4.0 * (0.208328 + 0.0 + 0.173854)

  /** `in_crisis_sphere`, compared on squared distances; `None` and NaN are outside. */
  predicate InCrisisSphere(p: Pos) {
    p.At? && SqNorm(Sub(p.v, CrisisMean)) <= CrisisRadiusSq
  }

  /** The stillness tolerance EPS = 1e-6 m, squared. */
  const EpsSq: real := 0.000001 * 0.000001

  /** `is_still`, compared on squared distances; a NaN distance is never still. */
  predicate IsStill(prev: Pos, curr: Pos) {
    prev.At? && curr.At? && SqNorm(Sub(curr.v, prev.v)) <= EpsSq
  }

  // ------------------------------------------------------------- visits

  /** A visit: within [lo, hi], inside throughout and maximal on both ends. */
  predicate Visit(inside: seq<bool>, lo: nat, hi: nat, v: (nat, nat))
    requires hi < |inside|
  {
    lo <= v.0 <= v.1 <= hi && (forall k :: v.0 <= k <= v.1 ==> inside[k])
    && (v.0 == lo || !inside[v.0 - 1]) && (v.1 == hi || !inside[v.1 + 1])
  }

  /** Row i lies in one of the intervals. */
  predicate Covered(segs: seq<(nat, nat)>, i: nat) {
    exists k :: 0 <= k < |segs| && segs[k].0 <= i <= segs[k].1
  }

  /** The visits of [lo, hi]: maximal inside runs, in order with gaps, covering every inside row. */
  predicate VisitsOf(inside: seq<bool>, lo: nat, hi: nat, visits: seq<(nat, nat)>)
    requires hi < |inside|
  {
    && (forall k :: 0 <= k < |visits| ==> Visit(inside, lo, hi, visits[k]))
    && (forall k :: 0 <= k < |visits| - 1 ==> visits[k].1 + 1 < visits[k + 1].0)
    && (forall i :: lo <= i <= hi && inside[i] ==> Covered(visits, i))
  }

  /**
   * The visit half of the scan loop of `analyze_index`.  `inside[i]` is
   * `in_crisis_sphere(abs_pos(...))` of row i.
   */
  method Visits(inside: seq<bool>, lo: nat, hi: nat) returns (visits: seq<(nat, nat)>)
    requires lo <= hi < |inside|
    ensures VisitsOf(inside, lo, hi, visits)
  {
    visits := [];
    var insidePrev := false;
    var visitStart := -1;
    for i := lo to hi + 1
      invariant insidePrev == (i > lo && inside[i - 1])
      invariant VisitInv(inside, lo, hi, i, visitStart, visits)
    {
      visits, visitStart := VisitStep(inside, lo, hi, i, insidePrev, visitStart, visits);
      insidePrev := inside[i];
    }
    if insidePrev && visitStart != -1 {
      var v := (visitStart as nat, hi);
      CoverClosing(visits, v);
      visits := visits + [v];
    }
  }

  /** What the visit loop keeps after the rows before i. */
  predicate VisitInv(inside: seq<bool>, lo: nat, hi: nat, i: nat, visitStart: int, visits: seq<(nat, nat)>)
    requires lo <= i <= hi + 1 && hi < |inside|
  {
    && ((i > lo && inside[i - 1]) <==> visitStart != -1)
    && (visitStart != -1 ==> lo <= visitStart < i && (visitStart == lo || !inside[visitStart - 1])
                             && forall k :: visitStart <= k < i ==> inside[k])
    && (forall k :: 0 <= k < |visits| ==> Visit(inside, lo, hi, visits[k]) && visits[k].1 + 1 < i)
    && (forall k :: 0 <= k < |visits| - 1 ==> visits[k].1 + 1 < visits[k + 1].0)
    && (visitStart != -1 && visits != [] ==> visits[|visits| - 1].1 + 1 < visitStart)
    && (forall j :: lo <= j < i && inside[j] ==> (visitStart != -1 && visitStart <= j) || Covered(visits, j))
  }

  /** Closing an interval keeps every covered row covered, and covers the interval. */
  lemma CoverClosing(segs: seq<(nat, nat)>, s: (nat, nat))
    ensures forall j: nat :: (s.0 <= j <= s.1 || Covered(segs, j)) ==> Covered(segs + [s], j)
  {
    forall j: nat | s.0 <= j <= s.1 || Covered(segs, j)
      ensures Covered(segs + [s], j)
    {
      if s.0 <= j <= s.1 {
        assert (segs + [s])[|segs|] == s;
      } else {
        var k :| 0 <= k < |segs| && segs[k].0 <= j <= segs[k].1;
        assert (segs + [s])[k] == segs[k];
      }
    }
  }

  /** One pass of the visit bookkeeping for row i. */
  method VisitStep(inside: seq<bool>, lo: nat, hi: nat, i: nat, insidePrev: bool, visitStart: int,
                   visits: seq<(nat, nat)>) returns (visits': seq<(nat, nat)>, visitStart': int)
    requires lo <= i <= hi < |inside|
    requires insidePrev == (i > lo && inside[i - 1])
    requires VisitInv(inside, lo, hi, i, visitStart, visits)
    ensures VisitInv(inside, lo, hi, i + 1, visitStart', visits')
  {
    visits', visitStart' := visits, visitStart;
    if inside[i] && !insidePrev {
      visitStart' := i;
      VisitOpens(inside, lo, hi, i, visitStart, visits);
    } else if !inside[i] && insidePrev && visitStart != -1 {
      var v := (visitStart as nat, i - 1);
      VisitCloses(inside, lo, hi, i, visitStart, visits);
      visits' := visits + [v];
      visitStart' := -1;
    } else {
      VisitGoesOn(inside, lo, hi, i, visitStart, visits);
    }
  }

  /** An inside row after an outside one opens a visit. */
  lemma VisitOpens(inside: seq<bool>, lo: nat, hi: nat, i: nat, visitStart: int, visits: seq<(nat, nat)>)
    requires lo <= i <= hi < |inside| && inside[i] && !(i > lo && inside[i - 1])
    requires VisitInv(inside, lo, hi, i, visitStart, visits)
    ensures VisitInv(inside, lo, hi, i + 1, i, visits)
  {
  }

  /** An outside row after an inside one closes the open visit. */
  lemma VisitCloses(inside: seq<bool>, lo: nat, hi: nat, i: nat, visitStart: int, visits: seq<(nat, nat)>)
    requires lo <= i <= hi < |inside| && !inside[i] && i > lo && inside[i - 1] && visitStart != -1
    requires VisitInv(inside, lo, hi, i, visitStart, visits)
    ensures VisitInv(inside, lo, hi, i + 1, -1, visits + [(visitStart as nat, i - 1)])
  {
    var v := (visitStart as nat, i - 1);
    assert Visit(inside, lo, hi, v);
    CoverClosing(visits, v);
  }

  /** Any other row leaves the bookkeeping as it is. */
  lemma VisitGoesOn(inside: seq<bool>, lo: nat, hi: nat, i: nat, visitStart: int, visits: seq<(nat, nat)>)
    requires lo <= i <= hi < |inside| && (inside[i] <==> (i > lo && inside[i - 1]))
    requires VisitInv(inside, lo, hi, i, visitStart, visits)
    ensures VisitInv(inside, lo, hi, i + 1, visitStart, visits)
  {
  }

  // ------------------------------------------------------------- sessions

  /** A session lies in [lo, hi], inside throughout, every row still relative to its first. */
  predicate Session(inside: seq<bool>, pos: seq<Pos>, still: (Pos, Pos) -> bool, lo: nat, hi: nat, s: (nat, nat))
    requires hi < |inside| == |pos|
  {
    lo <= s.0 <= s.1 <= hi && (forall k :: s.0 <= k <= s.1 ==> inside[k])
    && forall k :: s.0 < k <= s.1 ==> still(pos[s.0], pos[k])
  }

  /** A session ends at hi, or where the next row is outside or has moved from the session's first. */
  predicate EndsMaximal(inside: seq<bool>, pos: seq<Pos>, still: (Pos, Pos) -> bool, hi: nat, s: (nat, nat))
    requires s.0 <= s.1 <= hi < |inside| == |pos|
  {
    s.1 == hi || !inside[s.1 + 1] || !still(pos[s.0], pos[s.1 + 1])
  }

  /** The stationary sessions of [lo, hi]: maximal, in order, covering every inside row. */
  predicate SessionsOf(inside: seq<bool>, pos: seq<Pos>, still: (Pos, Pos) -> bool, lo: nat, hi: nat, sessions: seq<(nat, nat)>)
    requires hi < |inside| == |pos|
  {
    && (forall k :: 0 <= k < |sessions| ==>
          Session(inside, pos, still, lo, hi, sessions[k]) && EndsMaximal(inside, pos, still, hi, sessions[k]))
    && (forall k :: 0 <= k < |sessions| - 1 ==> sessions[k].1 < sessions[k + 1].0)
    && (forall i :: lo <= i <= hi && inside[i] ==> Covered(sessions, i))
  }

  /**
   * The stationary-session half of the scan loop: a session starts at an
   * inside row when none is open or the row has moved from the session's
   * first position, and ends before the next start or an outside row.
   */
  method Sessions(inside: seq<bool>, pos: seq<Pos>, still: (Pos, Pos) -> bool, lo: nat, hi: nat) returns (sessions: seq<(nat, nat)>)
    requires lo <= hi < |inside| == |pos|
    requires forall i :: 0 <= i < |inside| && inside[i] ==> pos[i].At?
    ensures SessionsOf(inside, pos, still, lo, hi, sessions)
  {
    sessions := [];
    var sessStart := -1;
    var lastStill: Pos := NoPos;
    for i := lo to hi + 1
      invariant SessInv(inside, pos, still, lo, hi, i, sessStart, lastStill, sessions)
    {
      sessions, sessStart, lastStill := SessionStep(inside, pos, still, lo, hi, i, sessStart, lastStill, sessions);
    }
    SessionsDone(inside, pos, still, lo, hi, sessStart, lastStill, sessions);
    if sessStart != -1 {
      sessions := sessions + [(sessStart as nat, hi)];
    }
  }

  /** After row hi the open session, if any, closes at hi. */
  lemma SessionsDone(inside: seq<bool>, pos: seq<Pos>, still: (Pos, Pos) -> bool, lo: nat, hi: nat, sessStart: int,
                     lastStill: Pos, sessions: seq<(nat, nat)>)
    requires lo <= hi < |inside| == |pos|
    requires SessInv(inside, pos, still, lo, hi, hi + 1, sessStart, lastStill, sessions)
    ensures sessStart == -1 ==> SessionsOf(inside, pos, still, lo, hi, sessions)
    ensures sessStart != -1 ==> SessionsOf(inside, pos, still, lo, hi, sessions + [(sessStart as nat, hi)])
  {
    if sessStart != -1 {
      CoverClosing(sessions, (sessStart as nat, hi));
    }
  }

  /** What the session loop keeps after the rows before i; `NoPos` stands for `last_still_pos is None`. */
  predicate SessInv(inside: seq<bool>, pos: seq<Pos>, still: (Pos, Pos) -> bool, lo: nat, hi: nat, i: nat, sessStart: int,
                    lastStill: Pos, sessions: seq<(nat, nat)>)
    requires lo <= i <= hi + 1 && hi < |inside| == |pos|
  {
    && (lastStill == NoPos <==> sessStart == -1)
    && (sessStart != -1 ==> lo <= sessStart < i && lastStill == pos[sessStart]
                            && Session(inside, pos, still, lo, hi, (sessStart, i - 1)))
    && (sessStart == -1 && i > lo ==> !inside[i - 1])
    && (forall k :: 0 <= k < |sessions| ==>
          Session(inside, pos, still, lo, hi, sessions[k]) && EndsMaximal(inside, pos, still, hi, sessions[k]) && sessions[k].1 < i)
    && (forall k :: 0 <= k < |sessions| - 1 ==> sessions[k].1 < sessions[k + 1].0)
    && (sessStart != -1 && sessions != [] ==> sessions[|sessions| - 1].1 < sessStart)
    && (forall j :: lo <= j < i && inside[j] ==> (sessStart != -1 && sessStart <= j) || Covered(sessions, j))
  }

  /** One pass of the session bookkeeping for row i. */
  method SessionStep(inside: seq<bool>, pos: seq<Pos>, still: (Pos, Pos) -> bool, lo: nat, hi: nat, i: nat,
                     sessStart: int, lastStill: Pos, sessions: seq<(nat, nat)>)
    returns (sessions': seq<(nat, nat)>, sessStart': int, lastStill': Pos)
    requires lo <= i <= hi < |inside| == |pos|
    requires inside[i] ==> pos[i].At?
    requires SessInv(inside, pos, still, lo, hi, i, sessStart, lastStill, sessions)
    ensures SessInv(inside, pos, still, lo, hi, i + 1, sessStart', lastStill', sessions')
  {
    sessions', sessStart', lastStill' := sessions, sessStart, lastStill;
    if inside[i] {
      if lastStill == NoPos || !still(lastStill, pos[i]) {
        if sessStart != -1 {
          sessions' := CloseSession(inside, pos, still, lo, hi, i, sessStart, lastStill, sessions);
        }
        sessStart' := i;
        lastStill' := pos[i];
        StartedAt(inside, pos, still, lo, hi, i, sessions');
      } else {
        ExtendedTo(inside, pos, still, lo, hi, i, sessStart, lastStill, sessions);
      }
    } else {
      if sessStart != -1 {
        sessions' := CloseSession(inside, pos, still, lo, hi, i, sessStart, lastStill, sessions);
        sessStart' := -1;
      }
      lastStill' := NoPos;
    }
  }

  /** The closed sessions before row i: maximal, in order, covering the inside rows before i. */
  predicate ClosedBefore(inside: seq<bool>, pos: seq<Pos>, still: (Pos, Pos) -> bool, lo: nat, hi: nat, i: nat,
                         sessions: seq<(nat, nat)>)
    requires lo <= i <= hi + 1 && hi < |inside| == |pos|
  {
    && (forall k :: 0 <= k < |sessions| ==>
          Session(inside, pos, still, lo, hi, sessions[k]) && EndsMaximal(inside, pos, still, hi, sessions[k])
          && sessions[k].1 < i)
    && (forall k :: 0 <= k < |sessions| - 1 ==> sessions[k].1 < sessions[k + 1].0)
    && (forall j :: lo <= j < i && inside[j] ==> Covered(sessions, j))
  }

  /** Row i ends the open session: it is outside, or it has moved from the session's first position. */
  method CloseSession(inside: seq<bool>, pos: seq<Pos>, still: (Pos, Pos) -> bool, lo: nat, hi: nat, i: nat,
                      sessStart: int, lastStill: Pos, sessions: seq<(nat, nat)>) returns (sessions': seq<(nat, nat)>)
    requires lo <= i <= hi < |inside| == |pos| && sessStart != -1
    requires SessInv(inside, pos, still, lo, hi, i, sessStart, lastStill, sessions)
    requires !inside[i] || !still(lastStill, pos[i])
    ensures sessions' == sessions + [(sessStart as nat, i - 1)]
    ensures ClosedBefore(inside, pos, still, lo, hi, i, sessions')
  {
    var s := (sessStart as nat, i - 1);
    CoverClosing(sessions, s);
    sessions' := sessions + [s];
    assert Session(inside, pos, still, lo, hi, s) && EndsMaximal(inside, pos, still, hi, s);
    assert forall k :: 0 <= k < |sessions| ==> sessions'[k] == sessions[k];
  }

  /** A session opened at row i. */
  lemma StartedAt(inside: seq<bool>, pos: seq<Pos>, still: (Pos, Pos) -> bool, lo: nat, hi: nat, i: nat,
                  sessions: seq<(nat, nat)>)
    requires lo <= i <= hi < |inside| == |pos| && inside[i] && pos[i].At?
    requires ClosedBefore(inside, pos, still, lo, hi, i, sessions)
    ensures SessInv(inside, pos, still, lo, hi, i + 1, i, pos[i], sessions)
  {
  }

  /** Row i is still relative to the open session's first position and joins it. */
  lemma ExtendedTo(inside: seq<bool>, pos: seq<Pos>, still: (Pos, Pos) -> bool, lo: nat, hi: nat, i: nat,
                   sessStart: int, lastStill: Pos, sessions: seq<(nat, nat)>)
    requires lo <= i <= hi < |inside| == |pos| && inside[i]
    requires SessInv(inside, pos, still, lo, hi, i, sessStart, lastStill, sessions)
    requires lastStill != NoPos && still(lastStill, pos[i])
    ensures SessInv(inside, pos, still, lo, hi, i + 1, sessStart, lastStill, sessions)
  {
  }

  // ------------------------------------------------------------- delta

  /** `seg_duration`: end time minus start time, NaN unless both are finite. */
  function Duration(t: seq<Option<real>>, s: (nat, nat)): (r: Option<real>)
    requires s.0 < |t| && s.1 < |t|
    ensures r.Some? <==> t[s.0].Some? && t[s.1].Some?
    ensures r.Some? ==> t[s.0].value + r.value == t[s.1].value
  {
    if t[s.0].Some? && t[s.1].Some? then Some(t[s.1].value - t[s.0].value) else None
  }

  /** `np.nanargmax` over the first n durations: the first index of the largest defined one, -1 if none. */
  function ArgMaxBelow(d: seq<Option<real>>, n: nat): (r: int)
    requires n <= |d|
    ensures -1 <= r < n
    ensures r == -1 <==> forall k :: 0 <= k < n ==> d[k].None?
    ensures r >= 0 ==> d[r].Some? && (forall k :: 0 <= k < n && d[k].Some? ==> d[k].value <= d[r].value)
                                  && (forall k :: 0 <= k < r && d[k].Some? ==> d[k].value < d[r].value)
  {
    if n == 0 then -1
    else
      var p := ArgMaxBelow(d, n - 1);
      if d[n - 1].Some? && (p == -1 || d[n - 1].value > d[p].value) then n - 1 else p
  }

  /** Row j counts as moving again: valid position (NaN included), valid reference, finite time, not still. */
  predicate MovesAgain(pos: seq<Pos>, t: seq<Option<real>>, still: (Pos, Pos) -> bool, ref: Pos, j: nat)
    requires j < |pos| == |t|
  {
    pos[j] != NoPos && ref != NoPos && t[j].Some? && !still(ref, pos[j])
  }

  /** The move-again scan: the first row from j up to hi that moves again, or -1. */
  function MoveAgainFrom(pos: seq<Pos>, t: seq<Option<real>>, still: (Pos, Pos) -> bool, ref: Pos, j: nat, hi: nat): (r: int)
    requires hi < |pos| == |t|
    ensures r == -1 || j <= r <= hi
    ensures r >= 0 ==> MovesAgain(pos, t, still, ref, r) && forall k :: j <= k < r ==> !MovesAgain(pos, t, still, ref, k)
    ensures r == -1 ==> forall k :: j <= k <= hi ==> !MovesAgain(pos, t, still, ref, k)
    decreases hi + 1 - j
  {
    if j > hi then -1
    else if MovesAgain(pos, t, still, ref, j) then j
    else MoveAgainFrom(pos, t, still, ref, j + 1, hi)
  }

  /** The loop after the longest session: the reference is the position at its last row. */
  method FindMoveAgain(pos: seq<Pos>, t: seq<Option<real>>, still: (Pos, Pos) -> bool, endI: nat, hi: nat) returns (r: int)
    requires endI <= hi < |pos| == |t|
    ensures r == MoveAgainFrom(pos, t, still, pos[endI], endI + 1, hi)
  {
    var ref := pos[endI];
    var j := endI + 1;
    while j <= hi
      invariant endI + 1 <= j <= hi + 1
      invariant MoveAgainFrom(pos, t, still, ref, j, hi) == MoveAgainFrom(pos, t, still, ref, endI + 1, hi)
    {
      if pos[j] != NoPos && ref != NoPos && t[j].Some? && !still(ref, pos[j]) {
        return j;
      }
      j := j + 1;
    }
    return -1;
  }

  /** Deltas beyond ten seconds either way are outliers. */
  const DeltaOutlierAbs: real := 10.0

  predicate IsOutlier(delta: real) {
    Abs(delta) > DeltaOutlierAbs
  }

  /** Why `analyze_index` skips a participant before it segments. */
  datatype SkipWhy = NoCrisisTag | EmptyCsv | NoTimeColumn | NoRobotColumns | TagCount | ExitBeforeEnter | NoValidTimes

  /** The result of `analyze_index`: skipped, segmented without a delta, or a delta with its outlier flag. */
  datatype Outcome = Skipped(why: SkipWhy) | NoDelta | Measured(delta: real, outlier: bool)

  /** The longest session's durations. */
  function Durations(t: seq<Option<real>>, sessions: seq<(nat, nat)>): (d: seq<Option<real>>)
    requires forall k :: 0 <= k < |sessions| ==> sessions[k].0 < |t| && sessions[k].1 < |t|
    ensures |d| == |sessions| && forall k :: 0 <= k < |d| ==> d[k] == Duration(t, sessions[k])
  {
    seq(|sessions|, k requires 0 <= k < |sessions| => Duration(t, sessions[k]))
  }

  /**
   * The end of `analyze_index`: the longest session by duration, the first
   * move after it, and delta = crisis time - move time with its outlier
   * flag; `NoDelta` when there is no session, no defined duration or no move.
   */
  function DeltaOutcome(t: seq<Option<real>>, pos: seq<Pos>, still: (Pos, Pos) -> bool, sessions: seq<(nat, nat)>, hi: nat, crisis: real)
    : (r: Outcome)
    requires hi < |pos| == |t|
    requires forall k :: 0 <= k < |sessions| ==> sessions[k].0 <= sessions[k].1 <= hi
    ensures r.Measured? || r.NoDelta?
    ensures r.Measured? ==> (r.outlier <==> r.delta > 10.0 || r.delta < -10.0)
  {
    var durs := Durations(t, sessions);
    var b := ArgMaxBelow(durs, |durs|);
    if b == -1 then NoDelta
    else
      var m := MoveAgainFrom(pos, t, still, pos[sessions[b].1], sessions[b].1 + 1, hi);
      if m == -1 then NoDelta
      else
        var delta := crisis - t[m].value;
        Measured(delta, IsOutlier(delta))
  }

  /** Session b has the largest defined duration, and every session before it a smaller one or none. */
  predicate FirstLongest(t: seq<Option<real>>, sessions: seq<(nat, nat)>, b: int)
    requires forall k :: 0 <= k < |sessions| ==> sessions[k].0 < |t| && sessions[k].1 < |t|
  {
    && 0 <= b < |sessions| && Duration(t, sessions[b]).Some?
    && (forall k :: 0 <= k < |sessions| && Duration(t, sessions[k]).Some? ==>
          Duration(t, sessions[k]).value <= Duration(t, sessions[b]).value)
    && (forall k :: 0 <= k < b && Duration(t, sessions[k]).Some? ==>
          Duration(t, sessions[k]).value < Duration(t, sessions[b]).value)
  }

  /** Row m is the first row of [from, hi] that moves again from ref. */
  predicate FirstMove(pos: seq<Pos>, t: seq<Option<real>>, still: (Pos, Pos) -> bool, ref: Pos, from: nat, m: int, hi: nat)
    requires hi < |pos| == |t|
  {
    from <= m <= hi && MovesAgain(pos, t, still, ref, m) && forall k :: from <= k < m ==> !MovesAgain(pos, t, still, ref, k)
  }

  /** No row of [from, hi] moves again from ref. */
  predicate NoMove(pos: seq<Pos>, t: seq<Option<real>>, still: (Pos, Pos) -> bool, ref: Pos, from: nat, hi: nat)
    requires hi < |pos| == |t|
  {
    forall k :: from <= k <= hi ==> !MovesAgain(pos, t, still, ref, k)
  }

  /** There is one first longest session. */
  lemma FirstLongestUnique(t: seq<Option<real>>, sessions: seq<(nat, nat)>, b: int, c: int)
    requires forall k :: 0 <= k < |sessions| ==> sessions[k].0 < |t| && sessions[k].1 < |t|
    requires FirstLongest(t, sessions, b) && FirstLongest(t, sessions, c)
    ensures b == c
  {
  }

  /**
   * A delta is crisis time minus the time of the first move after the first
   * longest session; there is none exactly when no session has a defined
   * duration or nothing moves after the first longest one.
   */
  lemma DeltaOutcomeSpec(t: seq<Option<real>>, pos: seq<Pos>, still: (Pos, Pos) -> bool, sessions: seq<(nat, nat)>, hi: nat,
                         crisis: real, r: Outcome)
    requires hi < |pos| == |t|
    requires forall k :: 0 <= k < |sessions| ==> sessions[k].0 <= sessions[k].1 <= hi
    requires r == DeltaOutcome(t, pos, still, sessions, hi, crisis)
    ensures r.Measured? ==>
              exists b, m :: && FirstLongest(t, sessions, b)
                             && FirstMove(pos, t, still, pos[sessions[b].1], sessions[b].1 + 1, m, hi)
                             && r.delta == crisis - t[m].value
    ensures r.NoDelta? <==>
              || (forall k :: 0 <= k < |sessions| ==> Duration(t, sessions[k]).None?)
              || (exists b :: FirstLongest(t, sessions, b) && NoMove(pos, t, still, pos[sessions[b].1], sessions[b].1 + 1, hi))
  {
    var durs := Durations(t, sessions);
    var b := ArgMaxBelow(durs, |durs|);
    if b == -1 {
      forall k | 0 <= k < |sessions|
        ensures Duration(t, sessions[k]).None?
      {
        assert durs[k] == Duration(t, sessions[k]);
      }
    } else {
      assert FirstLongest(t, sessions, b);
      var ref := pos[sessions[b].1];
      var m := MoveAgainFrom(pos, t, still, ref, sessions[b].1 + 1, hi);
      if m == -1 {
        assert NoMove(pos, t, still, ref, sessions[b].1 + 1, hi);
      } else {
        assert FirstMove(pos, t, still, ref, sessions[b].1 + 1, m, hi);
        forall c | FirstLongest(t, sessions, c)
          ensures !NoMove(pos, t, still, pos[sessions[c].1], sessions[c].1 + 1, hi)
        {
          FirstLongestUnique(t, sessions, b, c);
        }
      }
    }
  }

  // ------------------------------------------------------------- analysis

  /** The window a participant is analysed over, with the time and position columns. */
  datatype Window = Window(crisis: real, lo: nat, hi: nat, t: seq<Option<real>>, pos: seq<Pos>)

  datatype Prepared = Skip(why: SkipWhy) | Ready(w: Window)

  /** `coerce_float` of the time column: `None` for NaN. */
  function TimesOf(rows: seq<seq<string>>, col: nat, parse: string -> Option<real>): (t: seq<Option<real>>)
    ensures |t| == |rows|
  {
    seq(|rows|, i requires 0 <= i < |rows| => match Cell(rows[i], col) case Some(s) => parse(s) case None => None)
  }

  function PositionsOf(rows: seq<seq<string>>, cx: nat, cy: nat, cz: nat, parse: string -> Option<real>): (p: seq<Pos>)
    ensures |p| == |rows|
  {
    seq(|rows|, i requires 0 <= i < |rows| => AbsPos(Cell(rows[i], cx), Cell(rows[i], cy), Cell(rows[i], cz), parse))
  }

  function InsideOf(pos: seq<Pos>): (inside: seq<bool>)
    ensures |inside| == |pos| && forall i :: 0 <= i < |pos| ==> inside[i] == InCrisisSphere(pos[i])
  {
    seq(|pos|, i requires 0 <= i < |pos| => InCrisisSphere(pos[i]))
  }

  /** Only a real position can be inside the sphere. */
  lemma InsideIsAt(pos: seq<Pos>)
    ensures forall i :: 0 <= i < |pos| && InsideOf(pos)[i] ==> pos[i].At?
  {
  }

  /** Some time of the column is finite. */
  predicate AnyTime(t: seq<Option<real>>) {
    exists i :: 0 <= i < |t| && t[i].Some?
  }

  datatype Gate = Closed(why: SkipWhy) | Open(lo: nat, hi: nat)

  /**
   * The enter/exit gate over the two `count_and_locate_tag` results: both
   * tags exactly once, the exit row not before the enter row.
   */
  function TagGate(enter: (nat, seq<nat>, bool), exit: (nat, seq<nat>, bool)): (r: Gate)
    requires enter.0 == |enter.1| && exit.0 == |exit.1|
    ensures r == Closed(TagCount) <==> enter.0 != 1 || exit.0 != 1
    ensures r == Closed(ExitBeforeEnter) <==> enter.0 == 1 && exit.0 == 1 && exit.1[0] < enter.1[0]
    ensures r.Open? <==> enter.0 == 1 && exit.0 == 1 && enter.1[0] <= exit.1[0]
    ensures r.Open? ==> enter.1 == [r.lo] && exit.1 == [r.hi]
    ensures r.Closed? ==> r.why == TagCount || r.why == ExitBeforeEnter
  {
    if enter.0 != 1 || exit.0 != 1 then Closed(TagCount)
    else if exit.1[0] < enter.1[0] then Closed(ExitBeforeEnter)
    else
      assert enter.1 == [enter.1[0]] && exit.1 == [exit.1[0]];
      Open(enter.1[0], exit.1[0])
  }

  /** The columns `analyze_index` looks up in the header, relaxed. */
  datatype Layout = Layout(time: int, rx: int, ry: int, rz: int, room: int)

  function LayoutOf(keys: Keys, header: seq<string>): Layout {
    Layout(RelaxedCol(header, keys.time), RelaxedCol(header, keys.rx), RelaxedCol(header, keys.ry),
           RelaxedCol(header, keys.rz), RelaxedCol(header, keys.roomEvent))
  }

  /**
   * The guards of `analyze_index` over the crisis time and the leniently
   * loaded table of `width` columns laid out as `lay`, in the source's order.
   */
  function Prepare(keys: Keys, crisis: Option<real>, width: nat, lay: Layout, rows: seq<seq<string>>,
                   parse: string -> Option<real>): (r: Prepared)
    ensures r == Skip(NoCrisisTag) <==> crisis.None?
    ensures r == Skip(EmptyCsv) <==> crisis.Some? && rows == []
    ensures r == Skip(NoTimeColumn) <==> crisis.Some? && rows != [] && lay.time < 0
    ensures r == Skip(NoRobotColumns) <==> crisis.Some? && rows != [] && lay.time >= 0
                                           && (lay.rx < 0 || lay.ry < 0 || lay.rz < 0)
    ensures r.Ready? ==> && crisis == Some(r.w.crisis) && lay.time >= 0
                         && r.w.t == TimesOf(rows, lay.time, parse) && AnyTime(r.w.t)
                         && |r.w.pos| == |rows|
                         && TagGate(CountAndLocateTag(rows, width, lay.room, keys.enterTag),
                                    CountAndLocateTag(rows, width, lay.room, keys.exitTag)) == Open(r.w.lo, r.w.hi)
    ensures r.Ready? ==> r.w.lo <= r.w.hi < |rows|
  {
    if crisis.None? then Skip(NoCrisisTag)
    else if rows == [] then Skip(EmptyCsv)
    else if lay.time < 0 then Skip(NoTimeColumn)
    else if lay.rx < 0 || lay.ry < 0 || lay.rz < 0 then Skip(NoRobotColumns)
    else
      var enter := CountAndLocateTag(rows, width, lay.room, keys.enterTag);
      var exit := CountAndLocateTag(rows, width, lay.room, keys.exitTag);
      var gate := TagGate(enter, exit);
      assert gate.Open? ==> gate.lo in enter.1 && gate.hi in exit.1;
      Gated(crisis.value, rows, lay.time, lay.rx, lay.ry, lay.rz, gate, parse)
  }

  /** The last guard of `analyze_index`, once the gate is known: some finite time. */
  function Gated(crisis: real, rows: seq<seq<string>>, tc: nat, cx: nat, cy: nat, cz: nat, gate: Gate,
                 parse: string -> Option<real>): (r: Prepared)
    ensures gate.Closed? ==> r == Skip(gate.why)
    ensures gate.Open? ==> (r.Skip? <==> !AnyTime(TimesOf(rows, tc, parse)))
    ensures gate.Open? && r.Skip? ==> r.why == NoValidTimes
    ensures r.Ready? ==> && r.w.crisis == crisis && r.w.lo == gate.lo && r.w.hi == gate.hi
                         && r.w.t == TimesOf(rows, tc, parse) && AnyTime(r.w.t) && |r.w.pos| == |rows|
  {
    match gate
    case Closed(why) => Skip(why)
    case Open(lo, hi) =>
      var t := TimesOf(rows, tc, parse);
      if !AnyTime(t) then Skip(NoValidTimes)
      else Ready(Window(crisis, lo, hi, t, PositionsOf(rows, cx, cy, cz, parse)))
  }

  /**
   * `analyze_index` after the crisis time is known: the guards, then the
   * scan of [i_enter, i_exit] for visits and sessions, then the delta.
   */
  method AnalyzeIndex(keys: Keys, crisis: Option<real>, header: seq<string>, rows: seq<seq<string>>, parse: string -> Option<real>)
    returns (r: Outcome, visits: seq<(nat, nat)>, sessions: seq<(nat, nat)>)
    ensures Prepare(keys, crisis, |header|, LayoutOf(keys, header), rows, parse).Skip? ==>
              r == Skipped(Prepare(keys, crisis, |header|, LayoutOf(keys, header), rows, parse).why) && visits == [] && sessions == []
    ensures Prepare(keys, crisis, |header|, LayoutOf(keys, header), rows, parse).Ready? ==>
              var w := Prepare(keys, crisis, |header|, LayoutOf(keys, header), rows, parse).w;
              && VisitsOf(InsideOf(w.pos), w.lo, w.hi, visits)
              && SessionsOf(InsideOf(w.pos), w.pos, IsStill, w.lo, w.hi, sessions)
              && r == DeltaOutcome(w.t, w.pos, IsStill, sessions, w.hi, w.crisis)
  {
    var needed := [keys.time, keys.roomEvent, keys.rx, keys.ry, keys.rz];
    var colmap := FindColumnIndicesRelaxed(header, needed);
    assert needed[0] in colmap && needed[1] in colmap && needed[2] in colmap && needed[3] in colmap && needed[4] in colmap;
    var lay := Layout(colmap[keys.time], colmap[keys.rx], colmap[keys.ry], colmap[keys.rz], colmap[keys.roomEvent]);
    var prep := Prepare(keys, crisis, |header|, lay, rows, parse);
    visits, sessions := [], [];
    if prep.Skip? {
      return Skipped(prep.why), visits, sessions;
    }
    var w := prep.w;
    var inside := InsideOf(w.pos);
    visits := Visits(inside, w.lo, w.hi);
    InsideIsAt(w.pos);
    sessions := Sessions(inside, w.pos, IsStill, w.lo, w.hi);
    r := MeasureDelta(w.t, w.pos, IsStill, sessions, w.hi, w.crisis);
  }

  /** The longest session, its move-again row and the delta. */
  method MeasureDelta(t: seq<Option<real>>, pos: seq<Pos>, still: (Pos, Pos) -> bool, sessions: seq<(nat, nat)>, hi: nat, crisis: real)
    returns (r: Outcome)
    requires hi < |pos| == |t|
    requires forall k :: 0 <= k < |sessions| ==> sessions[k].0 <= sessions[k].1 <= hi
    ensures r == DeltaOutcome(t, pos, still, sessions, hi, crisis)
  {
    var durs := Durations(t, sessions);
    var b := ArgMaxBelow(durs, |durs|);
    if b == -1 {
      return NoDelta;
    }
    var m := FindMoveAgain(pos, t, still, sessions[b].1, hi);
    if m == -1 {
      return NoDelta;
    }
    var delta := crisis - t[m].value;
    r := Measured(delta, Abs(delta) > DeltaOutlierAbs);
  }

  // ------------------------------------------------------------- main

  /** A kept delta of the folder: measured and not an outlier. */
  function KeptOf(folder: Folder): ((string, Folder, Outcome)) -> Option<real> {
    (e: (string, Folder, Outcome)) =>
      if e.1 == folder && e.2.Measured? && !e.2.outlier then Some(e.2.delta) else None
  }

  /** An outlier of the folder, with its index. */
  function OutlierOf(folder: Folder): ((string, Folder, Outcome)) -> Option<(string, real)> {
    (e: (string, Folder, Outcome)) =>
      if e.1 == folder && e.2.Measured? && e.2.outlier then Some((e.0, e.2.delta)) else None
  }

  /** `main`'s grouping of the per-index outcomes by folder into kept deltas and outliers. */
  method GroupDeltas(results: seq<(string, Folder, Outcome)>)
    returns (shookKept: seq<real>, noshookKept: seq<real>, shookOut: seq<(string, real)>, noshookOut: seq<(string, real)>)
    ensures shookKept == FilterMap(results, KeptOf(ShookFolder))
    ensures noshookKept == FilterMap(results, KeptOf(NoShookFolder))
    ensures shookOut == FilterMap(results, OutlierOf(ShookFolder))
    ensures noshookOut == FilterMap(results, OutlierOf(NoShookFolder))
  {
    shookKept, noshookKept, shookOut, noshookOut := [], [], [], [];
    for i := 0 to |results|
      invariant shookKept == FilterMap(results[..i], KeptOf(ShookFolder))
      invariant noshookKept == FilterMap(results[..i], KeptOf(NoShookFolder))
      invariant shookOut == FilterMap(results[..i], OutlierOf(ShookFolder))
      invariant noshookOut == FilterMap(results[..i], OutlierOf(NoShookFolder))
    {
      assert results[..i + 1][..i] == results[..i];
      var (idx, folder, res) := results[i];
      if res.Measured? {
        if folder == ShookFolder {
          if res.outlier {
            shookOut := shookOut + [(idx, res.delta)];
          } else {
            shookKept := shookKept + [res.delta];
          }
        } else {
          if res.outlier {
            noshookOut := noshookOut + [(idx, res.delta)];
          } else {
            noshookKept := noshookKept + [res.delta];
          }
        }
      }
    }
    assert results[..|results|] == results;
  }

  /** With flags as `analyze_index` sets them, kept deltas lie within ten seconds. */
  lemma {:induction false} KeptWithinThreshold(results: seq<(string, Folder, Outcome)>, folder: Folder)
    requires forall k :: 0 <= k < |results| && results[k].2.Measured? ==>
               results[k].2.outlier == IsOutlier(results[k].2.delta)
    ensures forall k :: 0 <= k < |FilterMap(results, KeptOf(folder))| ==>
              -10.0 <= FilterMap(results, KeptOf(folder))[k] <= 10.0
    ensures forall k :: 0 <= k < |FilterMap(results, OutlierOf(folder))| ==>
              IsOutlier(FilterMap(results, OutlierOf(folder))[k].1)
  {
    forall k | 0 <= k < |FilterMap(results, KeptOf(folder))|
      ensures -10.0 <= FilterMap(results, KeptOf(folder))[k] <= 10.0
    {
      FilterMapFrom(results, KeptOf(folder), k);
    }
    forall k | 0 <= k < |FilterMap(results, OutlierOf(folder))|
      ensures IsOutlier(FilterMap(results, OutlierOf(folder))[k].1)
    {
      FilterMapFrom(results, OutlierOf(folder), k);
    }
  }

  /** `summarize`: the mean when something was kept, the sample variance from two values. */
  function Summarize(kept: seq<real>): (r: (Option<real>, Option<real>))
    ensures r.0.Some? <==> |kept| > 0
    ensures r.1.Some? <==> |kept| > 1
    ensures r.0.Some? ==> r.0.value == Mean(kept)
    ensures r.1.Some? ==> r.1.value == Variance(kept)
  {
    if kept == [] then (None, None)
    else (Some(Mean(kept)), if |kept| > 1 then Some(Variance(kept)) else None)
  }

  /** With flags as `analyze_index` sets them, a kept mean also lies within ten seconds. */
  lemma KeptMeanWithin(results: seq<(string, Folder, Outcome)>, folder: Folder)
    requires forall k :: 0 <= k < |results| && results[k].2.Measured? ==>
               results[k].2.outlier == IsOutlier(results[k].2.delta)
    requires FilterMap(results, KeptOf(folder)) != []
    ensures -10.0 <= Summarize(FilterMap(results, KeptOf(folder))).0.value <= 10.0
  {
    KeptWithinThreshold(results, folder);
    MeanWithin(FilterMap(results, KeptOf(folder)), -10.0, 10.0);
  }
}
