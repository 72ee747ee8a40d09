// How the scripts turn a participant-index cell of the data workbook into the
// five-character prefix that names the participant's CSV file, and the
// "condition is 4" test of the highlighting script.  A spreadsheet cell is
// an integer, a float, a text or empty; Python's `str` of a float is left
// abstract as `floatStr`.

module Index {
  import opened Text
  import opened Lists

  datatype Cell = IntCell(i: int) | FloatCell(x: real) | StrCell(s: string) | NoneCell

  predicate IsIntegral(x: real) {
    x.Floor as real == x
  }

  /** Python's `str(v)`. */
  function CellText(v: Cell, floatStr: real -> string): string {
    match v
    case IntCell(i) => IntToString(i)
    case FloatCell(x) => floatStr(x)
    case StrCell(s) => s
    case NoneCell => "None"
  }

  /** The text `idx5_direct` pads: `str(int(v))` for an integral float, `str(v)` otherwise. */
  function DirectText(v: Cell, floatStr: real -> string): string {
    if v.FloatCell? && IsIntegral(v.x) then IntToString(v.x.Floor) else CellText(v, floatStr)
  }

  /** A text whose first character is a sign, which `zfill` keeps in front of the padding. */
  predicate Signed(t: string) {
    |t| > 0 && (t[0] == '-' || t[0] == '+')
  }

  /**
   * `idx5_direct` (velocity.py, lookingatrobot.py, looksatrobot.py,
   * playerrobotdistance.py, sdgaze.py, exitsign.py) and the index rule of
   * crisistime.py: the text is `str(int(v))` for an integral float and
   * `str(v)` otherwise, padded with zeros to five characters after any sign;
   * a text of five or more characters is kept whole.
   */
  function Idx5Direct(v: Cell, floatStr: real -> string): (r: string)
    ensures |r| >= 5
    ensures var t := DirectText(v, floatStr); |t| >= 5 ==> r == t
    ensures var t := DirectText(v, floatStr); |t| < 5 && !Signed(t) ==> r == Zeros(5 - |t|) + t
    ensures var t := DirectText(v, floatStr); |t| < 5 && Signed(t) ==> r == [t[0]] + Zeros(5 - |t|) + t[1..]
  {
    if v.FloatCell? && IsIntegral(v.x) then ZFill(IntToString(v.x.Floor), 5)
    else ZFill(CellText(v, floatStr), 5)
  }

  /** An integral float is named like the integer it holds, and a long enough text is kept whole. */
  lemma Idx5DirectSpec(v: Cell, floatStr: real -> string)
    ensures v.FloatCell? && IsIntegral(v.x) ==>
              Idx5Direct(v, floatStr) == Idx5Direct(IntCell(v.x.Floor), floatStr)
    ensures !(v.FloatCell? && IsIntegral(v.x)) && |CellText(v, floatStr)| >= 5 ==>
              Idx5Direct(v, floatStr) == CellText(v, floatStr)
    ensures v.IntCell? && 0 <= v.i ==>
              AllDigits(Idx5Direct(v, floatStr)) && EndsWith(Idx5Direct(v, floatStr), IntToString(v.i))
  {
    if v.IntCell? && 0 <= v.i {
      var t := IntToString(v.i);
      var r := ZFill(t, 5);
      if |t| < 5 {
        assert r == Zeros(5 - |t|) + t;
        assert r[|r| - |t|..] == t;
        forall k | 0 <= k < |r| ensures IsDigit(r[k]) {
          if k >= 5 - |t| {
            assert r[k] == t[k - (5 - |t|)];
          }
        }
      }
    }
  }

  /** An integer, or a float holding one: the cells `index_5char` always zero-pads. */
  predicate IsWhole(v: Cell) {
    v.IntCell? || (v.FloatCell? && IsIntegral(v.x))
  }

  /** The text `index_5char` pads: the integer's digits for a whole cell, the stripped `str(v)` otherwise. */
  function Index5Text(v: Cell, floatStr: real -> string): string {
    if v.IntCell? then IntToString(v.i)
    else if v.FloatCell? && IsIntegral(v.x) then IntToString(v.x.Floor)
    else Strip(CellText(v, floatStr))
  }

  /**
   * `index_5char` (locationtimemap.py): whole cells are zero-padded after
   * any sign, a stripped all-digit text shorter than five is padded too, any
   * other short text is kept as it is, and only the first five characters
   * are kept.
   */
  function Index5Char(v: Cell, floatStr: real -> string): (r: string)
    ensures |r| <= 5
    ensures IsWhole(v) ==> |r| == 5
    ensures var t := Index5Text(v, floatStr); |t| >= 5 ==> r == t[..5]
    ensures var t := Index5Text(v, floatStr);
      |t| < 5 && ((IsWhole(v) && !Signed(t)) || (0 < |t| && AllDigits(t))) ==> r == Zeros(5 - |t|) + t
    ensures var t := Index5Text(v, floatStr); |t| < 5 && IsWhole(v) && Signed(t) ==> r == [t[0]] + Zeros(5 - |t|) + t[1..]
    ensures var t := Index5Text(v, floatStr); !IsWhole(v) && !(0 < |t| && AllDigits(t)) && |t| < 5 ==> r == t
  {
    var t := Index5Text(v, floatStr);
    if IsWhole(v) || (|t| > 0 && AllDigits(t) && |t| < 5) then
      PadThenTake(t);
      Take(ZFill(t, 5), 5)
    else
      TakeFive(t);
      Take(t, 5)
  }

  lemma TakeFive(t: string)
    ensures |t| >= 5 ==> Take(t, 5) == t[..5]
    ensures |t| < 5 ==> Take(t, 5) == t
  {
  }

  /** Padding to five and keeping five characters: the padded text, or its first five characters. */
  lemma PadThenTake(t: string)
    ensures |t| >= 5 ==> Take(ZFill(t, 5), 5) == t[..5]
    ensures |t| < 5 && !Signed(t) ==> Take(ZFill(t, 5), 5) == Zeros(5 - |t|) + t
    ensures |t| < 5 && Signed(t) ==> Take(ZFill(t, 5), 5) == [t[0]] + Zeros(5 - |t|) + t[1..]
    ensures 0 < |t| && IsDigit(t[0]) ==> !Signed(t)
  {
  }

  /**
   * `first5` (pupilsize.py) and `idx5` (followdistancetime.py): the first
   * five characters of the stripped text, no padding.
   */
  function First5(v: Cell, floatStr: real -> string): (r: string)
    ensures var t := Strip(CellText(v, floatStr));
      |r| == (if |t| < 5 then |t| else 5) && StartsWith(t, r)
  {
    Take(Strip(CellText(v, floatStr)), 5)
  }

  /**
   * `is_four` (baselinehighlight.py): an empty cell is not four, a number is
   * four when it equals 4 exactly, and a text when it strips to "4".
   */
  predicate IsFour(v: Cell) {
    match v
    case NoneCell => false
    case IntCell(i) => i == 4
    case FloatCell(x) => Trunc(x) == 4 && x == Trunc(x) as real
    case StrCell(s) => Strip(s) == "4"
  }

  /** Python's `int(x)` on a float: truncation toward zero. */
  function Trunc(x: real): int {
    if x >= 0.0 then x.Floor else -((-x).Floor)
  }

  /** A float cell is four exactly when it holds 4.0, so 4.5 is not. */
  lemma IsFourFloat(x: real)
    ensures IsFour(FloatCell(x)) <==> x == 4.0
  {
    if x >= 0.0 && x.Floor == 4 && x == 4 as real {
      assert x == 4.0;
    }
  }

  /**
   * The highlighting loop: every row from the second to the last is
   * counted, and a row is highlighted when its condition cell is four.
   * `conditions[k]` is column B of worksheet row k + 2; `marked` lists the
   * highlighted worksheet rows in order.
   */
  method CountHighlights(conditions: seq<Cell>) returns (total: nat, highlighted: nat, marked: seq<nat>)
    ensures total == |conditions|
    ensures highlighted == Count(conditions, IsFour) == |marked| && highlighted <= total
    ensures forall r :: r in marked <==> 2 <= r < |conditions| + 2 && IsFour(conditions[r - 2])
  {
    total, highlighted, marked := 0, 0, [];
    var row := 2;
    while row < |conditions| + 2
      invariant 2 <= row <= |conditions| + 2
      invariant total == row - 2
      invariant highlighted == Count(conditions[..row - 2], IsFour) == |marked|
      invariant forall r :: r in marked <==> 2 <= r < row && IsFour(conditions[r - 2])
    {
      assert conditions[..row - 1][..row - 2] == conditions[..row - 2];
      total := total + 1;
      if IsFour(conditions[row - 2]) {
        marked := marked + [row];
        highlighted := highlighted + 1;
      }
      row := row + 1;
    }
    assert conditions[..|conditions|] == conditions;
  }
}
