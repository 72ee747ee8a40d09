// Shared vocabulary of the Fire 2 batch scripts: optional values, the
// string operations the scripts lean on (strip/trim, lower-casing, substring
// tests, zero padding) and the column lookups every CSV reader starts with.

module Wrappers {
  datatype Option<T> = None | Some(value: T)
}

module Text {

  /** Whitespace as C's `isspace` in the "C" locale: space, \t, \n, \v, \f, \r. */
  predicate IsSpace(c: char) {
    c == ' ' || c == '\t' || c == '\n' || c == '\r' || c == '\U{000B}' || c == '\U{000C}'
  }

  /** The line contains nothing but whitespace (or nothing at all). */
  predicate IsBlank(s: string) {
    forall i :: 0 <= i < |s| ==> IsSpace(s[i])
  }

  function TrimLeft(s: string): (r: string)
    ensures |r| <= |s| && r == s[|s| - |r|..]
    ensures forall i :: 0 <= i < |s| - |r| ==> IsSpace(s[i])
    ensures r == [] || !IsSpace(r[0])
  {
    if |s| > 0 && IsSpace(s[0]) then TrimLeft(s[1..]) else s
  }

  function TrimRight(s: string): (r: string)
    ensures |r| <= |s| && r == s[..|r|]
    ensures forall i :: |r| <= i < |s| ==> IsSpace(s[i])
    ensures r == [] || !IsSpace(r[|r| - 1])
  {
    if |s| > 0 && IsSpace(s[|s| - 1]) then TrimRight(s[..|s| - 1]) else s
  }

  /** Python's `str.strip()` and the C++ `trim` helper: drop leading and trailing whitespace. */
  function Strip(s: string): (r: string)
    ensures |r| <= |s|
  {
    TrimRight(TrimLeft(s))
  }

  /** The stripped text starts and ends with a non-blank; it is empty exactly for a blank line. */
  lemma StripSpec(s: string)
    ensures var r := Strip(s);
      (r == [] || (!IsSpace(r[0]) && !IsSpace(r[|r| - 1]))) && (r == [] <==> IsBlank(s))
  {
    var l := TrimLeft(s);
    var r := TrimRight(l);
    assert r != [] ==> r[0] == l[0];
    assert l == [] ==> IsBlank(s);
    assert IsBlank(s) ==> l == [];
  }

  /** Each text stripped, in order: a header's column names or a file's lines. */
  function StripEach(texts: seq<string>): (r: seq<string>)
    ensures |r| == |texts|
  {
    seq(|texts|, k requires 0 <= k < |texts| => Strip(texts[k]))
  }

  function LowerChar(c: char): char {
    if 'A' <= c <= 'Z' then (c as int - 'A' as int + 'a' as int) as char else c
  }

  /** ASCII lower-casing (`str.lower()`, `::tolower`). */
  function Lower(s: string): (r: string)
    ensures |r| == |s|
  {
    if s == [] then [] else [LowerChar(s[0])] + Lower(s[1..])
  }

  lemma {:induction false} LowerAt(s: string, i: int)
    requires 0 <= i < |s|
    ensures Lower(s)[i] == LowerChar(s[i])
  {
    if i > 0 {
      LowerAt(s[1..], i - 1);
    }
  }

  predicate OccursAt(s: string, t: string, i: int) {
    0 <= i && i + |t| <= |s| && s[i..i + |t|] == t
  }

  /** Python's `t in s`, C++'s `s.find(t) != npos`. */
  predicate Contains(s: string, t: string) {
    exists i | 0 <= i <= |s| - |t| :: OccursAt(s, t, i)
  }

  predicate StartsWith(s: string, p: string) {
    |p| <= |s| && s[..|p|] == p
  }

  predicate EndsWith(s: string, p: string) {
    |p| <= |s| && s[|s| - |p|..] == p
  }

  /** Python `s[:n]` and C++ `s.substr(0, n)`: at most the first n characters. */
  function Take(s: string, n: nat): (r: string)
    ensures |r| == if |s| <= n then |s| else n
    ensures StartsWith(s, r)
  {
    if |s| <= n then s else s[..n]
  }

  function Zeros(n: nat): (r: string)
    ensures |r| == n && forall i :: 0 <= i < n ==> r[i] == '0'
  {
    if n == 0 then [] else Zeros(n - 1) + "0"
  }

  /**
   * Python's `str.zfill(width)`: pad with '0' on the left up to `width`,
   * keeping a leading sign in front of the padding.
   */
  function ZFill(s: string, width: nat): (r: string)
    ensures |r| == if |s| < width then width else |s|
    ensures |s| >= width ==> r == s
    ensures |s| < width && !(|s| > 0 && (s[0] == '-' || s[0] == '+')) ==>
              r == Zeros(width - |s|) + s
    ensures |s| < width && |s| > 0 && (s[0] == '-' || s[0] == '+') ==>
              r[0] == s[0] && r[|r| - (|s| - 1)..] == s[1..]
  {
    if |s| >= width then s
    else if |s| > 0 && (s[0] == '-' || s[0] == '+') then [s[0]] + Zeros(width - |s|) + s[1..]
    else Zeros(width - |s|) + s
  }

  predicate IsDigit(c: char) { '0' <= c <= '9' }

  predicate AllDigits(s: string) {
    forall i :: 0 <= i < |s| ==> IsDigit(s[i])
  }

  function DigitChar(d: nat): char
    requires d < 10
  {
    ('0' as int + d) as char
  }

  /** Decimal digits of a natural number, most significant first. */
  function NatToString(n: nat): (r: string)
    ensures |r| >= 1 && AllDigits(r)
    ensures n < 10 <==> |r| == 1
    ensures DigitsValue(r) == n
    ensures |r| == 1 || r[0] != '0'
  {
    if n < 10 then [DigitChar(n)]
    else
      var h := NatToString(n / 10);
      var r := h + [DigitChar(n % 10)];
      assert r[..|r| - 1] == h;
      r
  }

  /** The number a string of decimal digits denotes, most significant first. */
  function DigitsValue(s: string): int {
    if s == [] then 0 else DigitsValue(s[..|s| - 1]) * 10 + (s[|s| - 1] as int - '0' as int)
  }

  /** Python's `str(i)` for an integer. */
  function IntToString(i: int): (r: string)
    ensures |r| >= 1
    ensures i >= 0 ==> AllDigits(r) && DigitsValue(r) == i && (|r| == 1 || r[0] != '0')
    ensures i < 0 ==> r[0] == '-' && AllDigits(r[1..]) && DigitsValue(r[1..]) == -i && (|r| == 2 || r[1] != '0')
  {
    if i < 0 then
      var d := NatToString(-i);
      assert ("-" + d)[1..] == d;
      "-" + d
    else NatToString(i)
  }
}

module Columns {
  import opened Text
  import opened Lists

  /** The stripped, lower-cased header equals the stripped, lower-cased name. */
  predicate SameCaseIns(h: string, name: string) {
    Lower(Strip(h)) == Lower(Strip(name))
  }

  /** The header matches `name` ignoring case and surrounding whitespace. */
  function CaseIns(name: string): string -> bool {
    (h: string) => SameCaseIns(h, name)
  }

  /** The first header equal to `name` ignoring case and surrounding whitespace (`find_col_caseins`), or -1. */
  function ColCaseIns(header: seq<string>, name: string): (r: int)
    ensures -1 <= r < |header|
  {
    FirstFrom(header, CaseIns(name), 0)
  }

  /** The characters of the `[ _.\-]+` pattern. */
  predicate Separator(c: char) {
    c == ' ' || c == '_' || c == '.' || c == '-'
  }

  /**
   * The `[ _.\-]+` substitution by "": every separator goes, every other
   * character stays, in order.
   */
  function DropSeparators(s: string): (r: string)
    ensures |r| <= |s|
    ensures forall k :: 0 <= k < |r| ==> !Separator(r[k]) && r[k] in s
    ensures forall k :: 0 <= k < |s| && !Separator(s[k]) ==> s[k] in r
    ensures |s| == 1 ==> r == (if Separator(s[0]) then [] else s)
    ensures (forall k :: 0 <= k < |s| ==> !Separator(s[k])) ==> r == s
  {
    if s == [] then []
    else DropSeparators(s[..|s| - 1]) + if Separator(s[|s| - 1]) then [] else [s[|s| - 1]]
  }

  /**
   * Dropping separators works piece by piece; with the one-character case of
   * its contract this pins `DropSeparators` down completely.
   */
  lemma {:induction false} DropSeparatorsAppend(a: string, b: string)
    ensures DropSeparators(a + b) == DropSeparators(a) + DropSeparators(b)
  {
    if b != [] {
      assert (a + b)[..|a + b| - 1] == a + b[..|b| - 1];
      DropSeparatorsAppend(a, b[..|b| - 1]);
    } else {
      assert a + b == a;
    }
  }

  /**
   * `normalize_header_token` (pupilsize.py) and `norm_header_token`
   * (locationtimemap.py): strip, lower-case, then drop every space,
   * underscore, dot and hyphen.
   */
  function NormalizeHeaderToken(s: string): string {
    DropSeparators(Lower(Strip(s)))
  }

  /**
   * The token is lower-case and holds no separator; every other character of
   * the stripped header is in it, lower-cased; and a stripped header without
   * separators becomes just its lower-cased self.
   */
  lemma NormalizeHeaderTokenSpec(s: string)
    ensures var r := NormalizeHeaderToken(s);
      && (forall k :: 0 <= k < |r| ==> !Separator(r[k]) && !('A' <= r[k] <= 'Z'))
      && (forall j :: 0 <= j < |Strip(s)| && !Separator(Strip(s)[j]) ==> LowerChar(Strip(s)[j]) in r)
      && ((forall j :: 0 <= j < |Strip(s)| ==> !Separator(Strip(s)[j])) ==> r == Lower(Strip(s)))
  {
    var t := Strip(s);
    var l := Lower(t);
    var r := DropSeparators(l);
    forall k | 0 <= k < |r| ensures !('A' <= r[k] <= 'Z') {
      var j :| 0 <= j < |l| && l[j] == r[k];
      LowerAt(t, j);
    }
    forall j | 0 <= j < |t| && !Separator(t[j]) ensures LowerChar(t[j]) in r {
      LowerAt(t, j);
      assert !Separator(l[j]);
    }
    if forall j :: 0 <= j < |t| ==> !Separator(t[j]) {
      forall j | 0 <= j < |l| ensures !Separator(l[j]) {
        LowerAt(t, j);
      }
    }
  }

  /** The normalized token of every header. */
  function Tokens(header: seq<string>): (t: seq<string>)
    ensures |t| == |header|
  {
    if header == [] then [] else Tokens(header[..|header| - 1]) + [NormalizeHeaderToken(header[|header| - 1])]
  }

  /**
   * Token i is header i normalized.  (Kept out of `Tokens`' contract: every
   * index into the tokens would otherwise unfold the normalization.)
   */
  lemma {:induction false} TokensAt(header: seq<string>, i: nat)
    requires i < |header|
    ensures Tokens(header)[i] == NormalizeHeaderToken(header[i])
  {
    if i < |header| - 1 {
      TokensAt(header[..|header| - 1], i);
    }
  }

  /** The token contains `name`. */
  function Mentions(name: string): string -> bool {
    (tok: string) => Contains(tok, name)
  }

  /** The loop of `find_col_caseins` / `find_header_col_caseins`. */
  method FindColCaseIns(header: seq<string>, name: string) returns (r: int)
    ensures r == ColCaseIns(header, name)
    ensures r >= 0 ==> SameCaseIns(header[r], name)
    ensures r == -1 <==> forall k :: 0 <= k < |header| ==> !SameCaseIns(header[k], name)
  {
    var t := Lower(Strip(name));
    var i := 0;
    while i < |header|
      invariant 0 <= i <= |header|
      invariant FirstFrom(header, CaseIns(name), i) == ColCaseIns(header, name)
    {
      if Lower(Strip(header[i])) == t {
        return i;
      }
      i := i + 1;
    }
    return -1;
  }

  /** Python `header.index(name)` with ValueError mapped to -1 (`find_header_col_exact`). */
  function IndexOf(header: seq<string>, name: string): (r: int)
    ensures -1 <= r < |header|
    ensures r >= 0 ==> header[r] == name && forall k :: 0 <= k < r ==> header[k] != name
    ensures r == -1 <==> name !in header
  {
    if |header| == 0 then -1
    else if header[0] == name then 0
    else var k := IndexOf(header[1..], name); if k == -1 then -1 else k + 1
  }

  /** Does row `row` reach column `col` (Python `len(r) > col`, with -1 never reached)? */
  predicate Reaches(row: seq<string>, col: int) {
    0 <= col < |row|
  }
}

/** Building lists in a loop: keep the mapped value of every element that yields one, and counting. */
module Lists {
  import opened Wrappers

  function FilterMap<T, U>(xs: seq<T>, f: T -> Option<U>): (r: seq<U>)
    ensures |r| <= |xs|
  {
    if xs == [] then []
    else
      FilterMap(xs[..|xs| - 1], f) + match f(xs[|xs| - 1]) case Some(u) => [u] case None => []
  }

  /** Filtering a concatenation filters each part. */
  lemma {:induction false} FilterMapAppend<T, U>(a: seq<T>, b: seq<T>, f: T -> Option<U>)
    ensures FilterMap(a + b, f) == FilterMap(a, f) + FilterMap(b, f)
    decreases |b|
  {
    if b == [] {
      assert a + b == a;
    } else {
      var b' := b[..|b| - 1];
      assert (a + b)[..|a + b| - 1] == a + b';
      FilterMapAppend(a, b', f);
    }
  }

  /** Filtering one more element keeps what it maps to, if anything. */
  lemma FilterMapSnoc<T, U>(xs: seq<T>, x: T, f: T -> Option<U>)
    ensures FilterMap(xs + [x], f) == FilterMap(xs, f) + match f(x) case Some(u) => [u] case None => []
  {
    assert (xs + [x])[..|xs|] == xs;
  }

  /** Filtering one more element of a prefix, which is kept. */
  lemma FilterMapKeepsNext<T, U>(xs: seq<T>, i: nat, f: T -> Option<U>, u: U)
    requires i < |xs| && f(xs[i]) == Some(u)
    ensures FilterMap(xs[..i + 1], f) == FilterMap(xs[..i], f) + [u]
  {
    assert xs[..i + 1] == xs[..i] + [xs[i]];
    FilterMapSnoc(xs[..i], xs[i], f);
  }

  /** Filtering one more element of a prefix, which is dropped. */
  lemma FilterMapDropsNext<T, U>(xs: seq<T>, i: nat, f: T -> Option<U>)
    requires i < |xs| && f(xs[i]).None?
    ensures FilterMap(xs[..i + 1], f) == FilterMap(xs[..i], f)
  {
    assert xs[..i + 1] == xs[..i] + [xs[i]];
    FilterMapSnoc(xs[..i], xs[i], f);
  }

  lemma CountSnoc<T>(xs: seq<T>, x: T, p: T -> bool)
    ensures Count(xs + [x], p) == Count(xs, p) + if p(x) then 1 else 0
  {
    assert (xs + [x])[..|xs|] == xs;
  }

  /** Every kept value comes from some element. */
  lemma {:induction false} FilterMapFrom<T, U>(xs: seq<T>, f: T -> Option<U>, k: int)
    requires 0 <= k < |FilterMap(xs, f)|
    ensures exists i :: 0 <= i < |xs| && f(xs[i]) == Some(FilterMap(xs, f)[k])
  {
    var p := xs[..|xs| - 1];
    if k < |FilterMap(p, f)| {
      FilterMapFrom(p, f, k);
      var i :| 0 <= i < |p| && f(p[i]) == Some(FilterMap(p, f)[k]);
      assert xs[i] == p[i];
    } else {
      assert f(xs[|xs| - 1]) == Some(FilterMap(xs, f)[k]);
    }
  }

  /** Whatever an element maps to is kept. */
  lemma {:induction false} FilterMapKeeps<T, U>(xs: seq<T>, f: T -> Option<U>, i: nat)
    requires i < |xs| && f(xs[i]).Some?
    ensures f(xs[i]).value in FilterMap(xs, f)
  {
    var p := xs[..|xs| - 1];
    if i < |p| {
      assert p[i] == xs[i];
      FilterMapKeeps(p, f, i);
    }
  }

  /** A value is kept exactly when some element maps to it. */
  lemma FilterMapMember<T, U>(xs: seq<T>, f: T -> Option<U>, u: U)
    ensures u in FilterMap(xs, f) <==> exists i :: 0 <= i < |xs| && f(xs[i]) == Some(u)
  {
    if u in FilterMap(xs, f) {
      var k :| 0 <= k < |FilterMap(xs, f)| && FilterMap(xs, f)[k] == u;
      FilterMapFrom(xs, f, k);
    }
    if exists i :: 0 <= i < |xs| && f(xs[i]) == Some(u) {
      var i :| 0 <= i < |xs| && f(xs[i]) == Some(u);
      FilterMapKeeps(xs, f, i);
    }
  }

  function Count<T>(xs: seq<T>, p: T -> bool): (n: nat)
    ensures n <= |xs|
  {
    if xs == [] then 0 else Count(xs[..|xs| - 1], p) + if p(xs[|xs| - 1]) then 1 else 0
  }

  lemma {:induction false} CountAppend<T>(a: seq<T>, b: seq<T>, p: T -> bool)
    ensures Count(a + b, p) == Count(a, p) + Count(b, p)
    decreases |b|
  {
    if b == [] {
      assert a + b == a;
    } else {
      var b' := b[..|b| - 1];
      assert (a + b)[..|a + b| - 1] == a + b';
      CountAppend(a, b', p);
    }
  }

  /** A filter that keeps fewer elements yields a shorter list. */
  lemma {:induction false} FilterMapFewer<T, U, V>(xs: seq<T>, f: T -> Option<U>, g: T -> Option<V>)
    requires forall x :: g(x).Some? ==> f(x).Some?
    ensures |FilterMap(xs, g)| <= |FilterMap(xs, f)|
  {
    if xs != [] {
      FilterMapFewer(xs[..|xs| - 1], f, g);
    }
  }

  /** The elements satisfying `p`, in order (a list comprehension with a condition). */
  function Filter<T>(xs: seq<T>, p: T -> bool): (r: seq<T>)
    ensures |r| == Count(xs, p)
    ensures forall k :: 0 <= k < |r| ==> p(r[k]) && r[k] in xs
  {
    if xs == [] then []
    else Filter(xs[..|xs| - 1], p) + if p(xs[|xs| - 1]) then [xs[|xs| - 1]] else []
  }

  /** Every element is counted by exactly one of `p` and its negation. */
  lemma {:induction false} CountComplement<T>(xs: seq<T>, p: T -> bool, q: T -> bool)
    requires forall x :: q(x) == !p(x)
    ensures Count(xs, p) + Count(xs, q) == |xs|
  {
    if xs != [] {
      CountComplement(xs[..|xs| - 1], p, q);
    }
  }

  /** `[f(x) for x in xs]`. */
  function MapSeq<T, U>(xs: seq<T>, f: T -> U): (r: seq<U>)
    ensures |r| == |xs| && forall k :: 0 <= k < |xs| ==> r[k] == f(xs[k])
  {
    if xs == [] then [] else MapSeq(xs[..|xs| - 1], f) + [f(xs[|xs| - 1])]
  }

  lemma MapSeqNext<T, U>(xs: seq<T>, i: nat, f: T -> U)
    requires i < |xs|
    ensures MapSeq(xs[..i + 1], f) == MapSeq(xs[..i], f) + [f(xs[i])]
  {
    assert xs[..i + 1][..i] == xs[..i];
  }

  /** Index of the first element from `from` on that satisfies `p`, or -1. */
  function FirstFrom<T>(xs: seq<T>, p: T -> bool, from: nat): (r: int)
    requires from <= |xs|
    ensures r == -1 || from <= r < |xs|
    ensures r >= 0 ==> p(xs[r]) && forall k :: from <= k < r ==> !p(xs[k])
    ensures r == -1 <==> forall k :: from <= k < |xs| ==> !p(xs[k])
    decreases |xs| - from
  {
    if from == |xs| then -1
    else if p(xs[from]) then from
    else FirstFrom(xs, p, from + 1)
  }

  /**
   * `FirstFrom` without its quantified facts, for tests whose unfolding is
   * costly; `FirstIsFirstFrom` supplies them where they are needed.
   */
  function First<T>(xs: seq<T>, p: T -> bool, from: nat): (r: int)
    ensures r == -1 || from <= r < |xs|
    decreases |xs| - from
  {
    if from >= |xs| then -1
    else if p(xs[from]) then from
    else First(xs, p, from + 1)
  }

  lemma {:induction false} FirstIsFirstFrom<T>(xs: seq<T>, p: T -> bool, from: nat)
    requires from <= |xs|
    ensures First(xs, p, from) == FirstFrom(xs, p, from)
    decreases |xs| - from
  {
    if from < |xs| && !p(xs[from]) {
      FirstIsFirstFrom(xs, p, from + 1);
    }
  }

  /** A scan that stops at the first element satisfying `p`. */
  method FindFirst<T>(xs: seq<T>, p: T -> bool, from: nat) returns (r: int)
    requires from <= |xs|
    ensures r == FirstFrom(xs, p, from) && r == First(xs, p, from)
  {
    var i := from;
    while i < |xs|
      invariant from <= i <= |xs|
      invariant FirstFrom(xs, p, i) == FirstFrom(xs, p, from)
      invariant First(xs, p, i) == First(xs, p, from)
    {
      if p(xs[i]) {
        return i;
      }
      i := i + 1;
    }
    return -1;
  }

  /** The sequence f(0), ..., f(n - 1). */
  function Build<T>(n: nat, f: nat -> T): (r: seq<T>)
    ensures |r| == n
  {
    if n == 0 then [] else Build(n - 1, f) + [f(n - 1)]
  }

  lemma {:induction false} BuildAt<T>(n: nat, f: nat -> T, k: nat)
    requires k < n
    ensures Build(n, f)[k] == f(k)
  {
    if k < n - 1 {
      BuildAt(n - 1, f, k);
    }
  }

  /** Index of the last element that satisfies `p`, or -1. */
  function LastWhere<T>(xs: seq<T>, p: T -> bool): (r: int)
    ensures -1 <= r < |xs|
    ensures r >= 0 ==> p(xs[r]) && forall k :: r < k < |xs| ==> !p(xs[k])
    ensures r == -1 <==> forall k :: 0 <= k < |xs| ==> !p(xs[k])
  {
    if xs == [] then -1
    else if p(xs[|xs| - 1]) then |xs| - 1
    else LastWhere(xs[..|xs| - 1], p)
  }

  /** One pass that keeps, for each of `p` and `q`, the last index seen to satisfy it. */
  method FindLastTwo<T>(xs: seq<T>, p: T -> bool, q: T -> bool) returns (a: int, b: int)
    ensures a == LastWhere(xs, p) && b == LastWhere(xs, q)
  {
    a, b := -1, -1;
    for i := 0 to |xs|
      invariant a == LastWhere(xs[..i], p) && b == LastWhere(xs[..i], q)
    {
      assert xs[..i + 1][..i] == xs[..i];
      if p(xs[i]) {
        a := i;
      }
      if q(xs[i]) {
        b := i;
      }
    }
    assert xs[..|xs|] == xs;
  }

  /** One pass that finds, independently, the first element satisfying `p` and the first satisfying `q`. */
  method FindFirstTwo<T>(xs: seq<T>, p: T -> bool, q: T -> bool) returns (a: int, b: int)
    ensures a == FirstFrom(xs, p, 0) && b == FirstFrom(xs, q, 0)
  {
    ghost var fa, fb := FirstFrom(xs, p, 0), FirstFrom(xs, q, 0);
    a, b := -1, -1;
    for i := 0 to |xs|
      invariant a == if 0 <= fa < i then fa else -1
      invariant b == if 0 <= fb < i then fb else -1
    {
      if p(xs[i]) && a == -1 {
        a := i;
      }
      if q(xs[i]) && b == -1 {
        b := i;
      }
    }
  }

  /**
   * `xs[:s]` and `xs[s+1:]` leave out element s and nothing else
   * (the pre/post slicing around a split row).
   */
  lemma SplitAround<T>(xs: seq<T>, s: int)
    requires 0 <= s < |xs|
    ensures xs == xs[..s] + [xs[s]] + xs[s + 1..]
    ensures |xs[..s]| + |xs[s + 1..]| == |xs| - 1
  {
  }

  /** What `f` keeps of `xs` is what it keeps before element s, of s itself, then after it. */
  lemma FilterMapAround<T, U>(xs: seq<T>, s: int, f: T -> Option<U>)
    requires 0 <= s < |xs|
    ensures FilterMap(xs, f) == FilterMap(xs[..s], f) + FilterMap([xs[s]], f) + FilterMap(xs[s + 1..], f)
  {
    SplitAround(xs, s);
    FilterMapAppend(xs[..s] + [xs[s]], xs[s + 1..], f);
    FilterMapAppend(xs[..s], [xs[s]], f);
  }
}

/** Points of the virtual environment. */
module Geometry {
  datatype Vec3 = Vec3(x: real, y: real, z: real)

  function Sub(p: Vec3, q: Vec3): Vec3 {
    Vec3(p.x - q.x, p.y - q.y, p.z - q.z)
  }
}
