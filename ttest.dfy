// t_test_after.cpp: the "after" window of every participant's pupil summary
// is compared with the expected pupil size of the closest luminance in that
// participant's calibration mapping.  The mapping is a `std::map` keyed by
// luminance, modelled as its ordered list of entries; the Student-t
// distribution is a parameter.

module TTestAfter {
  import opened Wrappers
  import opened Lists
  import PupilSizeTotals

  /** `PupilData`: a luminance, an average pupil size, a sample count and a spread. */
  datatype PupilData = PupilData(luminance: real, avgSize: real, count: int, stdDev: real)

  /** `{-1, -1, -1, -1}`: the answer for an empty mapping. */
  const Invalid := PupilData(-1.0, -1.0, -1, -1.0)

  /** One seven-number group of a luminance mapping file. */
  datatype MappingLine = MappingLine(luminance: real, avgLeft: real, leftCount: real, leftStd: real,
                                     avgRight: real, rightCount: real, rightStd: real)

  /** `(int)x`: conversion toward zero. */
  function Trunc(x: real): (r: int)
    ensures x >= 0.0 ==> r as real <= x < r as real + 1.0
    ensures x < 0.0 ==> r as real - 1.0 < x <= r as real
  {
    if x >= 0.0 then x.Floor else -((-x).Floor)
  }

  // ---------------------------------------------------------------- ordered maps

  /** The entries of a `std::map<double, PupilData>`, in key order. */
  type Entries = seq<(real, PupilData)>

  ghost predicate Ordered(es: Entries) {
    forall i, j :: 0 <= i < j < |es| ==> es[i].0 < es[j].0
  }

  function KeySet(es: Entries): set<real> {
    if es == [] then {} else {es[0].0} + KeySet(es[1..])
  }

  /** Every key of the set is the key of an entry and the other way round. */
  lemma {:induction false} KeySetMember(es: Entries, x: real)
    ensures x in KeySet(es) <==> exists i :: 0 <= i < |es| && es[i].0 == x
  {
    if es != [] {
      KeySetMember(es[1..], x);
      if x in KeySet(es[1..]) {
        var i :| 0 <= i < |es| - 1 && es[1..][i].0 == x;
        assert es[i + 1].0 == x;
      }
      if exists i :: 0 <= i < |es| && es[i].0 == x {
        var i :| 0 <= i < |es| && es[i].0 == x;
        if i > 0 {
          assert es[1..][i - 1].0 == x;
        }
      }
    }
  }

  /** `m.find(k)`: the value stored under `k`, if any. */
  function Lookup(es: Entries, k: real): Option<PupilData> {
    if es == [] then None
    else if es[0].0 == k then Some(es[0].1)
    else Lookup(es[1..], k)
  }

  /** `m[k] = v`: a new key is inserted in order; an existing key has its value replaced. */
  function Put(es: Entries, k: real, v: PupilData): Entries {
    if es == [] then [(k, v)]
    else if k < es[0].0 then [(k, v)] + es
    else if k == es[0].0 then [(k, v)] + es[1..]
    else [es[0]] + Put(es[1..], k, v)
  }

  lemma {:induction false} PutKeys(es: Entries, k: real, v: PupilData)
    ensures KeySet(Put(es, k, v)) == KeySet(es) + {k}
  {
    if es != [] && k > es[0].0 {
      PutKeys(es[1..], k, v);
      assert ([es[0]] + Put(es[1..], k, v))[1..] == Put(es[1..], k, v);
    } else if es != [] && k == es[0].0 {
      assert ([(k, v)] + es[1..])[1..] == es[1..];
    } else if es != [] {
      assert ([(k, v)] + es)[1..] == es;
    } else {
      assert [(k, v)][1..] == [];
    }
  }

  /** Insertion keeps the keys strictly increasing. */
  lemma {:induction false} PutOrdered(es: Entries, k: real, v: PupilData)
    requires Ordered(es)
    ensures Ordered(Put(es, k, v))
  {
    if es != [] && k > es[0].0 {
      PutOrdered(es[1..], k, v);
      PutAbove(es[1..], k, v, es[0].0);
      ConsOrdered(es[0], Put(es[1..], k, v));
    } else if es != [] && k == es[0].0 {
      ConsOrdered((k, v), es[1..]);
    } else if es != [] {
      ConsOrdered((k, v), es);
    }
  }

  /** Keys above `b` stay above `b` when one more such key is put. */
  lemma PutAbove(es: Entries, k: real, v: PupilData, b: real)
    requires k > b && forall i :: 0 <= i < |es| ==> es[i].0 > b
    ensures forall i :: 0 <= i < |Put(es, k, v)| ==> Put(es, k, v)[i].0 > b
  {
    var p := Put(es, k, v);
    PutKeys(es, k, v);
    forall i | 0 <= i < |p| ensures p[i].0 > b {
      KeySetMember(p, p[i].0);
      KeySetMember(es, p[i].0);
    }
  }

  lemma ConsOrdered(e: (real, PupilData), p: Entries)
    requires Ordered(p) && forall i :: 0 <= i < |p| ==> p[i].0 > e.0
    ensures Ordered([e] + p)
  {
    forall i, j | 0 <= i < j < |p| + 1 ensures ([e] + p)[i].0 < ([e] + p)[j].0 {
      assert ([e] + p)[j] == p[j - 1];
      if i > 0 {
        assert ([e] + p)[i] == p[i - 1];
      }
    }
  }

  /** After `m[k] = v`, `k` finds `v` and every other key finds what it found before. */
  lemma {:induction false} PutLookup(es: Entries, k: real, v: PupilData, j: real)
    ensures Lookup(Put(es, k, v), j) == if j == k then Some(v) else Lookup(es, j)
  {
    if es != [] && k > es[0].0 {
      PutLookup(es[1..], k, v, j);
      assert ([es[0]] + Put(es[1..], k, v))[1..] == Put(es[1..], k, v);
    } else if es != [] && k == es[0].0 {
      assert ([(k, v)] + es[1..])[1..] == es[1..];
    } else if es != [] {
      assert ([(k, v)] + es)[1..] == es;
    } else {
      assert [(k, v)][1..] == [];
    }
  }

  // ---------------------------------------------------------------- closest luminance

  /** `lower_bound(t)`: the first entry whose key is not less than `t`, or -1 for `end()`. */
  function LowerBound(es: Entries, t: real): (r: int)
    ensures -1 <= r < |es|
    ensures r >= 0 ==> es[r].0 >= t && forall k :: 0 <= k < r ==> es[k].0 < t
    ensures r == -1 ==> forall k :: 0 <= k < |es| ==> es[k].0 < t
  {
    FirstFrom(es, (e: (real, PupilData)) => e.0 >= t, 0)
  }

  function Abs(x: real): real { if x < 0.0 then -x else x }

  /**
   * The entry `getClosestLuminanceMatch` picks: the last one when `t` is above
   * every key, the first one when `t` is at or below the first key, otherwise
   * the neighbour below `lower_bound` when it is strictly nearer, else the
   * entry at `lower_bound`.  -1 for an empty mapping.
   */
  function ClosestEntry(es: Entries, t: real): (r: int)
    ensures -1 <= r < |es|
    ensures r == -1 <==> es == []
  {
    if es == [] then -1
    else
      var j := LowerBound(es, t);
      if j == -1 then |es| - 1
      else if j == 0 then 0
      else if Abs(es[j - 1].0 - t) < Abs(es[j].0 - t) then j - 1
      else j
  }

  /** `getClosestLuminanceMatch`. */
  function ClosestMatch(es: Entries, t: real): (r: PupilData)
    ensures es == [] ==> r == Invalid
    ensures es != [] ==> r == es[ClosestEntry(es, t)].1
  {
    var i := ClosestEntry(es, t);
    if i == -1 then Invalid else es[i].1
  }

  /** Above every key the largest key is chosen; at or below the smallest, the smallest. */
  lemma ClosestAtEnds(es: Entries, t: real)
    requires es != []
    ensures t > es[|es| - 1].0 && Ordered(es) ==> ClosestEntry(es, t) == |es| - 1
    ensures t <= es[0].0 ==> ClosestEntry(es, t) == 0
  {
    if t > es[|es| - 1].0 && Ordered(es) {
      assert LowerBound(es, t) == -1;
    }
  }

  /** In an ordered mapping the chosen key is at least as near to `t` as every key. */
  lemma ClosestIsNearest(es: Entries, t: real, k: nat)
    requires Ordered(es) && k < |es|
    ensures Abs(es[ClosestEntry(es, t)].0 - t) <= Abs(es[k].0 - t)
  {
    var j := LowerBound(es, t);
    if j > 0 {
      if k < j - 1 {
        assert es[k].0 < es[j - 1].0;
      } else if k > j {
        assert es[j].0 < es[k].0;
      }
    } else if j == 0 {
      assert es[0].0 <= es[k].0 by {
        if k > 0 {
          assert es[0].0 < es[k].0;
        }
      }
    } else {
      assert es[k].0 <= es[|es| - 1].0 by {
        if k < |es| - 1 {
          assert es[k].0 < es[|es| - 1].0;
        }
      }
    }
  }

  /** Of two equally near keys, the one not below `t` wins. */
  lemma ClosestTieGoesUp(es: Entries, t: real, k: nat)
    requires Ordered(es) && k < |es| && es[k].0 >= t
    requires Abs(es[k].0 - t) == Abs(es[ClosestEntry(es, t)].0 - t)
    ensures es[ClosestEntry(es, t)].0 >= t
  {
    var j := LowerBound(es, t);
  }

  /** A key equal to `t` is the one chosen. */
  lemma ClosestExact(es: Entries, t: real, k: nat)
    requires Ordered(es) && k < |es| && es[k].0 == t
    ensures ClosestEntry(es, t) == k
  {
    var j := LowerBound(es, t);
    assert j == k;
  }

  // ---------------------------------------------------------------- t-test

  /** `pow(std1, 2) / n1 + pow(std2, 2) / n2`. */
  function PooledVar(std1: real, n1: int, std2: real, n2: int): real
    requires n1 > 0 && n2 > 0
  {
    std1 * std1 / (n1 as real) + std2 * std2 / (n2 as real)
  }

  /** `min(n1, n2) - 1`. */
  function Df(n1: int, n2: int): int {
    (if n1 < n2 then n1 else n2) - 1
  }

  /**
   * `computeTTest`: -1 with fewer than two samples on either side or a zero
   * pooled variance; otherwise the two-tailed p-value `tail(df, t * t)` of
   * the t-score `t = (mean1 - mean2) / sqrt(pooled)`.
   */
  function ComputeTTest(mean1: real, std1: real, n1: int, mean2: real, std2: real, n2: int,
                        tail: (int, real) -> real): real
  {
    if n1 < 2 || n2 < 2 then -1.0
    else
      var pv := PooledVar(std1, n1, std2, n2);
      if pv == 0.0 then -1.0
      else tail(Df(n1, n2), (mean1 - mean2) * (mean1 - mean2) / pv)
  }

  /**
   * The guards: the test is run exactly when both samples have two values and
   * the pooled variance is not zero, and then the distribution gets at least
   * one degree of freedom, no more than either sample gives, a positive pooled
   * variance and a squared t-score that is not negative.
   */
  lemma TTestGuards(mean1: real, std1: real, n1: int, mean2: real, std2: real, n2: int, tail: (int, real) -> real)
    ensures (n1 < 2 || n2 < 2) ==> ComputeTTest(mean1, std1, n1, mean2, std2, n2, tail) == -1.0
    ensures n1 >= 2 && n2 >= 2 && PooledVar(std1, n1, std2, n2) == 0.0 ==>
              ComputeTTest(mean1, std1, n1, mean2, std2, n2, tail) == -1.0
    ensures n1 >= 2 && n2 >= 2 && PooledVar(std1, n1, std2, n2) != 0.0 ==>
              var pv := PooledVar(std1, n1, std2, n2);
              var df := Df(n1, n2);
              var tSq := (mean1 - mean2) * (mean1 - mean2) / pv;
              && pv > 0.0 && 1 <= df && df < n1 && df < n2 && tSq >= 0.0
              && ComputeTTest(mean1, std1, n1, mean2, std2, n2, tail) == tail(df, tSq)
  {
    if n1 >= 2 && n2 >= 2 {
      var a := std1 * std1 / (n1 as real);
      var b := std2 * std2 / (n2 as real);
      assert a >= 0.0 && b >= 0.0;
    }
  }

  /** Swapping the two samples does not change the p-value. */
  lemma TTestSymmetric(mean1: real, std1: real, n1: int, mean2: real, std2: real, n2: int, tail: (int, real) -> real)
    ensures ComputeTTest(mean1, std1, n1, mean2, std2, n2, tail) == ComputeTTest(mean2, std2, n2, mean1, std1, n1, tail)
  {
    assert (mean1 - mean2) * (mean1 - mean2) == (mean2 - mean1) * (mean2 - mean1);
  }

  // ---------------------------------------------------------------- readers

  /** What a `while (in >> ...)` loop reads: the parsed groups up to the first that does not parse. */
  function Stream<T>(groups: seq<Option<T>>): seq<T> {
    if groups == [] || groups[0].None? then [] else [groups[0].value] + Stream(groups[1..])
  }

  lemma StreamGoesOn<T>(groups: seq<Option<T>>, i: nat)
    requires i < |groups| && groups[i].Some?
    ensures Stream(groups[i..]) == [groups[i].value] + Stream(groups[i + 1..])
  {
    assert groups[i..][1..] == groups[i + 1..];
  }

  lemma StreamStops<T>(groups: seq<Option<T>>, i: nat)
    requires i <= |groups| && (i == |groups| || groups[i].None?)
    ensures Stream(groups[i..]) == []
  {
  }

  function LeftData(m: MappingLine): PupilData {
    PupilData(m.luminance, m.avgLeft, Trunc(m.leftCount), m.leftStd)
  }

  function RightData(m: MappingLine): PupilData {
    PupilData(m.luminance, m.avgRight, Trunc(m.rightCount), m.rightStd)
  }

  /** The map built by inserting, group after group, `f(m)` under `m.luminance`. */
  function PutAll(ms: seq<MappingLine>, f: MappingLine -> PupilData): Entries {
    if ms == [] then []
    else Put(PutAll(ms[..|ms| - 1], f), ms[|ms| - 1].luminance, f(ms[|ms| - 1]))
  }

  lemma PutAllSnoc(ms: seq<MappingLine>, m: MappingLine, f: MappingLine -> PupilData)
    ensures PutAll(ms + [m], f) == Put(PutAll(ms, f), m.luminance, f(m))
  {
    assert (ms + [m])[..|ms|] == ms;
  }

  function HasLuminance(k: real): MappingLine -> bool {
    (m: MappingLine) => m.luminance == k
  }

  /** The built map is ordered and each key holds the data of the last group with that luminance. */
  lemma {:induction false} PutAllSpec(ms: seq<MappingLine>, f: MappingLine -> PupilData, k: real)
    ensures Ordered(PutAll(ms, f))
    ensures var j := LastWhere(ms, HasLuminance(k));
            Lookup(PutAll(ms, f), k) == if j == -1 then None else Some(f(ms[j]))
  {
    if ms != [] {
      var p := ms[..|ms| - 1];
      var m := ms[|ms| - 1];
      PutAllSpec(p, f, k);
      PutOrdered(PutAll(p, f), m.luminance, f(m));
      PutLookup(PutAll(p, f), m.luminance, f(m), k);
      if m.luminance != k {
        assert LastWhere(ms, HasLuminance(k)) == LastWhere(p, HasLuminance(k));
      }
    }
  }

  /** The luminances of the groups. */
  function Luminances(ms: seq<MappingLine>): set<real> {
    if ms == [] then {} else Luminances(ms[..|ms| - 1]) + {ms[|ms| - 1].luminance}
  }

  /**
   * The keys of the built map are the luminances read, whatever the stored
   * data: the left and right maps of one file have the same keys.
   */
  lemma {:induction false} PutAllKeys(ms: seq<MappingLine>, f: MappingLine -> PupilData)
    ensures KeySet(PutAll(ms, f)) == Luminances(ms)
  {
    if ms != [] {
      var p := ms[..|ms| - 1];
      PutAllKeys(p, f);
      PutKeys(PutAll(p, f), ms[|ms| - 1].luminance, f(ms[|ms| - 1]));
    }
  }

  /**
   * `readLuminanceMapping` past its header line: the left and right maps, one
   * insertion per group read.  A missing file reads as no group.
   */
  method ReadLuminanceMapping(groups: seq<Option<MappingLine>>) returns (left: Entries, right: Entries)
    ensures left == PutAll(Stream(groups), LeftData) && right == PutAll(Stream(groups), RightData)
  {
    left, right := [], [];
    ghost var ms: seq<MappingLine> := [];
    var i := 0;
    while i < |groups| && groups[i].Some?
      invariant i <= |groups| && Stream(groups) == ms + Stream(groups[i..])
      invariant left == PutAll(ms, LeftData) && right == PutAll(ms, RightData)
    {
      var m := groups[i].value;
      StreamGoesOn(groups, i);
      PutAllSnoc(ms, m, LeftData);
      PutAllSnoc(ms, m, RightData);
      left := Put(left, m.luminance, LeftData(m));
      right := Put(right, m.luminance, RightData(m));
      ms := ms + [m];
      i := i + 1;
    }
    StreamStops(groups, i);
    assert ms + [] == ms;
  }

  /** The left and right maps of a file have entries together. */
  lemma MappingsEmptyTogether(ms: seq<MappingLine>)
    ensures PutAll(ms, LeftData) == [] <==> PutAll(ms, RightData) == []
  {
    PutAllKeys(ms, LeftData);
    PutAllKeys(ms, RightData);
    var l, r := PutAll(ms, LeftData), PutAll(ms, RightData);
    assert l != [] ==> l[0].0 in KeySet(l);
    assert r != [] ==> r[0].0 in KeySet(r);
  }

  /** What `readPupilData` stores for a summary line: its after window. */
  function AfterData(r: PupilSizeTotals.Record): PupilData {
    PupilData(r.lumAfter, r.pupilAfter, Trunc(r.countAfter), r.stdAfter)
  }

  /** The map built by `data[index] = ...`, line after line. */
  function PupilMap(rs: seq<PupilSizeTotals.Record>): map<string, PupilData> {
    if rs == [] then map[]
    else PupilMap(rs[..|rs| - 1])[rs[|rs| - 1].index := AfterData(rs[|rs| - 1])]
  }

  lemma PupilMapSnoc(rs: seq<PupilSizeTotals.Record>, r: PupilSizeTotals.Record)
    ensures PupilMap(rs + [r]) == PupilMap(rs)[r.index := AfterData(r)]
  {
    assert (rs + [r])[..|rs|] == rs;
  }

  function HasIndex(k: string): PupilSizeTotals.Record -> bool {
    (r: PupilSizeTotals.Record) => r.index == k
  }

  /** An index is in the map exactly when a line has it, and then holds the after window of its last line. */
  lemma {:induction false} PupilMapSpec(rs: seq<PupilSizeTotals.Record>, k: string)
    ensures var j := LastWhere(rs, HasIndex(k));
            && (k in PupilMap(rs) <==> j != -1)
            && (j != -1 ==> PupilMap(rs)[k] == AfterData(rs[j]))
  {
    if rs != [] {
      var p := rs[..|rs| - 1];
      PupilMapSpec(p, k);
      if rs[|rs| - 1].index != k {
        assert LastWhere(rs, HasIndex(k)) == LastWhere(p, HasIndex(k));
      }
    }
  }

  /** `readPupilData`: nine values per line, last line wins; a missing file reads as no line. */
  method ReadPupilData(rows: seq<Option<PupilSizeTotals.Record>>) returns (data: map<string, PupilData>)
    ensures data == PupilMap(Stream(rows))
  {
    data := map[];
    ghost var rs: seq<PupilSizeTotals.Record> := [];
    var i := 0;
    while i < |rows| && rows[i].Some?
      invariant i <= |rows| && Stream(rows) == rs + Stream(rows[i..])
      invariant data == PupilMap(rs)
    {
      var r := rows[i].value;
      StreamGoesOn(rows, i);
      PupilMapSnoc(rs, r);
      data := data[r.index := AfterData(r)];
      rs := rs + [r];
      i := i + 1;
    }
    StreamStops(rows, i);
    assert rs + [] == rs;
  }

  // ---------------------------------------------------------------- main loop

  /** What `main` prints for one index. */
  datatype Outcome = MissingMapping | MissingPupilData | Tested(leftP: real, rightP: real)

  /** The inputs of `main`: both pupil summaries, the mapping files by name, and the p-value tail. */
  datatype Inputs = Inputs(leftData: map<string, PupilData>, rightData: map<string, PupilData>,
                           mappingFiles: map<string, seq<Option<MappingLine>>>, tail: (int, real) -> real)

  function MappingGroups(inp: Inputs, index: string): seq<MappingLine> {
    var name := index + "_luminance_mapping.txt";
    if name in inp.mappingFiles then Stream(inp.mappingFiles[name]) else []
  }

  /**
   * One index: missing when its mapping has no entry, or when either summary
   * lacks it; otherwise the p-values of both eyes against the expected size
   * at the closest after-window luminance.
   */
  function OutcomeFor(inp: Inputs, index: string): Outcome {
    var ms := MappingGroups(inp, index);
    var lm, rm := PutAll(ms, LeftData), PutAll(ms, RightData);
    if lm == [] || rm == [] then MissingMapping
    else if index !in inp.leftData || index !in inp.rightData then MissingPupilData
    else
      var la, ra := inp.leftData[index], inp.rightData[index];
      var le, re := ClosestMatch(lm, la.luminance), ClosestMatch(rm, ra.luminance);
      Tested(ComputeTTest(la.avgSize, la.stdDev, la.count, le.avgSize, le.stdDev, le.count, inp.tail),
             ComputeTTest(ra.avgSize, ra.stdDev, ra.count, re.avgSize, re.stdDev, re.count, inp.tail))
  }

  function Outcomes(inp: Inputs): string -> Outcome {
    (i: string) => OutcomeFor(inp, i)
  }

  /** The six counters of `main`. */
  datatype Tally = Tally(totalLeft: nat, totalRight: nat, leftPass: nat, rightPass: nat,
                         missingMapping: nat, missingPupilData: nat)

  /** The indices of `s` that satisfy `p`. */
  function Where(s: set<string>, p: string -> bool): set<string> {
    set i | i in s && p(i)
  }

  function IsMissingMapping(f: string -> Outcome): string -> bool { (i: string) => f(i).MissingMapping? }
  function IsMissingPupilData(f: string -> Outcome): string -> bool { (i: string) => f(i).MissingPupilData? }
  function IsTested(f: string -> Outcome): string -> bool { (i: string) => f(i).Tested? }
  function LeftRan(f: string -> Outcome): string -> bool { (i: string) => f(i).Tested? && f(i).leftP != -1.0 }
  function RightRan(f: string -> Outcome): string -> bool { (i: string) => f(i).Tested? && f(i).rightP != -1.0 }
  function LeftPassed(f: string -> Outcome, alpha: real): string -> bool {
    (i: string) => f(i).Tested? && f(i).leftP != -1.0 && f(i).leftP < alpha
  }
  function RightPassed(f: string -> Outcome, alpha: real): string -> bool {
    (i: string) => f(i).Tested? && f(i).rightP != -1.0 && f(i).rightP < alpha
  }

  /** The counters over the indices `s` with outcomes `f`, each the number of indices with its outcome. */
  function TallyOf(f: string -> Outcome, alpha: real, s: set<string>): Tally {
    Tally(|Where(s, LeftRan(f))|, |Where(s, RightRan(f))|,
          |Where(s, LeftPassed(f, alpha))|, |Where(s, RightPassed(f, alpha))|,
          |Where(s, IsMissingMapping(f))|, |Where(s, IsMissingPupilData(f))|)
  }

  lemma WhereAdd(s: set<string>, x: string, p: string -> bool)
    requires x !in s
    ensures |Where(s + {x}, p)| == |Where(s, p)| + if p(x) then 1 else 0
  {
    if p(x) {
      assert Where(s + {x}, p) == Where(s, p) + {x};
    } else {
      assert Where(s + {x}, p) == Where(s, p);
    }
  }

  /** The counters once `index` is handled. */
  function Count(t: Tally, o: Outcome, alpha: real): Tally {
    match o
    case MissingMapping => t.(missingMapping := t.missingMapping + 1)
    case MissingPupilData => t.(missingPupilData := t.missingPupilData + 1)
    case Tested(l, r) =>
      Tally(t.totalLeft + (if l != -1.0 then 1 else 0), t.totalRight + (if r != -1.0 then 1 else 0),
            t.leftPass + (if l != -1.0 && l < alpha then 1 else 0), t.rightPass + (if r != -1.0 && r < alpha then 1 else 0),
            t.missingMapping, t.missingPupilData)
  }

  lemma TallyAdd(f: string -> Outcome, alpha: real, s: set<string>, x: string)
    requires x !in s
    ensures TallyOf(f, alpha, s + {x}) == Count(TallyOf(f, alpha, s), f(x), alpha)
  {
    WhereAdd(s, x, LeftRan(f));
    WhereAdd(s, x, RightRan(f));
    WhereAdd(s, x, LeftPassed(f, alpha));
    WhereAdd(s, x, RightPassed(f, alpha));
    WhereAdd(s, x, IsMissingMapping(f));
    WhereAdd(s, x, IsMissingPupilData(f));
  }

  lemma Moved(all: set<string>, todo: set<string>, x: string)
    requires x in todo && todo <= all
    ensures all - (todo - {x}) == (all - todo) + {x} && x !in all - todo
    ensures |todo - {x}| < |todo|
  {
  }

  /** One round of the loop of `main`: the index handled moves from the indices to do to those done. */
  lemma Advance(f: string -> Outcome, alpha: real, all: set<string>, todo: set<string>, x: string, t: Tally, o: Outcome)
    requires x in todo && todo <= all && t == TallyOf(f, alpha, all - todo) && o == f(x)
    ensures todo - {x} <= all && |todo - {x}| < |todo|
    ensures Count(t, o, alpha) == TallyOf(f, alpha, all - (todo - {x}))
  {
    Moved(all, todo, x);
    TallyStep(f, alpha, all - todo, x, t, o);
  }

  lemma TallyStep(f: string -> Outcome, alpha: real, s: set<string>, x: string, t: Tally, o: Outcome)
    requires x !in s && t == TallyOf(f, alpha, s) && o == f(x)
    ensures Count(t, o, alpha) == TallyOf(f, alpha, s + {x})
  {
    TallyAdd(f, alpha, s, x);
  }

  /**
   * `main` after reading both summaries and the significance level: nothing
   * when either summary is empty; otherwise every index of either summary is
   * handled once, in any order, and the counters count the outcomes.
   */
  method TestAll(inp: Inputs, alpha: real) returns (r: Option<Tally>)
    ensures inp.leftData == map[] || inp.rightData == map[] ==> r == None
    ensures inp.leftData != map[] && inp.rightData != map[] ==>
              r == Some(TallyOf(Outcomes(inp), alpha, inp.leftData.Keys + inp.rightData.Keys))
  {
    if inp.leftData == map[] || inp.rightData == map[] {
      return None;
    }
    var indices := inp.leftData.Keys + inp.rightData.Keys;
    var t := Tally(0, 0, 0, 0, 0, 0);
    var todo := indices;
    ghost var f := Outcomes(inp);
    while todo != {}
      invariant todo <= indices && t == TallyOf(f, alpha, indices - todo)
      decreases |todo|
    {
      var index :| index in todo;
      var o := Handle(inp, index);
      Advance(f, alpha, indices, todo, index, t, o);
      t := Count(t, o, alpha);
      todo := todo - {index};
    }
    assert indices - {} == indices;
    return Some(t);
  }

  /** The loop body of `main` for one index. */
  method Handle(inp: Inputs, index: string) returns (o: Outcome)
    ensures o == Outcomes(inp)(index)
  {
    var name := index + "_luminance_mapping.txt";
    var groups := if name in inp.mappingFiles then inp.mappingFiles[name] else [];
    var leftMapping, rightMapping := ReadLuminanceMapping(groups);
    if leftMapping == [] || rightMapping == [] {
      return MissingMapping;
    }
    if index !in inp.leftData || index !in inp.rightData {
      return MissingPupilData;
    }
    var leftActual, rightActual := inp.leftData[index], inp.rightData[index];
    var leftExpected := ClosestMatch(leftMapping, leftActual.luminance);
    var rightExpected := ClosestMatch(rightMapping, rightActual.luminance);
    var leftP := ComputeTTest(leftActual.avgSize, leftActual.stdDev, leftActual.count,
                              leftExpected.avgSize, leftExpected.stdDev, leftExpected.count, inp.tail);
    var rightP := ComputeTTest(rightActual.avgSize, rightActual.stdDev, rightActual.count,
                               rightExpected.avgSize, rightExpected.stdDev, rightExpected.count, inp.tail);
    return Tested(leftP, rightP);
  }

  /**
   * The summary adds up: passes are among the tests run, and each index is
   * counted once, as a missing mapping, as missing pupil data or as tested
   * on each eye where the test could run.
   */
  lemma TallyBounds(f: string -> Outcome, alpha: real, s: set<string>)
    ensures var t := TallyOf(f, alpha, s);
            && t.leftPass <= t.totalLeft && t.rightPass <= t.totalRight
            && t.missingMapping + t.missingPupilData + |Where(s, IsTested(f))| == |s|
            && t.totalLeft <= |Where(s, IsTested(f))| && t.totalRight <= |Where(s, IsTested(f))|
  {
    WhereMono(s, LeftPassed(f, alpha), LeftRan(f));
    WhereMono(s, RightPassed(f, alpha), RightRan(f));
    WhereMono(s, LeftRan(f), IsTested(f));
    WhereMono(s, RightRan(f), IsTested(f));
    WherePartition(s, IsMissingMapping(f), IsMissingPupilData(f), IsTested(f));
  }

  lemma WhereMono(s: set<string>, p: string -> bool, q: string -> bool)
    requires forall i :: p(i) ==> q(i)
    ensures |Where(s, p)| <= |Where(s, q)|
  {
    var a, b := Where(s, p), Where(s, q);
    assert b == a + (b - a);
  }

  lemma WherePartition(s: set<string>, p: string -> bool, q: string -> bool, r: string -> bool)
    requires forall i :: (p(i) && !q(i) && !r(i)) || (!p(i) && q(i) && !r(i)) || (!p(i) && !q(i) && r(i))
    ensures |Where(s, p)| + |Where(s, q)| + |Where(s, r)| == |s|
  {
    var a, b, c := Where(s, p), Where(s, q), Where(s, r);
    assert s == a + b + c;
    assert a !! b && (a + b) !! c;
  }

  /** The printed pass percentage: 0 when no test ran. */
  function PassRate(pass: nat, total: nat): (r: real)
    ensures pass <= total ==> 0.0 <= r <= 100.0
  {
    if total != 0 then (pass as real) * 100.0 / (total as real) else 0.0
  }
}
