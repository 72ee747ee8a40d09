// The aggregation of the extracted pupil files (pupilsizecal.cpp): every
// before and after pair updates the all-data-points statistics of each eye,
// -1 excepted, while the file keeps its own vectors, -1 included; each
// file's averages then update the per-person statistics.

module PupilSizeCal {
  import opened Wrappers
  import opened Sections
  import opened Aggregate
  import PupilReport
  import Extract

  /** The left values of a window's pairs, in order. */
  function Lefts(ps: seq<Extract.Pair>): (r: seq<real>)
    ensures |r| == |ps|
    ensures forall k :: 0 <= k < |ps| ==> r[k] == ps[k].left
  {
    if ps == [] then [] else Lefts(ps[..|ps| - 1]) + [ps[|ps| - 1].left]
  }

  /** The right values of a window's pairs, in order. */
  function Rights(ps: seq<Extract.Pair>): (r: seq<real>)
    ensures |r| == |ps|
    ensures forall k :: 0 <= k < |ps| ==> r[k] == ps[k].right
  {
    if ps == [] then [] else Rights(ps[..|ps| - 1]) + [ps[|ps| - 1].right]
  }

  lemma PairsPrefix(ps: seq<Extract.Pair>, i: nat)
    requires i < |ps|
    ensures Lefts(ps[..i + 1]) == Lefts(ps[..i]) + [ps[i].left]
    ensures Rights(ps[..i + 1]) == Rights(ps[..i]) + [ps[i].right]
  {
    assert ps[..i + 1][..i] == ps[..i];
  }

  /**
   * Four `Stats` of one kind (all data points, or per person): one for each
   * eye in each window.
   */
  class EyeStats {
    const leftBefore: Accumulator
    const rightBefore: Accumulator
    const leftAfter: Accumulator
    const rightAfter: Accumulator
    ghost const Repr: set<object>

    ghost predicate Valid()
      reads this, Repr
    {
      && Repr == {leftBefore, rightBefore, leftAfter, rightAfter}
      && leftBefore != rightBefore && leftBefore != leftAfter && leftBefore != rightAfter
      && rightBefore != leftAfter && rightBefore != rightAfter && leftAfter != rightAfter
      && leftBefore.Valid() && rightBefore.Valid() && leftAfter.Valid() && rightAfter.Valid()
    }

    constructor()
      ensures Valid()
      ensures fresh(leftBefore) && fresh(rightBefore) && fresh(leftAfter) && fresh(rightAfter)
      ensures leftBefore.values == [] && rightBefore.values == []
      ensures leftAfter.values == [] && rightAfter.values == []
    {
      var lb := new Accumulator();
      var rb := new Accumulator();
      var la := new Accumulator();
      var ra := new Accumulator();
      leftBefore, rightBefore, leftAfter, rightAfter := lb, rb, la, ra;
      Repr := {lb, rb, la, ra};
    }
  }

  /** One pair of a section: each eye's statistics take its value unless that value is -1. */
  method TakePair(p: Extract.Pair, left: Accumulator, right: Accumulator)
    requires left != right && left.Valid() && right.Valid()
    modifies left, right
    ensures left.Valid() && right.Valid()
    ensures left.values == if p.left == -1.0 then old(left.values) else old(left.values) + [p.left]
    ensures right.values == if p.right == -1.0 then old(right.values) else old(right.values) + [p.right]
  {
    if p.left != -1.0 {
      left.Update(p.left);
    }
    if p.right != -1.0 {
      right.Update(p.right);
    }
  }

  /**
   * The reader loop body for the pairs of one section: a -1 value skips the
   * update of its eye's statistics, but the file's vectors keep it.
   */
  method AddWindow(pairs: seq<Extract.Pair>, left: Accumulator, right: Accumulator)
    returns (fileLeft: seq<real>, fileRight: seq<real>)
    requires left != right && left.Valid() && right.Valid()
    modifies left, right
    ensures left.Valid() && right.Valid()
    ensures left.values == old(left.values) + Used(Lefts(pairs))
    ensures right.values == old(right.values) + Used(Rights(pairs))
    ensures fileLeft == Lefts(pairs) && fileRight == Rights(pairs)
  {
    fileLeft, fileRight := [], [];
    ghost var left0, right0 := left.values, right.values;
    for i := 0 to |pairs|
      invariant left.Valid() && right.Valid()
      invariant fileLeft == Lefts(pairs[..i]) && fileRight == Rights(pairs[..i])
      invariant left.values == left0 + Used(fileLeft)
      invariant right.values == right0 + Used(fileRight)
    {
      var p := pairs[i];
      PairsPrefix(pairs, i);
      Taken(left0, fileLeft, p.left, left.values);
      Taken(right0, fileRight, p.right, right.values);
      TakePair(p, left, right);
      fileLeft := fileLeft + [p.left];
      fileRight := fileRight + [p.right];
    }
    assert pairs[..|pairs|] == pairs;
  }

  /** One more value: the statistics take it in unless it is -1, the file vector always. */
  lemma Taken(start: seq<real>, file: seq<real>, v: real, taken: seq<real>)
    requires taken == start + Used(file)
    ensures (if v == -1.0 then taken else taken + [v]) == start + Used(file + [v])
  {
    UsedSnoc(file, v);
  }

  /**
   * One extracted pupil file: its two sections are read, each pair updates
   * `global`, and each of the file's four averages that is not -1 updates
   * `person`.
   */
  method AddPupilFile(lines: seq<string>, parse2: string -> Option<Extract.Pair>, global: EyeStats, person: EyeStats)
    requires global.Valid() && person.Valid() && global.Repr !! person.Repr
    modifies global.Repr, person.Repr
    ensures global.Valid() && person.Valid()
    ensures var (b, a) := Split(lines, NoneOf4(), parse2);
            && global.leftBefore.values == old(global.leftBefore.values) + Used(Lefts(b))
            && global.rightBefore.values == old(global.rightBefore.values) + Used(Rights(b))
            && global.leftAfter.values == old(global.leftAfter.values) + Used(Lefts(a))
            && global.rightAfter.values == old(global.rightAfter.values) + Used(Rights(a))
    ensures var (b, a) := Split(lines, NoneOf4(), parse2);
            && person.leftBefore.values == PupilReport.Keep(old(person.leftBefore.values), PersonEntry(Lefts(b)))
            && person.rightBefore.values == PupilReport.Keep(old(person.rightBefore.values), PersonEntry(Rights(b)))
            && person.leftAfter.values == PupilReport.Keep(old(person.leftAfter.values), PersonEntry(Lefts(a)))
            && person.rightAfter.values == PupilReport.Keep(old(person.rightAfter.values), PersonEntry(Rights(a)))
  {
    var before, after := ReadSections(lines, NoneOf4(), parse2);
    var lb, rb, la, ra := AddToGlobal(before, after, global);
    AddToPerson(person, lb, rb, la, ra);
  }

  /** Both sections of a file into the all-data-points statistics; the file's own vectors come back. */
  method AddToGlobal(before: seq<Extract.Pair>, after: seq<Extract.Pair>, global: EyeStats)
    returns (lb: seq<real>, rb: seq<real>, la: seq<real>, ra: seq<real>)
    requires global.Valid()
    modifies global.Repr
    ensures global.Valid()
    ensures global.leftBefore.values == old(global.leftBefore.values) + Used(Lefts(before))
    ensures global.rightBefore.values == old(global.rightBefore.values) + Used(Rights(before))
    ensures global.leftAfter.values == old(global.leftAfter.values) + Used(Lefts(after))
    ensures global.rightAfter.values == old(global.rightAfter.values) + Used(Rights(after))
    ensures lb == Lefts(before) && rb == Rights(before) && la == Lefts(after) && ra == Rights(after)
  {
    lb, rb := AddWindow(before, global.leftBefore, global.rightBefore);
    la, ra := AddWindow(after, global.leftAfter, global.rightAfter);
  }

  /** Each of a file's four averages that is not -1 into the per-person statistics. */
  method AddToPerson(person: EyeStats, lb: seq<real>, rb: seq<real>, la: seq<real>, ra: seq<real>)
    requires person.Valid()
    modifies person.Repr
    ensures person.Valid()
    ensures person.leftBefore.values == PupilReport.Keep(old(person.leftBefore.values), PersonEntry(lb))
    ensures person.rightBefore.values == PupilReport.Keep(old(person.rightBefore.values), PersonEntry(rb))
    ensures person.leftAfter.values == PupilReport.Keep(old(person.leftAfter.values), PersonEntry(la))
    ensures person.rightAfter.values == PupilReport.Keep(old(person.rightAfter.values), PersonEntry(ra))
  {
    AddPerson(person.leftBefore, lb);
    AddPerson(person.rightBefore, rb);
    AddPerson(person.leftAfter, la);
    AddPerson(person.rightAfter, ra);
  }
}
