// The recursive slab sum of feasible_hypervolume (templates/_shared/objectives.py).
module Hypervolume {
  import opened RealSets

  type Box = seq<real>

  predicate WellFormed(boxes: set<Box>, d: nat) {
    forall b :: b in boxes ==> |b| == d && forall i :: 0 <= i < d ==> b[i] > 0.0
  }

  // ---- the recursion of feasible_hypervolume --------------------------------

  function Last(b: Box): real
    requires |b| > 0
  {
    b[|b| - 1]
  }

  function Init(b: Box): Box
    requires |b| > 0
  {
    b[..|b| - 1]
  }

  function Lasts(boxes: set<Box>, d: nat): set<real>
    requires d > 0 && WellFormed(boxes, d)
  {
    set b | b in boxes :: Last(b)
  }

  function Slice(boxes: set<Box>, d: nat, upper: real): (r: set<Box>)
    requires d > 0 && WellFormed(boxes, d)
    ensures WellFormed(r, d - 1)
  {
    set b | b in boxes && Last(b) >= upper :: Init(b)
  }

  function Levels(boxes: set<Box>, d: nat): (r: seq<real>)
    requires d > 0 && WellFormed(boxes, d)
  {
    Sorted({0.0} + Lasts(boxes, d))
  }

  function Union(boxes: set<Box>, d: nat): real
    requires d > 0 && WellFormed(boxes, d)
    decreases d, 1, 0
  {
    if boxes == {} then 0.0
    else if d == 1 then
      assert Lasts(boxes, 1) != {} by { var b := Pick(boxes); assert Last(b) in Lasts(boxes, 1); }
      Largest(Lasts(boxes, 1))
    else
      SlabSum(boxes, d, Levels(boxes, d))
  }

  // The slabs between consecutive levels: the height of each times the measure of
  // the cross-section at its top.
  function SlabSum(boxes: set<Box>, d: nat, levels: seq<real>): real
    requires d > 1 && WellFormed(boxes, d)
    decreases d, 0, |levels|
  {
    if |levels| < 2 then 0.0
    else Slab(levels[0], levels[1], Section(boxes, d, levels[1])) + SlabSum(boxes, d, levels[1..])
  }

  function Slab(lower: real, upper: real, section: real): real {
    (upper - lower) * section
  }

  // The measure of the cross-section just below a level.
  function Section(boxes: set<Box>, d: nat, upper: real): real
    requires d > 1 && WellFormed(boxes, d)
    decreases d, 0, 0
  {
    Union(Slice(boxes, d, upper), d - 1)
  }

  // ---- any finer grid of levels gives the same sum --------------------------

  function Without(levels: seq<real>, k: nat): seq<real>
    requires k < |levels|
  {
    levels[..k] + levels[k + 1..]
  }

  // Dropping a level at which the cross-section does not change merges two slabs.
  lemma {:induction false} DropLevel(boxes: set<Box>, d: nat, levels: seq<real>, k: nat)
    requires d > 1 && WellFormed(boxes, d)
    requires 0 < k < |levels|
    requires Section(boxes, d, levels[k]) == if k + 1 < |levels| then Section(boxes, d, levels[k + 1]) else 0.0
    ensures SlabSum(boxes, d, levels) == SlabSum(boxes, d, Without(levels, k))
    decreases k
  {
    var dropped := Without(levels, k);
    if |levels| == 2 {
      OneLevel(boxes, d, levels, dropped);
    } else {
      hide *;
      WithoutSizes(levels, k);
      SlabSumStep(boxes, d, levels);
      SlabSumStep(boxes, d, dropped);
      if k > 1 {
        WithoutTail(levels, k);
        DropLevel(boxes, d, levels[1..], k - 1);
      } else {
        WithoutSecond(levels);
        SlabSumStep(boxes, d, levels[1..]);
        MergeSlabs(levels[0], levels[1], levels[2], Section(boxes, d, levels[2]));
      }
    }
  }

  lemma WithoutSizes(levels: seq<real>, k: nat)
    requires 0 < k < |levels|
    ensures |Without(levels, k)| == |levels| - 1 && Without(levels, k)[0] == levels[0]
  {
  }

  lemma WithoutTail(levels: seq<real>, k: nat)
    requires 1 < k < |levels|
    ensures Without(levels[1..], k - 1) == Without(levels, k)[1..]
    ensures Without(levels, k)[1] == levels[1]
  {
  }

  lemma WithoutSecond(levels: seq<real>)
    requires |levels| > 2
    ensures levels[1..][1..] == Without(levels, 1)[1..]
    ensures Without(levels, 1)[1] == levels[2]
  {
  }

  lemma OneLevel(boxes: set<Box>, d: nat, levels: seq<real>, dropped: seq<real>)
    requires d > 1 && WellFormed(boxes, d) && |levels| == 2 && |dropped| == 1
    requires Section(boxes, d, levels[1]) == 0.0
    ensures SlabSum(boxes, d, levels) == SlabSum(boxes, d, dropped)
  {
    hide Section, WellFormed;
  }

  lemma SlabSumStep(boxes: set<Box>, d: nat, levels: seq<real>)
    requires d > 1 && WellFormed(boxes, d) && |levels| >= 2
    ensures SlabSum(boxes, d, levels)
         == Slab(levels[0], levels[1], Section(boxes, d, levels[1])) + SlabSum(boxes, d, levels[1..])
  {
    hide Section, Slab, WellFormed;
  }

  lemma MergeSlabs(a: real, b: real, c: real, section: real)
    ensures Slab(a, b, section) + Slab(b, c, section) == Slab(a, c, section)
  {
  }

  ghost predicate LevelsFor(boxes: set<Box>, d: nat, levels: seq<real>)
    requires d > 0 && WellFormed(boxes, d)
  {
    && Ascending(levels)
    && |levels| > 0 && levels[0] == 0.0
    && (forall x :: x in Lasts(boxes, d) ==> x in levels)
  }

  lemma {:induction false} AnyLevels(boxes: set<Box>, d: nat, levels: seq<real>)
    requires d > 1 && WellFormed(boxes, d) && LevelsFor(boxes, d, levels)
    ensures Union(boxes, d) == SlabSum(boxes, d, levels)
    decreases |levels|
  {
    var exact := {0.0} + Lasts(boxes, d);
    if k: nat :| k < |levels| && levels[k] !in exact {
      SameSlice(boxes, d, levels, k);
      DropLevel(boxes, d, levels, k);
      StillLevels(boxes, d, levels, k);
      AnyLevels(boxes, d, Without(levels, k));
    } else {
      assert forall x :: x in levels <==> x in exact;
      SortedUnique(levels, Sorted(exact));
      if boxes == {} { EmptySlabs(d, levels); }
    }
  }

  lemma StillLevels(boxes: set<Box>, d: nat, levels: seq<real>, k: nat)
    requires d > 1 && WellFormed(boxes, d) && LevelsFor(boxes, d, levels)
    requires 0 < k < |levels| && levels[k] !in Lasts(boxes, d)
    ensures LevelsFor(boxes, d, Without(levels, k))
  {
    forall x | x in Lasts(boxes, d) ensures x in Without(levels, k) {
      var i :| 0 <= i < |levels| && levels[i] == x;
      assert levels[i] == Without(levels, k)[if i < k then i else i - 1];
    }
  }

  lemma SameSlice(boxes: set<Box>, d: nat, levels: seq<real>, k: nat)
    requires d > 1 && WellFormed(boxes, d) && LevelsFor(boxes, d, levels)
    requires 0 < k < |levels| && levels[k] !in Lasts(boxes, d)
    ensures Section(boxes, d, levels[k])
         == if k + 1 < |levels| then Section(boxes, d, levels[k + 1]) else 0.0
  {
    forall b | b in boxes
      ensures Last(b) < levels[k] || (k + 1 < |levels| && Last(b) >= levels[k + 1])
    {
      assert Last(b) in Lasts(boxes, d);
      var i :| 0 <= i < |levels| && levels[i] == Last(b);
    }
    if k + 1 < |levels| {
      assert Slice(boxes, d, levels[k]) == Slice(boxes, d, levels[k + 1]);
    } else {
      assert Slice(boxes, d, levels[k]) == {};
    }
  }

  lemma {:induction false} EmptySlabs(d: nat, levels: seq<real>)
    requires d > 1
    ensures SlabSum({}, d, levels) == 0.0
    decreases |levels|
  {
    if |levels| >= 2 {
      assert Slice({}, d, levels[1]) == {};
      assert Section({}, d, levels[1]) == 0.0;
      EmptySlabs(d, levels[1..]);
    }
  }
}
