// The slab sum as a measure: covered boxes are redundant, and inclusion-exclusion
// holds for all real widths.
module BoxAlgebra {
  import opened RealSets
  import opened Hypervolume

  // Componentwise order on boxes: a lies inside b.
  predicate Within(a: Box, b: Box) {
    |a| == |b| && forall i :: 0 <= i < |a| ==> a[i] <= b[i]
  }

  // ---- adding a covered box changes nothing ---------------------------------

  lemma {:induction false} SameSections(a: set<Box>, b: set<Box>, d: nat, levels: seq<real>)
    requires d > 1 && WellFormed(a, d) && WellFormed(b, d)
    requires forall i :: 1 <= i < |levels| ==> Section(a, d, levels[i]) == Section(b, d, levels[i])
    ensures SlabSum(a, d, levels) == SlabSum(b, d, levels)
    decreases |levels|
  {
    if |levels| >= 2 {
      forall i | 1 <= i < |levels[1..]|
        ensures Section(a, d, levels[1..][i]) == Section(b, d, levels[1..][i])
      {
        assert levels[1..][i] == levels[i + 1];
      }
      SameSections(a, b, d, levels[1..]);
    }
  }

  // One list of levels that serves a set of boxes and all its subsets.
  lemma SharedLevels(all: set<Box>, some: set<Box>, d: nat)
    requires d > 0 && WellFormed(all, d) && some <= all
    ensures WellFormed(some, d)
    ensures LevelsFor(all, d, Levels(all, d)) && LevelsFor(some, d, Levels(all, d))
  {
    var levels := Levels(all, d);
    assert 0.0 in levels && levels[0] in levels;
    assert levels[0] == 0.0;
    assert Lasts(some, d) <= Lasts(all, d);
  }

  lemma WithinParts(a: Box, b: Box)
    requires Within(a, b) && |a| > 0
    ensures Last(a) <= Last(b) && Within(Init(a), Init(b))
  {
  }

  // A box inside another box of the set adds no volume.
  lemma {:induction false} CoveredBoxIsRedundant(boxes: set<Box>, d: nat, b: Box, cover: Box)
    requires d > 0 && WellFormed(boxes + {b}, d) && WellFormed(boxes, d)
    requires cover in boxes && Within(b, cover)
    ensures Union(boxes + {b}, d) == Union(boxes, d)
    decreases d, 0
  {
    WithinParts(b, cover);
    if d == 1 {
      SameLargest(boxes, b, cover);
    } else {
      var levels := Levels(boxes + {b}, d);
      SharedLevels(boxes + {b}, boxes, d);
      forall i | 1 <= i < |levels|
        ensures Section(boxes + {b}, d, levels[i]) == Section(boxes, d, levels[i])
      {
        CoveredBoxSection(boxes, d, b, cover, levels[i]);
      }
      SameSections(boxes + {b}, boxes, d, levels);
      AnyLevels(boxes + {b}, d, levels);
      AnyLevels(boxes, d, levels);
    }
  }

  lemma SameLargest(boxes: set<Box>, b: Box, cover: Box)
    requires WellFormed(boxes + {b}, 1) && WellFormed(boxes, 1)
    requires cover in boxes && Last(b) <= Last(cover)
    ensures Union(boxes + {b}, 1) == Union(boxes, 1)
  {
    assert Last(cover) in Lasts(boxes, 1);
    assert Lasts(boxes + {b}, 1) == Lasts(boxes, 1) + {Last(b)};
  }

  lemma {:induction false} CoveredBoxSection(boxes: set<Box>, d: nat, b: Box, cover: Box, t: real)
    requires d > 1 && WellFormed(boxes + {b}, d) && WellFormed(boxes, d)
    requires cover in boxes && Last(b) <= Last(cover) && Within(Init(b), Init(cover))
    ensures Section(boxes + {b}, d, t) == Section(boxes, d, t)
    decreases d - 1, 1
  {
    var slice := Slice(boxes, d, t);
    if Last(b) >= t {
      assert Slice(boxes + {b}, d, t) == slice + {Init(b)};
      assert Init(cover) in slice;
      CoveredBoxIsRedundant(slice, d - 1, Init(b), Init(cover));
    } else {
      assert Slice(boxes + {b}, d, t) == slice;
    }
  }

  ghost predicate CoveredBy(b: Box, kept: set<Box>) {
    exists k :: k in kept && Within(b, k)
  }

  // Dropping every box that lies inside a kept one keeps the volume.
  lemma {:induction false} CoveringSubset(all: set<Box>, kept: set<Box>, d: nat)
    requires d > 0 && WellFormed(all, d) && kept <= all
    requires forall b :: b in all ==> CoveredBy(b, kept)
    ensures WellFormed(kept, d) && Union(all, d) == Union(kept, d)
    decreases all
  {
    hide Union, Within;
    var extra := all - kept;
    if extra == {} {
      forall b | b in all ensures b in kept { assert b !in extra; }
      assert all == kept;
    } else {
      var b := Pick(extra);
      assert b in all && b !in kept;
      var cover :| cover in kept && Within(b, cover);
      var rest := all - {b};
      assert rest + {b} == all && cover in rest;
      assert Union(all, d) == Union(rest, d) by { CoveredBoxIsRedundant(rest, d, b, cover); }
      CoveringSubset(rest, kept, d);
    }
  }

  // ---- inclusion-exclusion: an independent definition of the measure ----------

  function Volume(b: Box): real {
    if |b| == 0 then 1.0 else Volume(Init(b)) * Last(b)
  }

  function Min(x: real, y: real): real {
    if x <= y then x else y
  }

  // The intersection of two boxes anchored at the same corner.
  function Meet(a: Box, b: Box): (r: Box)
    requires |a| == |b|
    ensures |r| == |a|
  {
    if |a| == 0 then [] else Meet(Init(a), Init(b)) + [Min(Last(a), Last(b))]
  }

  lemma MeetParts(a: Box, b: Box)
    requires |a| == |b| > 0
    ensures Last(Meet(a, b)) == Min(Last(a), Last(b)) && Init(Meet(a, b)) == Meet(Init(a), Init(b))
  {
  }

  lemma {:induction false} MeetIsGreatest(a: Box, b: Box)
    requires |a| == |b|
    ensures forall i :: 0 <= i < |a| ==> Meet(a, b)[i] == Min(a[i], b[i])
    ensures Within(Meet(a, b), a) && Within(Meet(a, b), b)
    ensures forall x :: Within(x, a) && Within(x, b) ==> Within(x, Meet(a, b))
  {
    if |a| > 0 {
      MeetIsGreatest(Init(a), Init(b));
      forall i | 0 <= i < |a| ensures Meet(a, b)[i] == Min(a[i], b[i]) {
        if i < |a| - 1 { assert Meet(a, b)[i] == Meet(Init(a), Init(b))[i]; }
      }
    }
  }

  function Meets(a: Box, boxes: set<Box>): set<Box>
    requires forall b :: b in boxes ==> |b| == |a|
  {
    set b | b in boxes :: Meet(a, b)
  }

  lemma MeetsWellFormed(boxes: set<Box>, d: nat, b: Box)
    requires d > 0 && WellFormed(boxes + {b}, d) && WellFormed(boxes, d)
    ensures WellFormed(Meets(b, boxes), d)
    ensures Lasts(Meets(b, boxes), d) <= Lasts(boxes + {b}, d)
  {
    assert b in boxes + {b};
    forall m | m in Meets(b, boxes) ensures |m| == d && (forall i :: 0 <= i < d ==> m[i] > 0.0) {
      var a :| a in boxes && m == Meet(b, a);
      MeetIsGreatest(b, a);
    }
    forall x | x in Lasts(Meets(b, boxes), d) ensures x in Lasts(boxes + {b}, d) {
      var a :| a in boxes && x == Last(Meet(b, a));
      MeetParts(b, a);
      assert a in boxes + {b};
    }
  }

  // Main result: the recursive slab sum obeys inclusion-exclusion, so it is the
  // measure of the union whatever the real widths are.
  lemma {:induction false} InclusionExclusion(boxes: set<Box>, d: nat, b: Box)
    requires d > 0 && WellFormed(boxes + {b}, d) && WellFormed(boxes, d)
    ensures WellFormed(Meets(b, boxes), d)
    ensures Union(boxes + {b}, d) == Union(boxes, d) + Volume(b) - Union(Meets(b, boxes), d)
    decreases d, 0
  {
    MeetsWellFormed(boxes, d, b);
    if d == 1 {
      LengthInclusionExclusion(boxes, b);
    } else {
      var levels := Levels(boxes + {b}, d);
      SharedLevels(boxes + {b}, boxes, d);
      forall i | 1 <= i < |levels| ensures SectionsBalance(boxes, d, b, levels[i]) {
        SectionInclusionExclusion(boxes, d, b, levels[i]);
      }
      SumInclusionExclusion(boxes, d, b, levels);
    }
  }

  lemma SumInclusionExclusion(boxes: set<Box>, d: nat, b: Box, levels: seq<real>)
    requires d > 1 && WellFormed(boxes + {b}, d) && WellFormed(boxes, d) && WellFormed(Meets(b, boxes), d)
    requires LevelsFor(boxes + {b}, d, levels) && LevelsFor(boxes, d, levels)
    requires forall i :: 1 <= i < |levels| ==> SectionsBalance(boxes, d, b, levels[i])
    ensures Union(boxes + {b}, d) == Union(boxes, d) + Volume(b) - Union(Meets(b, boxes), d)
  {
    BalanceApplies(boxes, d, b, levels);
    hide *;
    AnyLevels(boxes + {b}, d, levels);
    AnyLevels(boxes, d, levels);
    AnyLevels(Meets(b, boxes), d, levels);
    SlabsBalance(boxes, d, b, levels);
    VolumeByHeight(b);
  }

  lemma BalanceApplies(boxes: set<Box>, d: nat, b: Box, levels: seq<real>)
    requires d > 1 && WellFormed(boxes + {b}, d) && WellFormed(boxes, d) && WellFormed(Meets(b, boxes), d)
    requires LevelsFor(boxes + {b}, d, levels)
    ensures LevelsFor(Meets(b, boxes), d, levels)
    ensures |b| == d && Last(b) > 0.0 && Last(b) in levels
    ensures |levels| > 0 && Ascending(levels) && levels[0] == 0.0
  {
    MeetsWellFormed(boxes, d, b);
    assert b in boxes + {b};
    assert Last(b) in Lasts(boxes + {b}, d);
  }

  lemma VolumeByHeight(b: Box)
    requires |b| > 0 && Last(b) > 0.0
    ensures Above(b, 0.0) == Volume(b)
  {
  }

  ghost predicate SectionsBalance(boxes: set<Box>, d: nat, b: Box, t: real)
    requires d > 1 && WellFormed(boxes + {b}, d) && WellFormed(boxes, d) && WellFormed(Meets(b, boxes), d)
  {
    && |b| == d
    && Section(boxes + {b}, d, t) == Section(boxes, d, t) - Section(Meets(b, boxes), d, t)
                                     + if t <= Last(b) then Volume(Init(b)) else 0.0
  }

  lemma LengthInclusionExclusion(boxes: set<Box>, b: Box)
    requires WellFormed(boxes + {b}, 1) && WellFormed(boxes, 1) && WellFormed(Meets(b, boxes), 1)
    ensures Union(boxes + {b}, 1) == Union(boxes, 1) + Volume(b) - Union(Meets(b, boxes), 1)
  {
    assert b in boxes + {b};
    assert Volume(b) == Last(b) by { assert Volume(Init(b)) == 1.0; }
    hide Volume, Meets;
    if boxes == {} {
      assert Meets(b, boxes) == {};
      LargestOfBoxes({b}, b);
      assert boxes + {b} == {b};
    } else {
      var top :| top in boxes && Last(top) == Union(boxes, 1);
      LargestMeet(boxes, b, top);
      forall a | a in boxes ensures Last(a) <= Last(top) { assert Last(a) in Lasts(boxes, 1); }
      LargestOfBoxes(boxes + {b}, if Last(b) <= Last(top) then top else b);
    }
  }

  lemma LargestOfBoxes(boxes: set<Box>, top: Box)
    requires WellFormed(boxes, 1) && top in boxes
    requires forall a :: a in boxes ==> Last(a) <= Last(top)
    ensures Union(boxes, 1) == Last(top)
  {
    assert Last(top) in Lasts(boxes, 1);
  }

  lemma LargestMeet(boxes: set<Box>, b: Box, top: Box)
    requires WellFormed(boxes, 1) && |b| == 1 && WellFormed(Meets(b, boxes), 1)
    requires top in boxes && Last(top) == Union(boxes, 1)
    ensures Union(Meets(b, boxes), 1) == Min(Last(b), Last(top))
  {
    MeetParts(b, top);
    assert Meet(b, top) in Meets(b, boxes);
    forall m | m in Meets(b, boxes) ensures Last(m) <= Last(Meet(b, top)) {
      var a :| a in boxes && m == Meet(b, a);
      MeetParts(b, a);
      assert Last(a) in Lasts(boxes, 1);
    }
    LargestOfBoxes(Meets(b, boxes), Meet(b, top));
  }

  lemma {:induction false} SectionInclusionExclusion(boxes: set<Box>, d: nat, b: Box, t: real)
    requires d > 1 && WellFormed(boxes + {b}, d) && WellFormed(boxes, d) && WellFormed(Meets(b, boxes), d)
    ensures SectionsBalance(boxes, d, b, t)
    decreases d - 1, 1
  {
    assert b in boxes + {b};
    hide Union, Meets, Volume;
    if t <= Last(b) {
      SliceWithBox(boxes, d, b, t);
      hide Slice, WellFormed;
      SliceOfMeets(boxes, d, b, t);
      InclusionExclusion(Slice(boxes, d, t), d - 1, Init(b));
    } else {
      assert Slice(boxes + {b}, d, t) == Slice(boxes, d, t);
      hide Slice, WellFormed;
      NoMeetsAbove(boxes, d, b, t);
    }
  }

  lemma SliceWithBox(boxes: set<Box>, d: nat, b: Box, t: real)
    requires d > 1 && WellFormed(boxes + {b}, d) && WellFormed(boxes, d) && |b| == d && t <= Last(b)
    ensures Slice(boxes + {b}, d, t) == Slice(boxes, d, t) + {Init(b)}
    ensures WellFormed(Slice(boxes, d, t) + {Init(b)}, d - 1)
  {
  }

  lemma NoMeetsAbove(boxes: set<Box>, d: nat, b: Box, t: real)
    requires d > 1 && |b| == d && WellFormed(boxes, d) && WellFormed(Meets(b, boxes), d)
    requires Last(b) < t
    ensures Section(Meets(b, boxes), d, t) == 0.0
  {
    forall m | m in Meets(b, boxes) ensures Last(m) < t {
      var a :| a in boxes && m == Meet(b, a);
      MeetParts(b, a);
    }
    assert Slice(Meets(b, boxes), d, t) == {};
  }

  lemma SliceOfMeets(boxes: set<Box>, d: nat, b: Box, t: real)
    requires d > 1 && |b| == d && WellFormed(boxes, d) && WellFormed(Meets(b, boxes), d)
    requires t <= Last(b)
    ensures Slice(Meets(b, boxes), d, t) == Meets(Init(b), Slice(boxes, d, t))
  {
    forall a | a in boxes
      ensures Last(Meet(b, a)) == Min(Last(b), Last(a)) && Init(Meet(b, a)) == Meet(Init(b), Init(a))
    {
      MeetParts(b, a);
    }
  }

  // The part of a box above a level.
  function Above(b: Box, level: real): real
    requires |b| > 0
  {
    if level < Last(b) then Volume(Init(b)) * (Last(b) - level) else 0.0
  }

  lemma {:induction false} SlabsBalance(boxes: set<Box>, d: nat, b: Box, levels: seq<real>)
    requires d > 1 && WellFormed(boxes + {b}, d) && WellFormed(boxes, d) && WellFormed(Meets(b, boxes), d)
    requires |b| == d && Ascending(levels) && |levels| > 0
    requires Last(b) in levels || Last(b) < levels[0]
    requires forall i :: 1 <= i < |levels| ==> SectionsBalance(boxes, d, b, levels[i])
    ensures SlabSum(boxes + {b}, d, levels) == SlabSum(boxes, d, levels) - SlabSum(Meets(b, boxes), d, levels)
                                               + Above(b, levels[0])
    decreases |levels|
  {
    if |levels| > 1 {
      BalanceContinues(boxes, d, b, levels);
      SlabsBalance(boxes, d, b, levels[1..]);
      OneSlabBalance(boxes, d, b, levels);
      hide *;
      SlabSumStep(boxes + {b}, d, levels);
      SlabSumStep(boxes, d, levels);
      SlabSumStep(Meets(b, boxes), d, levels);
    }
  }

  lemma BalanceContinues(boxes: set<Box>, d: nat, b: Box, levels: seq<real>)
    requires d > 1 && WellFormed(boxes + {b}, d) && WellFormed(boxes, d) && WellFormed(Meets(b, boxes), d)
    requires |b| == d && Ascending(levels) && |levels| > 1
    requires Last(b) in levels || Last(b) < levels[0]
    requires forall i :: 1 <= i < |levels| ==> SectionsBalance(boxes, d, b, levels[i])
    ensures Last(b) in levels[1..] || Last(b) < levels[1..][0]
    ensures forall i :: 1 <= i < |levels[1..]| ==> SectionsBalance(boxes, d, b, levels[1..][i])
    ensures Last(b) <= levels[0] || levels[1] <= Last(b)
  {
    var rest := levels[1..];
    forall i | 1 <= i < |rest| ensures SectionsBalance(boxes, d, b, rest[i]) { assert rest[i] == levels[i + 1]; }
    if Last(b) in levels {
      var k :| 0 <= k < |levels| && levels[k] == Last(b);
      assert k > 0 ==> rest[k - 1] == Last(b);
    }
  }

  lemma OneSlabBalance(boxes: set<Box>, d: nat, b: Box, levels: seq<real>)
    requires d > 1 && WellFormed(boxes + {b}, d) && WellFormed(boxes, d) && WellFormed(Meets(b, boxes), d)
    requires |b| == d && |levels| > 1 && levels[0] < levels[1]
    requires Last(b) <= levels[0] || levels[1] <= Last(b)
    requires SectionsBalance(boxes, d, b, levels[1])
    ensures Slab(levels[0], levels[1], Section(boxes + {b}, d, levels[1])) + Above(b, levels[1..][0])
         == Slab(levels[0], levels[1], Section(boxes, d, levels[1]))
            - Slab(levels[0], levels[1], Section(Meets(b, boxes), d, levels[1])) + Above(b, levels[0])
  {
    hide Slab, Above, Volume;
    SlabArithmetic(levels[0], levels[1], b,
      Section(boxes + {b}, d, levels[1]), Section(boxes, d, levels[1]), Section(Meets(b, boxes), d, levels[1]));
  }

  lemma SlabArithmetic(lo: real, hi: real, b: Box, all: real, some: real, meets: real)
    requires |b| > 0 && lo < hi && (Last(b) <= lo || hi <= Last(b))
    requires all == some - meets + if hi <= Last(b) then Volume(Init(b)) else 0.0
    ensures Slab(lo, hi, all) + Above(b, hi) == Slab(lo, hi, some) - Slab(lo, hi, meets) + Above(b, lo)
  {
    var v := Volume(Init(b));
    if hi <= Last(b) {
      assert v * (Last(b) - lo) == v * (Last(b) - hi) + (hi - lo) * v;
    }
  }
}
