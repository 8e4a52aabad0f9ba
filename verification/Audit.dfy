// The audit's independent two-dimensional volume, benchmarks/ax_capabilities/audit.py.
module Audit {
  import opened Wrappers
  import opened RealSets
  import opened Hypervolume
  import opened BoxAlgebra
  import opened Sorting
  import opened Objectives
  import opened Pareto
  import opened Outcomes

  type Point = (real, real)

  predicate PointAtMost(a: Point, b: Point) {
    a.0 < b.0 || (a.0 == b.0 && a.1 <= b.1)
  }

  function PointOrder(): (Point, Point) -> bool {
    (a, b) => PointAtMost(a, b)
  }

  function PointBox(p: Point, lossRef: real, gainRef: real): Box {
    [lossRef - p.0, p.1 - gainRef]
  }

  predicate Counts(p: Point, lossRef: real, gainRef: real) {
    p.0 < lossRef && p.1 > gainRef
  }

  // The boxes of the points inside the reference, loss first, gain last.
  function PointBoxes(points: seq<Point>, lossRef: real, gainRef: real): (r: set<Box>)
    ensures WellFormed(r, 2)
  {
    set p | p in points && Counts(p, lossRef, gainRef) :: PointBox(p, lossRef, gainRef)
  }

  // A set of boxes with a largest one has that one's volume.
  lemma TopBoxIsUnion(boxes: set<Box>, d: nat, top: Box)
    requires d > 0 && WellFormed(boxes, d) && top in boxes
    requires forall b :: b in boxes ==> Within(b, top)
    ensures Union(boxes, d) == Volume(top)
  {
    forall b | b in boxes ensures CoveredBy(b, {top}) { assert top in {top}; }
    CoveringSubset(boxes, {top}, d);
    InclusionExclusion({}, d, top);
    assert {} + {top} == {top};
    assert Meets(top, {}) == {};
  }

  // A vertical strip of a given width between two heights.
  function Strip(width: real, floor: real, top: real): real {
    width * (top - floor)
  }

  lemma PairVolume(b: Box)
    requires |b| == 2
    ensures Volume(b) == Strip(b[0], 0.0, b[1])
  {
    assert Init(Init(b)) == [];
    assert Volume(Init(b)) == Volume([]) * b[0];
  }

  lemma StripDifference(width: real, floor: real, top: real)
    ensures Strip(width, 0.0, top) - Strip(width, 0.0, floor) == Strip(width, floor, top)
  {
  }

  // Every old box is at least as wide as b and at most as tall as best.
  ghost predicate Staircase(boxes: set<Box>, best: Box, b: Box) {
    && |b| == 2 && |best| == 2 && best in boxes && best[1] <= b[1]
    && forall x :: x in boxes ==> |x| == 2 && b[0] <= x[0] && x[1] <= best[1]
  }

  lemma MeetsUnderTop(boxes: set<Box>, best: Box, b: Box)
    requires Staircase(boxes, best, b)
    ensures Meet(b, best) == [b[0], best[1]] && Meet(b, best) in Meets(b, boxes)
    ensures forall m :: m in Meets(b, boxes) ==> Within(m, Meet(b, best))
  {
    forall x | x in boxes ensures Meet(b, x) == [b[0], x[1]] { MeetIsGreatest(b, x); }
  }

  lemma StaircaseShape(boxes: set<Box>, best: Box, b: Box)
    requires Staircase(boxes, best, b)
    ensures |b| == 2 && |best| == 2 && forall x :: x in boxes ==> |x| == |b|
  {
  }

  // A narrower, taller box adds the strip above the tallest box so far.
  lemma NewStrip(boxes: set<Box>, best: Box, b: Box)
    requires WellFormed(boxes, 2) && WellFormed(boxes + {b}, 2) && Staircase(boxes, best, b)
    ensures Union(boxes + {b}, 2) == Union(boxes, 2) + Strip(b[0], best[1], b[1])
  {
    hide *;
    StaircaseShape(boxes, best, b);
    MeetsUnderTop(boxes, best, b);
    InclusionExclusion(boxes, 2, b);
    TopBoxIsUnion(Meets(b, boxes), 2, Meet(b, best));
    PairVolume(b);
    PairVolume(Meet(b, best));
    StripDifference(b[0], best[1], b[1]);
  }

  // What the sweep knows after some prefix of the sorted points.
  ghost predicate Swept(boxes: set<Box>, bestGain: real, gainRef: real) {
    && (forall x :: x in boxes ==> |x| == 2 && x[1] <= bestGain - gainRef)
    && if boxes == {} then bestGain == gainRef else exists t :: t in boxes && t[1] == bestGain - gainRef
  }

  // The next counted point taller than the best so far adds its strip.
  lemma SweepUp(boxes: set<Box>, bestGain: real, lossRef: real, gainRef: real, p: Point)
    requires WellFormed(boxes, 2) && Swept(boxes, bestGain, gainRef)
    requires forall x :: x in boxes ==> |x| == 2 && lossRef - p.0 <= x[0]
    requires p.0 < lossRef && p.1 > bestGain >= gainRef
    ensures var b := PointBox(p, lossRef, gainRef);
            && WellFormed(boxes + {b}, 2)
            && Union(boxes + {b}, 2) == Union(boxes, 2) + Strip(lossRef - p.0, bestGain, p.1)
            && Swept(boxes + {b}, p.1, gainRef)
  {
    hide Union, Strip;
    var b := PointBox(p, lossRef, gainRef);
    assert b in boxes + {b};
    ShiftStrip(lossRef - p.0, bestGain, p.1, gainRef);
    if boxes == {} {
      assert boxes + {b} == {b};
      FirstStrip(b, boxes);
    } else {
      var best :| best in boxes && best[1] == bestGain - gainRef;
      assert Staircase(boxes, best, b);
      hide *;
      NewStrip(boxes, best, b);
    }
  }

  lemma FirstStrip(b: Box, none: set<Box>)
    requires WellFormed({b}, 2) && |b| == 2 && none == {}
    ensures Union({b}, 2) == Union(none, 2) + Strip(b[0], 0.0, b[1])
  {
    hide Strip;
    TopBoxIsUnion({b}, 2, b);
    PairVolume(b);
  }

  lemma ShiftStrip(width: real, floor: real, top: real, shift: real)
    ensures Strip(width, floor - shift, top - shift) == Strip(width, floor, top)
  {
  }

  // A counted point no taller than the best so far is covered by that best.
  lemma SweepFlat(boxes: set<Box>, bestGain: real, lossRef: real, gainRef: real, p: Point)
    requires WellFormed(boxes, 2) && Swept(boxes, bestGain, gainRef)
    requires forall x :: x in boxes ==> |x| == 2 && lossRef - p.0 <= x[0]
    requires p.0 < lossRef && gainRef < p.1 <= bestGain
    ensures var b := PointBox(p, lossRef, gainRef);
            && WellFormed(boxes + {b}, 2)
            && Union(boxes + {b}, 2) == Union(boxes, 2)
            && Swept(boxes + {b}, bestGain, gainRef)
  {
    var b := PointBox(p, lossRef, gainRef);
    assert boxes != {};
    var best :| best in boxes && best[1] == bestGain - gainRef;
    assert Within(b, best);
    CoveredBoxIsRedundant(boxes, 2, b, best);
    assert best in boxes + {b};
  }

  lemma PointBoxesStep(points: seq<Point>, i: nat, lossRef: real, gainRef: real)
    requires i < |points|
    ensures Counts(points[i], lossRef, gainRef) ==>
              PointBoxes(points[..i + 1], lossRef, gainRef)
              == PointBoxes(points[..i], lossRef, gainRef) + {PointBox(points[i], lossRef, gainRef)}
    ensures !Counts(points[i], lossRef, gainRef) ==>
              PointBoxes(points[..i + 1], lossRef, gainRef) == PointBoxes(points[..i], lossRef, gainRef)
  {
    assert points[..i + 1] == points[..i] + [points[i]];
  }

  lemma EarlierAreWider(points: seq<Point>, i: nat, lossRef: real, gainRef: real)
    requires i < |points| && SortedBy(points, PointOrder())
    ensures forall x :: x in PointBoxes(points[..i], lossRef, gainRef) ==> |x| == 2 && lossRef - points[i].0 <= x[0]
  {
    forall x | x in PointBoxes(points[..i], lossRef, gainRef) ensures |x| == 2 && lossRef - points[i].0 <= x[0] {
      var p :| p in points[..i] && Counts(p, lossRef, gainRef) && x == PointBox(p, lossRef, gainRef);
      var j :| 0 <= j < i && points[j] == p;
      assert PointOrder()(points[j], points[i]);
    }
  }

  lemma SortedPoints(points: seq<Point>)
    ensures SortedBy(Sort(points, PointOrder()), PointOrder())
    ensures forall lossRef, gainRef ::
              PointBoxes(Sort(points, PointOrder()), lossRef, gainRef) == PointBoxes(points, lossRef, gainRef)
  {
    SortSorts(points, PointOrder());
    SortPermutes(points, PointOrder());
    SameMembers(Sort(points, PointOrder()), points);
  }

  lemma NothingSwept(lossRef: real, gainRef: real)
    ensures Swept(PointBoxes([], lossRef, gainRef), gainRef, gainRef)
    ensures Union(PointBoxes([], lossRef, gainRef), 2) == 0.0
  {
    assert PointBoxes([], lossRef, gainRef) == {};
  }

  // Main result: the running-best sweep over the sorted points returns the
  // recursive hypervolume of the same points, ties and outsiders included.
  method Volume2D(points: seq<Point>, lossRef: real, gainRef: real) returns (total: real)
    ensures total == Union(PointBoxes(points, lossRef, gainRef), 2)
  {
    hide Strip, Union, Swept, PointBoxes, Sort;
    SortedPoints(points);
    var sorted := Sort(points, PointOrder());
    var bestGain := gainRef;
    total := 0.0;
    NothingSwept(lossRef, gainRef);
    assert sorted[..0] == [];
    for i := 0 to |sorted|
      invariant bestGain >= gainRef
      invariant Swept(PointBoxes(sorted[..i], lossRef, gainRef), bestGain, gainRef)
      invariant total == Union(PointBoxes(sorted[..i], lossRef, gainRef), 2)
    {
      var p := sorted[i];
      PointBoxesStep(sorted, i, lossRef, gainRef);
      EarlierAreWider(sorted, i, lossRef, gainRef);
      if p.0 < lossRef && p.1 > bestGain {
        SweepUp(PointBoxes(sorted[..i], lossRef, gainRef), bestGain, lossRef, gainRef, p);
        total := total + Strip(lossRef - p.0, bestGain, p.1);
        bestGain := p.1;
      } else {
        if Counts(p, lossRef, gainRef) {
          SweepFlat(PointBoxes(sorted[..i], lossRef, gainRef), bestGain, lossRef, gainRef, p);
        }
      }
    }
    assert sorted[..|sorted|] == sorted;
  }

  // The (loss, gain) pairs the audit reads off the trials.
  function PointsOf(records: seq<Record>): seq<Point>
    requires forall r :: r in records ==> "loss" in r.objectives && "gain" in r.objectives
  {
    if records == [] then []
    else [PointOf(records[0])] + PointsOf(records[1..])
  }

  predicate LossGain(cfg: Config) {
    && cfg.objectives == [Objective("loss", Minimize), Objective("gain", Maximize)]
    && cfg.paretoReference.Some?
  }

  lemma LossGainNames(cfg: Config, v: Vector)
    requires LossGain(cfg) && Canonical(v, cfg)
    ensures v.Keys == {"loss", "gain"}
  {
    assert cfg.objectives[0].name == "loss" && cfg.objectives[1].name == "gain";
    assert Names(cfg) == {"loss", "gain"};
  }

  function PointOf(r: Record): Point
    requires "loss" in r.objectives && "gain" in r.objectives
  {
    (r.objectives["loss"], r.objectives["gain"])
  }

  lemma RecordBox(r: Record, cfg: Config)
    requires LossGain(cfg) && Canonical(r.objectives, cfg) && Canonical(cfg.paretoReference.value, cfg)
    ensures "loss" in r.objectives && "gain" in r.objectives
    ensures var reference := cfg.paretoReference.value;
            && reference.Keys == {"loss", "gain"}
            && Widths(r.objectives, reference, cfg) == PointBox(PointOf(r), reference["loss"], reference["gain"])
            && (Positive(Widths(r.objectives, reference, cfg))
                <==> Counts(PointOf(r), reference["loss"], reference["gain"]))
  {
    var reference := cfg.paretoReference.value;
    LossGainNames(cfg, reference);
    LossGainNames(cfg, r.objectives);
    var widths, box := Widths(r.objectives, reference, cfg), PointBox(PointOf(r), reference["loss"], reference["gain"]);
    assert widths[0] == box[0] && widths[1] == box[1];
    assert widths == box;
  }

  lemma SameBoxes(records: seq<Record>, cfg: Config)
    requires ValidConfig(cfg) && LossGain(cfg) && AllCanonical(records, cfg)
    ensures forall r :: r in records ==> "loss" in r.objectives && "gain" in r.objectives
    ensures var reference := cfg.paretoReference.value;
            && reference.Keys == {"loss", "gain"}
            && WidthBoxes(records, reference, cfg) == PointBoxes(PointsOf(records), reference["loss"], reference["gain"])
  {
    var reference := cfg.paretoReference.value;
    LossGainNames(cfg, reference);
    hide Widths, PointBox, Counts, Positive, LossGain;
    forall r | r in records
      ensures "loss" in r.objectives && "gain" in r.objectives
      ensures Widths(r.objectives, reference, cfg) == PointBox(PointOf(r), reference["loss"], reference["gain"])
      ensures Positive(Widths(r.objectives, reference, cfg))
         <==> Counts(PointOf(r), reference["loss"], reference["gain"])
    {
      RecordBox(r, cfg);
    }
    PointsMatch(records);
  }

  lemma {:induction false} PointsMatch(records: seq<Record>)
    requires forall r :: r in records ==> "loss" in r.objectives && "gain" in r.objectives
    ensures forall r :: r in records ==> PointOf(r) in PointsOf(records)
    ensures forall p :: p in PointsOf(records) ==> exists r :: r in records && p == PointOf(r)
  {
    if records != [] {
      PointsMatch(records[1..]);
      assert records == [records[0]] + records[1..];
    }
  }

  // Main result: on a loss/gain campaign the audit recomputes the reported
  // hypervolume, whether it is taken over all feasible records or over the front.
  method AuditVolume(records: seq<Record>, cfg: Config) returns (actual: real)
    requires ValidConfig(cfg) && LossGain(cfg) && AllCanonical(records, cfg)
    ensures HypervolumeOf(records, cfg) == Some(actual)
    ensures AllCanonical(Front(records, cfg), cfg) && HypervolumeOf(Front(records, cfg), cfg) == Some(actual)
  {
    SameBoxes(records, cfg);
    FrontKeepsHypervolume(records, cfg);
    var reference := cfg.paretoReference.value;
    actual := Volume2D(PointsOf(records), reference["loss"], reference["gain"]);
  }
}
