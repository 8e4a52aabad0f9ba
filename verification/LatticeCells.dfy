// The slab sum counts the lattice cells that at least one box covers.
module LatticeCells {
  import opened RealSets
  import opened Hypervolume

  // ---- lattice cells: the independent meaning of the sum --------------------

  // The n-th line of a grid of step u.
  function Line(u: real, n: nat): real {
    if n == 0 then 0.0 else Line(u, n - 1) + u
  }

  lemma {:induction false} LineIsMultiple(u: real, n: nat)
    ensures Line(u, n) == u * (n as real)
  {
    if n > 0 { LineIsMultiple(u, n - 1); }
  }

  lemma {:induction false} LineOrder(u: real, m: nat, n: nat)
    requires u > 0.0
    ensures Line(u, m) < Line(u, n) <==> m < n
    decreases m + n
  {
    if m < n {
      LineOrder(u, m, n - 1);
    } else if n < m {
      LineOrder(u, m - 1, n);
    }
  }

  lemma LineAbove(u: real, x: real) returns (n: nat)
    requires u > 0.0
    ensures x <= Line(u, n)
  {
    var q := x / u;
    assert q * u == x;
    n := if q <= 0.0 then 0 else q.Floor + 1;
    Enough(q, n, u);
    LineIsMultiple(u, n);
  }

  lemma Enough(q: real, n: nat, u: real)
    requires u > 0.0 && q <= n as real
    ensures q * u <= u * (n as real)
  {
    assert (n as real - q) * u >= 0.0;
  }

  ghost predicate OnGrid(x: real, u: real) {
    exists n: nat :: x == Line(u, n)
  }

  ghost predicate BoxesOnGrid(boxes: set<Box>, u: real) {
    forall b, i :: b in boxes && 0 <= i < |b| ==> OnGrid(b[i], u)
  }

  // A lattice cell, last coordinate first.
  datatype Cell = Corner | Cell(last: nat, rest: Cell)

  // The cell with lower corner u * c lies inside the box: every coordinate of
  // the corner is strictly below the box's width in that dimension.
  predicate Inside(c: Cell, b: Box, u: real) {
    if |b| == 0 then c == Corner
    else c.Cell? && Line(u, c.last) < Last(b) && Inside(c.rest, Init(b), u)
  }

  predicate Covered(c: Cell, boxes: set<Box>, u: real) {
    exists b :: b in boxes && Inside(c, b, u)
  }

  function Projected(boxes: set<Box>, d: nat): (r: set<Box>)
    requires d > 0 && WellFormed(boxes, d)
    ensures WellFormed(r, d - 1)
  {
    set b | b in boxes :: Init(b)
  }

  // All covered cells.
  ghost function Cells(boxes: set<Box>, d: nat, u: real): (r: set<Cell>)
    requires WellFormed(boxes, d) && u > 0.0
    ensures forall c :: c in r <==> Covered(c, boxes, u)
    decreases d
  {
    if d == 0 then
      FlatCells(boxes, u);
      if boxes == {} then {} else {Corner}
    else
      var below := Cells(Projected(boxes, d), d - 1, u);
      var top := Height(boxes, d, u);
      assert forall c :: Covered(c, boxes, u) ==> c.Cell? && c.rest in below && c.last < top by {
        forall c | Covered(c, boxes, u) ensures c.Cell? && c.rest in below && c.last < top {
          CoveredSplits(c, boxes, d, u);
        }
      }
      set c, k: nat | c in below && k < top && Covered(Cell(k, c), boxes, u) :: Cell(k, c)
  }

  lemma FlatCells(boxes: set<Box>, u: real)
    requires WellFormed(boxes, 0)
    ensures forall c :: Covered(c, boxes, u) <==> boxes != {} && c == Corner
  {
    if boxes != {} {
      var b := Pick(boxes);
      assert Inside(Corner, b, u);
    }
  }

  lemma CoveredSplits(c: Cell, boxes: set<Box>, d: nat, u: real)
    requires d > 0 && WellFormed(boxes, d) && u > 0.0 && Covered(c, boxes, u)
    ensures c.Cell? && c.last < Height(boxes, d, u)
    ensures Covered(c.rest, Projected(boxes, d), u)
  {
    var b :| b in boxes && Inside(c, b, u);
    assert Init(b) in Projected(boxes, d);
    assert Last(b) in Lasts(boxes, d);
    LineOrder(u, c.last, Height(boxes, d, u));
  }

  // A number of grid lines no box reaches beyond.
  ghost function Height(boxes: set<Box>, d: nat, u: real): (h: nat)
    requires d > 0 && WellFormed(boxes, d) && u > 0.0
    ensures forall x :: x in Lasts(boxes, d) ==> x <= Line(u, h)
  {
    var top := Largest({0.0} + Lasts(boxes, d));
    assert exists n: nat :: top <= Line(u, n) by { var n := LineAbove(u, top); }
    var h: nat :| top <= Line(u, h);
    h
  }

  function Power(u: real, d: nat): real {
    if d == 0 then 1.0 else u * Power(u, d - 1)
  }

  function Stack(base: set<Cell>, lo: nat, hi: nat): set<Cell> {
    set c, k: nat | c in base && lo <= k < hi :: Cell(k, c)
  }

  lemma StackSplit(base: set<Cell>, lo: nat, mid: nat, hi: nat)
    requires lo <= mid <= hi
    ensures |Stack(base, lo, hi)| == |Stack(base, lo, mid)| + |Stack(base, mid, hi)|
  {
    assert Stack(base, lo, hi) == Stack(base, lo, mid) + Stack(base, mid, hi);
    assert Stack(base, lo, mid) !! Stack(base, mid, hi);
  }

  lemma OneMore(a: int, k: int)
    ensures a * (k + 1) == a * k + a
  {
  }

  lemma {:induction false} StackSize(base: set<Cell>, lo: nat, hi: nat)
    requires lo <= hi
    ensures |Stack(base, lo, hi)| == |base| * (hi - lo)
    decreases hi - lo
  {
    if lo == hi {
      assert Stack(base, lo, hi) == {};
    } else {
      StackSize(base, lo, hi - 1);
      LayerSize(base, hi - 1);
      StackSplit(base, lo, hi - 1, hi);
      OneMore(|base|, hi - 1 - lo);
    }
  }

  lemma {:induction false} LayerSize(base: set<Cell>, k: nat)
    ensures |Stack(base, k, k + 1)| == |base|
  {
    if base == {} {
      assert Stack(base, k, k + 1) == {};
    } else {
      var c := Pick(base);
      LayerSize(base - {c}, k);
      assert Stack(base, k, k + 1) == Stack(base - {c}, k, k + 1) + {Cell(k, c)};
    }
  }

  // The covered cells at or above a level.
  ghost function CellsFrom(boxes: set<Box>, d: nat, u: real, lo: real): set<Cell>
    requires d > 0 && WellFormed(boxes, d) && u > 0.0
  {
    set c | c in Cells(boxes, d, u) && c.Cell? && Line(u, c.last) >= lo
  }

  // Between two neighbouring levels the covered cells are a straight stack over
  // the slice at the upper level.
  lemma BandIsStack(boxes: set<Box>, d: nat, u: real, m: nat, n: nat)
    requires d > 0 && WellFormed(boxes, d) && u > 0.0 && m < n
    requires forall b :: b in boxes ==> Last(b) <= Line(u, m) || Last(b) >= Line(u, n)
    ensures CellsFrom(boxes, d, u, Line(u, m))
         == CellsFrom(boxes, d, u, Line(u, n)) + Stack(Cells(Slice(boxes, d, Line(u, n)), d - 1, u), m, n)
    ensures CellsFrom(boxes, d, u, Line(u, n)) !! Stack(Cells(Slice(boxes, d, Line(u, n)), d - 1, u), m, n)
  {
    hide Line, Slice, Inside, Covered, WellFormed;
    LineOrder(u, m, n);
    var slice := Slice(boxes, d, Line(u, n));
    forall c: Cell | c.Cell?
      ensures m <= c.last < n ==> (Covered(c, boxes, u) <==> Covered(c.rest, slice, u))
      ensures Line(u, c.last) >= Line(u, m) <==> c.last >= m
      ensures Line(u, c.last) >= Line(u, n) <==> c.last >= n
    {
      LineOrder(u, c.last, m);
      LineOrder(u, c.last, n);
      if m <= c.last < n { SliceCovers(c, boxes, d, u, m, n); }
    }
  }

  lemma SliceCovers(c: Cell, boxes: set<Box>, d: nat, u: real, m: nat, n: nat)
    requires d > 0 && WellFormed(boxes, d) && u > 0.0
    requires c.Cell? && m <= c.last < n
    requires forall b :: b in boxes ==> Last(b) <= Line(u, m) || Last(b) >= Line(u, n)
    ensures Covered(c, boxes, u) <==> Covered(c.rest, Slice(boxes, d, Line(u, n)), u)
  {
    LineOrder(u, c.last, m);
    LineOrder(u, c.last, n);
    if Covered(c, boxes, u) {
      var b :| b in boxes && Inside(c, b, u);
      assert Init(b) in Slice(boxes, d, Line(u, n));
    }
    if Covered(c.rest, Slice(boxes, d, Line(u, n)), u) {
      var p :| p in Slice(boxes, d, Line(u, n)) && Inside(c.rest, p, u);
      var b :| b in boxes && Last(b) >= Line(u, n) && Init(b) == p;
      assert Inside(c, b, u);
    }
  }

  ghost predicate LevelsOnGrid(levels: seq<real>, u: real) {
    forall x :: x in levels ==> OnGrid(x, u)
  }

  lemma SlabSumAt(boxes: set<Box>, d: nat, levels: seq<real>, i: nat)
    requires d > 1 && WellFormed(boxes, d) && i + 1 < |levels|
    ensures SlabSum(boxes, d, levels[i..])
         == Slab(levels[i], levels[i + 1], Section(boxes, d, levels[i + 1])) + SlabSum(boxes, d, levels[i + 1..])
  {
    assert levels[i..][1..] == levels[i + 1..];
  }

  // The slab sum from one level up counts the cells from that level up.
  lemma {:induction false} SlabsCountCells(boxes: set<Box>, d: nat, u: real, levels: seq<real>, i: nat)
    requires d > 1 && WellFormed(boxes, d) && u > 0.0 && BoxesOnGrid(boxes, u)
    requires LevelsFor(boxes, d, levels) && LevelsOnGrid(levels, u) && i < |levels|
    ensures SlabSum(boxes, d, levels[i..]) == Line(Power(u, d), |CellsFrom(boxes, d, u, levels[i])|)
    decreases d, 0, |levels| - i
  {
    hide *;
    if i + 1 == |levels| {
      NoCellsAbove(boxes, d, u, levels);
      LastLevel(boxes, d, u, levels[i..]);
    } else {
      SlabsCountCells(boxes, d, u, levels, i + 1);
      SlabSumAt(boxes, d, levels, i);
      var m, n := NeighbouringLines(boxes, d, u, levels, i);
      OneSlab(boxes, d, u, m, n);
      LineAdds(Power(u, d), |CellsFrom(boxes, d, u, levels[i])| - |CellsFrom(boxes, d, u, levels[i + 1])|,
               |CellsFrom(boxes, d, u, levels[i + 1])|);
    }
  }

  lemma LastLevel(boxes: set<Box>, d: nat, u: real, levels: seq<real>)
    requires d > 1 && WellFormed(boxes, d) && |levels| < 2
    ensures SlabSum(boxes, d, levels) == Line(Power(u, d), 0)
  {
    hide WellFormed, Power;
  }

  lemma {:induction false} LineAdds(v: real, m: nat, n: nat)
    ensures Line(v, m) + Line(v, n) == Line(v, m + n)
    decreases n
  {
    if n > 0 { LineAdds(v, m, n - 1); }
  }

  lemma NoCellsAbove(boxes: set<Box>, d: nat, u: real, levels: seq<real>)
    requires d > 0 && WellFormed(boxes, d) && u > 0.0 && LevelsFor(boxes, d, levels)
    ensures CellsFrom(boxes, d, u, levels[|levels| - 1]) == {}
  {
    forall c | c in Cells(boxes, d, u) && c.Cell?
      ensures Line(u, c.last) < levels[|levels| - 1]
    {
      var b :| b in boxes && Inside(c, b, u);
      assert Last(b) in Lasts(boxes, d);
    }
  }

  lemma {:induction false} OneSlab(boxes: set<Box>, d: nat, u: real, m: nat, n: nat)
    requires d > 1 && WellFormed(boxes, d) && u > 0.0 && BoxesOnGrid(boxes, u) && m < n
    requires forall b :: b in boxes ==> Last(b) <= Line(u, m) || Last(b) >= Line(u, n)
    ensures |CellsFrom(boxes, d, u, Line(u, m))| >= |CellsFrom(boxes, d, u, Line(u, n))|
    ensures Slab(Line(u, m), Line(u, n), Section(boxes, d, Line(u, n)))
         == Line(Power(u, d), |CellsFrom(boxes, d, u, Line(u, m))| - |CellsFrom(boxes, d, u, Line(u, n))|)
    decreases d, 0, 0
  {
    hide *;
    BandSize(boxes, d, u, m, n);
    SectionCells(boxes, d, u, Line(u, n));
    SlabOfCells(u, m, n, d, |Cells(Slice(boxes, d, Line(u, n)), d - 1, u)|, Section(boxes, d, Line(u, n)),
                |CellsFrom(boxes, d, u, Line(u, m))| - |CellsFrom(boxes, d, u, Line(u, n))|);
  }

  lemma SlabOfCells(u: real, m: nat, n: nat, d: nat, cells: nat, section: real, total: int)
    requires m <= n && d > 0
    requires section == Line(Power(u, d - 1), cells) && total == Layers(cells, m, n)
    ensures Slab(Line(u, m), Line(u, n), section) == Line(Power(u, d), total)
  {
    var p := Power(u, d - 1);
    hide *;
    Scale(u, m, n, p, cells);
    assert Slab(Line(u, m), Line(u, n), section) == Line(u * p, total);
    PowerStep(u, d);
    assert Power(u, d) == u * p;
    assert Line(Power(u, d), total) == Line(u * p, total);
  }

  lemma PowerStep(u: real, d: nat)
    requires d > 0
    ensures Power(u, d) == u * Power(u, d - 1)
  {
  }

  lemma {:induction false} SectionCells(boxes: set<Box>, d: nat, u: real, upper: real)
    requires d > 1 && WellFormed(boxes, d) && u > 0.0 && BoxesOnGrid(boxes, u)
    ensures Section(boxes, d, upper) == Line(Power(u, d - 1), |Cells(Slice(boxes, d, upper), d - 1, u)|)
    decreases d - 1, 2, 0
  {
    SliceOnGrid(boxes, d, u, upper);
    UnionCountsCells(Slice(boxes, d, upper), d - 1, u);
  }

  lemma BandSize(boxes: set<Box>, d: nat, u: real, m: nat, n: nat)
    requires d > 0 && WellFormed(boxes, d) && u > 0.0 && m < n
    requires forall b :: b in boxes ==> Last(b) <= Line(u, m) || Last(b) >= Line(u, n)
    ensures |CellsFrom(boxes, d, u, Line(u, m))| - |CellsFrom(boxes, d, u, Line(u, n))|
         == Layers(|Cells(Slice(boxes, d, Line(u, n)), d - 1, u)|, m, n)
  {
    BandIsStack(boxes, d, u, m, n);
    StackSize(Cells(Slice(boxes, d, Line(u, n)), d - 1, u), m, n);
  }

  lemma NeighbouringLines(boxes: set<Box>, d: nat, u: real, levels: seq<real>, i: nat) returns (m: nat, n: nat)
    requires d > 0 && WellFormed(boxes, d) && u > 0.0
    requires LevelsFor(boxes, d, levels) && LevelsOnGrid(levels, u) && i + 1 < |levels|
    ensures levels[i] == Line(u, m) && levels[i + 1] == Line(u, n) && m < n
    ensures forall b :: b in boxes ==> Last(b) <= Line(u, m) || Last(b) >= Line(u, n)
  {
    assert levels[i] in levels && levels[i + 1] in levels;
    m :| levels[i] == Line(u, m);
    n :| levels[i + 1] == Line(u, n);
    LineOrder(u, m, n);
    forall b | b in boxes ensures Last(b) <= Line(u, m) || Last(b) >= Line(u, n) {
      assert Last(b) in Lasts(boxes, d);
      var k :| 0 <= k < |levels| && levels[k] == Last(b);
    }
  }

  lemma SliceOnGrid(boxes: set<Box>, d: nat, u: real, upper: real)
    requires d > 0 && WellFormed(boxes, d) && BoxesOnGrid(boxes, u)
    ensures BoxesOnGrid(Slice(boxes, d, upper), u)
  {
    forall p, i | p in Slice(boxes, d, upper) && 0 <= i < |p| ensures OnGrid(p[i], u) {
      var b :| b in boxes && Last(b) >= upper && Init(b) == p;
      assert p[i] == b[i];
    }
  }

  // A stack of n - m layers over a section of `cells` cells of measure p.
  lemma Scale(u: real, m: nat, n: nat, p: real, cells: nat)
    requires m <= n
    ensures Slab(Line(u, m), Line(u, n), Line(p, cells)) == Line(u * p, Layers(cells, m, n))
  {
    hide Line;
    var k: nat := n - m;
    LineIsMultiple(p, cells);
    LineAdds(u, m, k);
    LineIsMultiple(u, k);
    LineIsMultiple(u * p, cells * k);
    Rearrange(u, p, cells, k);
  }

  function Layers(cells: nat, m: nat, n: nat): nat
    requires m <= n
  {
    cells * (n - m)
  }

  lemma Rearrange(u: real, p: real, cells: nat, k: nat)
    ensures (u * (k as real)) * (p * (cells as real)) == (u * p) * ((cells * k) as real)
  {
    var a, b := k as real, cells as real;
    assert (cells * k) as real == b * a;
    assert (u * a) * (p * b) == (u * p) * (b * a);
  }

  lemma LevelsStartAtZero(boxes: set<Box>, d: nat)
    requires d > 0 && WellFormed(boxes, d)
    ensures LevelsFor(boxes, d, Levels(boxes, d))
  {
    var levels := Levels(boxes, d);
    assert 0.0 in levels;
    assert levels[0] in levels;
    assert levels[0] >= 0.0;
  }

  lemma LevelsAreLines(boxes: set<Box>, d: nat, u: real)
    requires d > 0 && WellFormed(boxes, d) && BoxesOnGrid(boxes, u)
    ensures LevelsOnGrid(Levels(boxes, d), u)
  {
    forall x | x in Levels(boxes, d) ensures OnGrid(x, u) {
      if x == 0.0 {
        assert x == Line(u, 0);
      } else {
        var b :| b in boxes && Last(b) == x;
        assert OnGrid(b[d - 1], u);
      }
    }
  }

  lemma OneDimension(boxes: set<Box>, u: real)
    requires WellFormed(boxes, 1) && boxes != {} && u > 0.0 && BoxesOnGrid(boxes, u)
    ensures Union(boxes, 1) == Line(Power(u, 1), |Cells(boxes, 1, u)|)
  {
    var top := Union(boxes, 1);
    var tallest :| tallest in boxes && Last(tallest) == top;
    assert OnGrid(tallest[0], u);
    hide Line, Covered, Inside;
    var n: nat :| top == Line(u, n);
    forall b | b in boxes ensures Last(b) <= Line(u, n) { assert Last(b) in Lasts(boxes, 1); }
    assert |Cells(boxes, 1, u)| == n by {
      SegmentCells(boxes, u, n);
      StackSize({Corner}, 0, n);
    }
    assert Power(u, 1) == u by { PowerStep(u, 1); }
  }

  lemma SegmentCells(boxes: set<Box>, u: real, n: nat)
    requires WellFormed(boxes, 1) && u > 0.0
    requires forall b :: b in boxes ==> Last(b) <= Line(u, n)
    requires exists b :: b in boxes && Last(b) == Line(u, n)
    ensures Cells(boxes, 1, u) == Stack({Corner}, 0, n)
  {
    var tallest :| tallest in boxes && Last(tallest) == Line(u, n);
    forall c: Cell ensures Covered(c, boxes, u) <==> c in Stack({Corner}, 0, n) {
      if c.Cell? {
        LineOrder(u, c.last, n);
        if c.last < n && c.rest == Corner { assert Inside(c, tallest, u); }
      }
      if Covered(c, boxes, u) {
        var b :| b in boxes && Inside(c, b, u);
        assert Inside(c.rest, Init(b), u) && Init(b) == [];
      }
    }
  }

  lemma AllAboveZero(boxes: set<Box>, d: nat, u: real)
    requires d > 0 && WellFormed(boxes, d) && u > 0.0
    ensures CellsFrom(boxes, d, u, 0.0) == Cells(boxes, d, u)
  {
    forall c | c in Cells(boxes, d, u) ensures c.Cell? && Line(u, c.last) >= 0.0 {
      LineOrder(u, c.last, 0);
    }
  }

  // Main result: on a common grid of step u, the recursive slab sum is u^d
  // times the number of lattice cells that lie in at least one of the boxes.
  lemma {:induction false} UnionCountsCells(boxes: set<Box>, d: nat, u: real)
    requires d > 0 && WellFormed(boxes, d) && u > 0.0 && BoxesOnGrid(boxes, u)
    ensures Union(boxes, d) == Line(Power(u, d), |Cells(boxes, d, u)|)
    decreases d, 1
  {
    if boxes == {} {
      assert Cells(boxes, d, u) == {};
    } else if d == 1 {
      OneDimension(boxes, u);
    } else {
      LevelsStartAtZero(boxes, d);
      LevelsAreLines(boxes, d, u);
      SlabsCountCells(boxes, d, u, Levels(boxes, d), 0);
      assert Levels(boxes, d)[0..] == Levels(boxes, d);
      AllAboveZero(boxes, d, u);
    }
  }

  lemma CellMeasure(boxes: set<Box>, d: nat, u: real)
    requires d > 0 && WellFormed(boxes, d) && u > 0.0 && BoxesOnGrid(boxes, u)
    ensures Union(boxes, d) == Power(u, d) * (|Cells(boxes, d, u)| as real)
  {
    hide *;
    UnionCountsCells(boxes, d, u);
    LineIsMultiple(Power(u, d), |Cells(boxes, d, u)|);
  }

  lemma {:induction false} UnitPower(d: nat)
    ensures Power(1.0, d) == 1.0
  {
    if d > 0 { UnitPower(d - 1); }
  }

  // Main result: with whole widths the sum is the number of covered cells.
  lemma UnionOfIntegerBoxes(boxes: set<Box>, d: nat)
    requires d > 0 && WellFormed(boxes, d) && BoxesOnGrid(boxes, 1.0)
    ensures Union(boxes, d) == |Cells(boxes, d, 1.0)| as real
  {
    hide *;
    CellMeasure(boxes, d, 1.0);
    UnitPower(d);
  }
}
