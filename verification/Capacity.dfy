// The capacity check of contract 1 (_check_finite_capacity in
// templates/_shared/optimizer_ax.py): a product of domain sizes stands for the
// number of points.
module Capacity {
  import opened Wrappers
  import opened Space

  // A parameter after bound tightening: listed values, an integer range, one fixed
  // number, or a continuous range.
  datatype Domain =
    | Listed(values: seq<Value>)
    | Range(lo: int, hi: int)
    | Fixed(at: Value)
    | Continuous

  // The values of one point, parameter by parameter.
  datatype Tuple = Empty | Snoc(front: Tuple, last: Value)

  predicate SoundDomain(d: Domain) {
    d.Range? ==> d.lo <= d.hi
  }

  predicate AllFinite(domains: seq<Domain>) {
    forall d :: d in domains ==> !d.Continuous? && SoundDomain(d)
  }

  function Elements(d: Domain): set<Value>
    requires !d.Continuous? && SoundDomain(d)
  {
    match d
    case Listed(values) => set v | v in values
    case Range(lo, hi) => set i | lo <= i <= hi :: Int(i)
    case Fixed(at) => {at}
  }

  // All points: one element per parameter.
  function Points(domains: seq<Domain>): set<Tuple>
    requires AllFinite(domains)
  {
    if domains == [] then {Empty}
    else
      var n := |domains| - 1;
      Extend(Points(domains[..n]), Elements(domains[n]))
  }

  function Extend(points: set<Tuple>, values: set<Value>): set<Tuple> {
    set p, v | p in points && v in values :: Snoc(p, v)
  }

  lemma {:induction false} LayerSize(points: set<Tuple>, v: Value)
    ensures |Extend(points, {v})| == |points|
  {
    if points == {} {
      assert Extend(points, {v}) == {};
    } else {
      var p :| p in points;
      LayerSize(points - {p}, v);
      assert Extend(points, {v}) == Extend(points - {p}, {v}) + {Snoc(p, v)};
    }
  }

  lemma {:induction false} ExtendSize(points: set<Tuple>, values: set<Value>)
    ensures |Extend(points, values)| == Area(|points|, |values|)
    decreases values
  {
    if values == {} {
      assert Extend(points, values) == {};
      assert Area(|points|, 0) == 0;
    } else {
      var v :| v in values;
      var rest := values - {v};
      ExtendSplits(points, values, v);
      hide Extend, Area;
      ExtendSize(points, rest);
      LayerSize(points, v);
      OneMoreColumn(|points|, |rest|);
      assert |values| == |rest| + 1;
    }
  }

  lemma ExtendSplits(points: set<Tuple>, values: set<Value>, v: Value)
    requires v in values
    ensures Extend(points, values) == Extend(points, values - {v}) + Extend(points, {v})
    ensures Extend(points, values - {v}) !! Extend(points, {v})
  {
  }

  function Area(rows: nat, columns: nat): nat {
    rows * columns
  }

  lemma OneMoreColumn(rows: nat, columns: nat)
    ensures Area(rows, columns + 1) == Area(rows, columns) + rows
  {
  }

  lemma {:induction false} RangeSize(lo: int, hi: int)
    requires lo <= hi + 1
    ensures |set i | lo <= i <= hi :: Int(i)| == hi - lo + 1
    decreases hi - lo + 1
  {
    var all := set i | lo <= i <= hi :: Int(i);
    if lo > hi {
      assert all == {};
    } else {
      RangeSize(lo, hi - 1);
      assert all == (set i | lo <= i <= hi - 1 :: Int(i)) + {Int(hi)};
    }
  }

  function Size(d: Domain): nat
    requires !d.Continuous? && SoundDomain(d)
  {
    match d
    case Listed(values) => |set v | v in values|
    case Range(lo, hi) => hi - lo + 1
    case Fixed(_) => 1
  }

  function Product(domains: seq<Domain>): nat
    requires AllFinite(domains)
  {
    if domains == [] then 1 else Product(domains[..|domains| - 1]) * Size(domains[|domains| - 1])
  }

  // The product of the sizes is the number of points.
  lemma {:induction false} ProductCountsPoints(domains: seq<Domain>)
    requires AllFinite(domains)
    ensures |Points(domains)| == Product(domains)
  {
    if domains != [] {
      var n := |domains| - 1;
      ProductCountsPoints(domains[..n]);
      ExtendSize(Points(domains[..n]), Elements(domains[n]));
      if domains[n].Range? { RangeSize(domains[n].lo, domains[n].hi); }
    }
  }

  datatype Row = Row(point: Tuple, pending: bool)

  function BlockedTuples(rows: seq<Row>, allowCompletedRepeats: bool): set<Tuple> {
    set r | r in rows && (r.pending || !allowCompletedRepeats) :: r.point
  }

  // Pending rows block their points; finished ones do unless repeats are allowed.
  lemma BlockedTuplesMean(rows: seq<Row>, allowCompletedRepeats: bool, x: Tuple)
    ensures x in BlockedTuples(rows, allowCompletedRepeats) <==>
            exists r :: r in rows && r.point == x && (allowCompletedRepeats ==> r.pending)
  {
  }

  lemma {:induction false} SubsetSize<T>(small: set<T>, large: set<T>)
    requires small <= large
    ensures |large - small| == |large| - |small|
  {
    if small != {} {
      var x :| x in small;
      SubsetSize(small - {x}, large - {x});
      assert large - {x} - (small - {x}) == large - small;
    }
  }

  lemma NoDomains(domains: seq<Domain>)
    ensures AllFinite(domains[..0]) && Product(domains[..0]) == 1
  {
    assert domains[..0] == [];
  }

  lemma NotFinite(domains: seq<Domain>, i: nat)
    requires i < |domains| && domains[i].Continuous?
    ensures !AllFinite(domains)
  {
    assert domains[i] in domains;
  }

  lemma ProductNext(domains: seq<Domain>, i: nat)
    requires i < |domains| && AllFinite(domains[..i]) && !domains[i].Continuous? && SoundDomain(domains[i])
    ensures AllFinite(domains[..i + 1])
    ensures Product(domains[..i + 1]) == Product(domains[..i]) * Size(domains[i])
  {
    assert domains[..i + 1] == domains[..i] + [domains[i]];
    assert domains[..i + 1][..i] == domains[..i];
  }

  // Main result: with a history inside the space, the check raises exactly when
  // the space is finite and holds fewer than `count` points that are not blocked.
  method CheckFiniteCapacity(domains: seq<Domain>, rows: seq<Row>, count: nat, allowCompletedRepeats: bool)
    returns (error: bool)
    requires forall d :: d in domains ==> SoundDomain(d)
    requires AllFinite(domains) ==> BlockedTuples(rows, allowCompletedRepeats) <= Points(domains)
    ensures error <==> AllFinite(domains) && |Points(domains) - BlockedTuples(rows, allowCompletedRepeats)| < count
  {
    if count == 0 { return false; }
    var capacity := 1;
    NoDomains(domains);
    for i := 0 to |domains|
      invariant AllFinite(domains[..i]) && capacity == Product(domains[..i])
    {
      assert domains[i] in domains;
      hide AllFinite, Product, Points, BlockedTuples, Size;
      if domains[i].Continuous? {
        NotFinite(domains, i);
        return false;
      }
      ProductNext(domains, i);
      capacity := capacity * Size(domains[i]);
    }
    assert domains[..|domains|] == domains;
    hide AllFinite, Product, Points, BlockedTuples, Size;
    var blocked := BlockedTuples(rows, allowCompletedRepeats);
    ProductCountsPoints(domains);
    SubsetSize(blocked, Points(domains));
    error := capacity - |blocked| < count;
  }
}
