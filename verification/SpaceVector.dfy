// Sampling, and the numeric encoding of conditional points on linear scales.
module SpaceVector {
  import opened Wrappers
  import opened Space
  import opened SpaceOrder
  import opened SpaceTraversal

  predicate Sound(k: Kind) {
    match k
    case Categorical(choices) => choices != [] && forall i, j :: 0 <= i < j < |choices| ==> choices[i] != choices[j]
    case Boolean => true
    case Integer(lo, hi) => lo <= hi
    case Continuous(low, high) => low <= high
  }

  predicate AllSound(params: seq<Param>) {
    forall p :: p in params ==> Sound(p.kind)
  }

  // A normalized space: sound domains, known controllers, none of them continuous.
  predicate SpaceOK(params: seq<Param>) {
    && WellNamed(params)
    && AllSound(params)
    && (forall p, c :: p in params && c in p.conditions ==> !Lookup(params, c.controller).kind.Continuous?)
  }

  // ---- sample_random_point -----------------------------------------------------------------

  // What the first i parameters of an ordering have decided.
  predicate Decided(order: seq<Param>, i: nat, x: Point)
    requires i <= |order|
  {
    && x.Keys <= Names(order[..i])
    && forall k :: 0 <= k < i ==>
         && (order[k].name in x <==> Active(order[k], x))
         && (order[k].name in x ==> InDomain(order[k].kind, x[order[k].name]))
  }

  lemma DecideNext(order: seq<Param>, i: nat, x: Point, y: Point)
    requires Distinct(order) && ControllersFirst(order) && i < |order| && Decided(order, i, x)
    requires !Active(order[i], x) ==> y == x
    requires Active(order[i], x) ==>
               order[i].name in y && y == x[order[i].name := y[order[i].name]] && InDomain(order[i].kind, y[order[i].name])
    ensures Decided(order, i + 1, y)
  {
    var n := order[i].name;
    assert order[..i + 1] == order[..i] + [order[i]];
    NextNotBefore(order, i);
    assert n !in x;
    forall k | 0 <= k <= i
      ensures order[k].name in y <==> Active(order[k], y)
      ensures order[k].name in y ==> InDomain(order[k].kind, y[order[k].name])
    {
      UntouchedActivity(order, k, i, x, y);
      if k < i { assert order[k].name != n; }
    }
  }

  lemma UntouchedActivity(order: seq<Param>, k: nat, i: nat, x: Point, y: Point)
    requires Distinct(order) && ControllersFirst(order) && k <= i < |order|
    requires forall n :: n != order[i].name ==> (n in x <==> n in y) && (n in x ==> x[n] == y[n])
    ensures Active(order[k], x) <==> Active(order[k], y)
  {
    forall c | c in order[k].conditions ensures Met(c, x) <==> Met(c, y) {
      var q :| q in order[..k] && q.name == c.controller;
      var m :| 0 <= m < k && order[m] == q;
      assert order[m].name != order[i].name;
    }
  }

  lemma DecidedIsPoint(order: seq<Param>, params: seq<Param>, x: Point)
    requires Ordering(order, params)
    ensures Decided(order, |order|, x) <==> IsPoint(params, x)
  {
    SameNames(order, params);
    assert order[..|order|] == order;
    if Decided(order, |order|, x) {
      forall p | p in params
        ensures p.name in x <==> Active(p, x)
        ensures p.name in x ==> InDomain(p.kind, x[p.name])
      {
        var k :| 0 <= k < |order| && order[k] == p;
      }
    }
  }

  // The generator's draws are a parameter: one value of its domain per parameter.
  method SampleRandomPoint(params: seq<Param>, draws: map<string, Value>) returns (out: Point)
    requires WellNamed(params) && Ordered(params).Walked?
    requires forall p :: p in params ==> p.name in draws && InDomain(p.kind, draws[p.name])
    ensures IsPoint(params, out)
    ensures forall n :: n in out ==> n in draws && out[n] == draws[n]
  {
    var order := OrderedParameters(params);
    out := map[];
    for i := 0 to |order|
      invariant Decided(order, i, out)
      invariant forall n :: n in out ==> n in draws && out[n] == draws[n]
    {
      ghost var before := out;
      assert order[i] in params;
      if Active(order[i], out) { out := out[order[i].name := draws[order[i].name]]; }
      DecideNext(order, i, before, out);
    }
    DecidedIsPoint(order, params, out);
  }

  predicate Agree(x: Point, y: Point) {
    forall n :: n in x && n in y ==> x[n] == y[n]
  }

  // A point is determined by its values on the parameters it contains: two points
  // that agree wherever both are defined are the same point.
  lemma PointsAgree(params: seq<Param>, order: seq<Param>, x: Point, y: Point)
    requires Ordering(order, params) && IsPoint(params, x) && IsPoint(params, y)
    requires Agree(x, y)
    ensures x == y
  {
    assert SameSoFar(order, 0, x, y);
    hide *;
    for i := 0 to |order|
      invariant SameSoFar(order, i, x, y)
    {
      SameNext(params, order, i, x, y);
    }
    SameKeys(params, order, x, y);
    SameMap(x, y);
  }

  lemma SameNext(params: seq<Param>, order: seq<Param>, i: nat, x: Point, y: Point)
    requires Ordering(order, params) && IsPoint(params, x) && IsPoint(params, y)
    requires Agree(x, y) && i < |order| && SameSoFar(order, i, x, y)
    ensures SameSoFar(order, i + 1, x, y)
  {
    assert order[i].name in x <==> Active(order[i], x);
    assert order[i].name in y <==> Active(order[i], y);
    SameActivity(order, i, x, y);
  }

  lemma SameKeys(params: seq<Param>, order: seq<Param>, x: Point, y: Point)
    requires Ordering(order, params) && IsPoint(params, x) && IsPoint(params, y)
    requires SameSoFar(order, |order|, x, y)
    ensures x.Keys == y.Keys
  {
    SameNames(order, params);
    hide IsPoint, Ordering;
    assert x.Keys <= Names(order) && y.Keys <= Names(order) by { KeysAreNames(params, order, x); KeysAreNames(params, order, y); }
    forall n | n in Names(order) ensures n in x <==> n in y {
      var i := Rank(order, n);
    }
  }

  lemma KeysAreNames(params: seq<Param>, order: seq<Param>, x: Point)
    requires IsPoint(params, x) && Names(order) == Names(params)
    ensures x.Keys <= Names(order)
  {
  }

  lemma SameMap(x: Point, y: Point)
    requires x.Keys == y.Keys && Agree(x, y)
    ensures x == y
  {
  }

  predicate SameSoFar(order: seq<Param>, i: nat, x: Point, y: Point)
    requires i <= |order|
  {
    forall k :: 0 <= k < i ==> (order[k].name in x <==> order[k].name in y)
  }

  lemma SameActivity(order: seq<Param>, i: nat, x: Point, y: Point)
    requires ControllersFirst(order) && i < |order| && SameSoFar(order, i, x, y) && Agree(x, y)
    ensures Active(order[i], x) <==> Active(order[i], y)
  {
    forall c | c in order[i].conditions ensures Met(c, x) <==> Met(c, y) {
      var q :| q in order[..i] && q.name == c.controller;
      var m :| 0 <= m < i && order[m] == q;
    }
  }

  // ---- one parameter ---------------------------------------------------------------------------

  function Clamp(u: real): real {
    if u < 0.0 then 0.0 else if u > 1.0 then 1.0 else u
  }

  function Unit(v: real, lo: real, hi: real): real {
    if hi - lo < TOLERANCE && lo - hi < TOLERANCE then 0.0 else Clamp((v - lo) / (hi - lo))
  }

  // Rounds halves to the even neighbour.
  function Round(x: real): int {
    var f := x.Floor;
    if x - f as real < 0.5 then f
    else if x - f as real > 0.5 then f + 1
    else if f % 2 == 0 then f else f + 1
  }

  function Spread(u: real, lo: real, hi: real): real {
    if hi - lo < TOLERANCE && lo - hi < TOLERANCE then lo else lo + Clamp(u) * (hi - lo)
  }

  function Size(k: Kind): nat {
    if k.Categorical? then |k.choices| else 1
  }

  function IndexOf(choices: seq<Value>, v: Value): (i: nat)
    requires v in choices
    ensures i < |choices| && choices[i] == v
  {
    if choices[0] == v then 0 else 1 + IndexOf(choices[1..], v)
  }

  function OneHot(n: nat, at: nat): seq<real> {
    seq(n, i => if i == at then 1.0 else 0.0)
  }

  // The segment of one active value; None where the program raises.
  function NormalizeValue(k: Kind, v: Value): Option<seq<real>> {
    match k
    case Categorical(choices) =>
      if v.Bool? || v !in choices then None else Some(OneHot(|choices|, IndexOf(choices, v)))
    case Boolean => if v.Bool? then Some([if v.b then 1.0 else 0.0]) else None
    case Integer(lo, hi) =>
      if Number(v).None? || Number(v).value != Number(v).value.Floor as real then None
      else Some([Unit(Number(v).value, lo as real, hi as real)])
    case Continuous(low, high) => if Number(v).None? then None else Some([Unit(Number(v).value, low, high)])
  }

  // The first index of a greatest entry.
  function ArgMax(vals: seq<real>): (i: nat)
    requires vals != []
    ensures i < |vals|
  {
    if |vals| == 1 then 0
    else
      var best := ArgMax(vals[..|vals| - 1]);
      if vals[|vals| - 1] > vals[best] then |vals| - 1 else best
  }

  function DenormalizeValue(k: Kind, segment: seq<real>): Value
    requires Sound(k) && |segment| == Size(k)
  {
    match k
    case Categorical(choices) => choices[ArgMax(segment)]
    case Boolean => Bool(Clamp(segment[0]) >= 0.5)
    case Integer(lo, hi) =>
      var raw := Round(Spread(segment[0], lo as real, hi as real));
      Int(if raw < lo then lo else if raw > hi then hi else raw)
    case Continuous(low, high) => Float(Spread(segment[0], low, high))
  }

  // What survives: a continuous value in a range narrower than the tolerance
  // becomes the lower bound, every other value survives exactly.
  function Settle(k: Kind, v: Value): Value {
    if k.Continuous? && k.high - k.low < TOLERANCE then Float(k.low) else v
  }

  lemma UnitSpread(v: real, lo: real, hi: real)
    requires lo <= v <= hi
    ensures Spread(Unit(v, lo, hi), lo, hi) == if hi - lo < TOLERANCE then lo else v
  {
    if hi - lo >= TOLERANCE {
      var d := hi - lo;
      var q := (v - lo) / d;
      assert q * d == v - lo;
      Quotient(q, d, v - lo);
      assert Clamp(q) == q;
    }
  }

  lemma Quotient(q: real, d: real, n: real)
    requires d > 0.0 && q * d == n && 0.0 <= n <= d
    ensures 0.0 <= q <= 1.0
  {
    if q < 0.0 { Opposite(q, d); }
    if q > 1.0 { Opposite(1.0 - q, d); }
  }

  lemma Opposite(a: real, b: real)
    requires a < 0.0 < b
    ensures a * b < 0.0
  {
  }

  lemma {:induction false} ArgMaxOneHot(n: nat, at: nat, m: nat)
    requires at < n && 1 <= m <= n
    ensures ArgMax(OneHot(n, at)[..m]) == if at < m then at else 0
  {
    var vals := OneHot(n, at)[..m];
    if m > 1 {
      ArgMaxOneHot(n, at, m - 1);
      assert vals[..m - 1] == OneHot(n, at)[..m - 1];
    }
  }

  lemma ValueRoundTrip(k: Kind, v: Value)
    requires Sound(k) && InDomain(k, v) && (k.Categorical? ==> !v.Bool?)
    ensures NormalizeValue(k, v).Some? && |NormalizeValue(k, v).value| == Size(k)
    ensures DenormalizeValue(k, NormalizeValue(k, v).value) == Settle(k, v)
  {
    match k
    case Categorical(choices) =>
      var at := IndexOf(choices, v);
      ArgMaxOneHot(|choices|, at, |choices|);
      assert OneHot(|choices|, at)[..|choices|] == OneHot(|choices|, at);
    case Boolean =>
    case Integer(lo, hi) =>
      UnitSpread(v.i as real, lo as real, hi as real);
      assert hi - lo >= 1 ==> (hi - lo) as real >= 1.0;
    case Continuous(low, high) => UnitSpread(v.r, low, high);
  }

  // ---- whole points -------------------------------------------------------------------------------

  function Zeros(n: nat): seq<real> {
    seq(n, i => 0.0)
  }

  function Segment(p: Param, x: Point): Option<seq<real>> {
    if !Active(p, x) then Some(Zeros(Size(p.kind)))
    else if p.name !in x then None
    else NormalizeValue(p.kind, x[p.name])
  }

  function Normalize(order: seq<Param>, x: Point): Option<seq<real>> {
    if order == [] then Some([])
    else
      var front := Normalize(order[..|order| - 1], x);
      var last := Segment(order[|order| - 1], x);
      if front.None? || last.None? then None else Some(front.value + last.value)
  }

  // normalize_numeric_point
  method NormalizeNumericPoint(vec: Point, params: seq<Param>) returns (out: Option<seq<real>>)
    requires WellNamed(params) && Ordered(params).Walked?
    ensures out == Normalize(Ordered(params).visit.ordered, vec)
  {
    var order := OrderedParameters(params);
    assert Normalize(order[..0], vec) == Some([]);
    hide *;
    var vals: seq<real> := [];
    for i := 0 to |order|
      invariant Normalize(order[..i], vec) == Some(vals)
    {
      NormalizeNext(order, i, vec);
      var segment := Segment(order[i], vec);
      if segment.None? {
        FailureStays(order, i + 1, vec);
        return None;
      }
      vals := vals + segment.value;
    }
    assert order[..|order|] == order;
    out := Some(vals);
  }

  lemma NormalizeNext(order: seq<Param>, i: nat, x: Point)
    requires i < |order|
    ensures var front, last := Normalize(order[..i], x), Segment(order[i], x);
            Normalize(order[..i + 1], x)
            == if front.None? || last.None? then None else Some(front.value + last.value)
  {
    hide Segment;
    assert order[..i + 1][..i] == order[..i];
  }

  lemma {:induction false} FailureStays(order: seq<Param>, i: nat, x: Point)
    requires i <= |order| && Normalize(order[..i], x).None?
    ensures Normalize(order, x).None?
    decreases |order|
  {
    if i == |order| {
      assert order[..i] == order;
    } else {
      assert order[..|order| - 1][..i] == order[..i];
      FailureStays(order[..|order| - 1], i, x);
    }
  }

  // Decoding from parameter i on, with the values still unread and the point so far.
  function Denormalize(order: seq<Param>, i: nat, vals: seq<real>, out: Point): Option<Point>
    requires i <= |order| && AllSound(order)
    decreases |order| - i
  {
    if i == |order| then if vals == [] then Some(out) else None
    else
      var p := order[i];
      var n := Size(p.kind);
      if |vals| < n then None
      else if !Active(p, out) then Denormalize(order, i + 1, vals[n..], out)
      else Denormalize(order, i + 1, vals[n..], out[p.name := DenormalizeValue(p.kind, vals[..n])])
  }

  lemma DecodeStep(order: seq<Param>, i: nat, vals: seq<real>, out: Point)
    requires i < |order| && AllSound(order) && |vals| >= Size(order[i].kind)
    ensures var p := order[i];
            var n := Size(p.kind);
            Denormalize(order, i, vals, out)
            == Denormalize(order, i + 1, vals[n..],
                           if Active(p, out) then out[p.name := DenormalizeValue(p.kind, vals[..n])] else out)
  {
    hide Active, DenormalizeValue, Size;
  }

  lemma DecodeEnds(order: seq<Param>, i: nat, vals: seq<real>, out: Point)
    requires i <= |order| && AllSound(order)
    ensures i < |order| && |vals| < Size(order[i].kind) ==> Denormalize(order, i, vals, out).None?
    ensures i == |order| ==> Denormalize(order, i, vals, out) == if vals == [] then Some(out) else None
  {
  }

  lemma DecodeSlice(order: seq<Param>, i: nat, vals: seq<real>, offset: nat, out: Point)
    requires i < |order| && AllSound(order) && offset + Size(order[i].kind) <= |vals|
    ensures var p := order[i];
            var n := Size(p.kind);
            Denormalize(order, i, vals[offset..], out)
            == Denormalize(order, i + 1, vals[offset + n..],
                           if Active(p, out) then out[p.name := DenormalizeValue(p.kind, vals[offset..offset + n])] else out)
  {
    hide *;
    DecodeStep(order, i, vals[offset..], out);
    var n := Size(order[i].kind);
    assert vals[offset..][n..] == vals[offset + n..];
    assert vals[offset..][..n] == vals[offset..offset + n];
  }

  lemma SoundOrder(params: seq<Param>, order: seq<Param>)
    requires SpaceOK(params) && Ordering(order, params)
    ensures AllSound(order)
  {
    assert forall p :: p in order ==> p in params;
  }

  method DenormalizeInOrder(vals: seq<real>, order: seq<Param>) returns (result: Option<Point>)
    requires AllSound(order)
    ensures result == Denormalize(order, 0, vals, map[])
  {
    hide *;
    var out: Point := map[];
    var offset := 0;
    assert vals[0..] == vals;
    for i := 0 to |order|
      invariant 0 <= offset <= |vals|
      invariant Denormalize(order, 0, vals, map[]) == Denormalize(order, i, vals[offset..], out)
    {
      var p := order[i];
      var n := Size(p.kind);
      DecodeEnds(order, i, vals[offset..], out);
      if offset + n > |vals| { return None; }
      DecodeSlice(order, i, vals, offset, out);
      SoundIn(order, i);
      if Active(p, out) { out := out[p.name := DenormalizeValue(p.kind, vals[offset..offset + n])]; }
      offset := offset + n;
    }
    DecodeEnds(order, |order|, vals[offset..], out);
    result := if offset != |vals| then None else Some(out);
  }

  lemma SoundIn(order: seq<Param>, i: nat)
    requires AllSound(order) && i < |order|
    ensures Sound(order[i].kind)
  {
  }

  // denormalize_numeric_point
  method DenormalizeNumericPoint(vals: seq<real>, params: seq<Param>) returns (result: Option<Point>)
    requires SpaceOK(params) && Ordered(params).Walked?
    ensures AllSound(Ordered(params).visit.ordered)
    ensures result == Denormalize(Ordered(params).visit.ordered, 0, vals, map[])
  {
    var order := OrderedParameters(params);
    SoundOrder(params, order);
    result := DenormalizeInOrder(vals, order);
  }

  function Settled(params: seq<Param>, x: Point): Point {
    map n | n in x && n in Names(params) :: Settle(Lookup(params, n).kind, x[n])
  }

  // No categorical parameter offers a boolean choice.
  predicate NoBooleanChoice(params: seq<Param>) {
    forall p :: p in params && p.kind.Categorical? ==> forall v :: v in p.kind.choices ==> !v.Bool?
  }

  lemma SettledActivity(params: seq<Param>, order: seq<Param>, x: Point, i: nat)
    requires SpaceOK(params) && Ordering(order, params) && x.Keys <= Names(params) && i < |order|
    ensures Active(order[i], Restrict(Settled(params, x), Names(order[..i]))) <==> Active(order[i], x)
  {
    ActivityIsDecided(order, i, Settled(params, x));
    var p := order[i];
    forall c | c in p.conditions ensures Met(c, x) <==> Met(c, Settled(params, x)) {
      assert p in params;
      assert !Lookup(params, c.controller).kind.Continuous?;
    }
  }

  // Segment k of x decodes to what s holds for its parameter.
  ghost predicate Fits(order: seq<Param>, x: Point, s: Point, k: nat)
    requires k < |order|
  {
    var p := order[k];
    && Sound(p.kind) && Segment(p, x).Some? && |Segment(p, x).value| == Size(p.kind)
    && (Active(p, Restrict(s, Names(order[..k]))) <==> p.name in s)
    && (p.name in s ==> DenormalizeValue(p.kind, Segment(p, x).value) == s[p.name])
  }

  ghost predicate AllFit(order: seq<Param>, x: Point, s: Point) {
    s.Keys <= Names(order) && forall k :: 0 <= k < |order| ==> Fits(order, x, s, k)
  }

  // The values still to be read after the first i segments.
  lemma {:induction false} DecodeFrom(order: seq<Param>, x: Point, s: Point, i: nat, front: seq<real>, rest: seq<real>)
    requires AllSound(order) && AllFit(order, x, s) && i <= |order|
    requires Normalize(order[..i], x) == Some(front) && Normalize(order, x) == Some(front + rest)
    ensures Denormalize(order, i, rest, Restrict(s, Names(order[..i]))) == Some(s)
    decreases |order| - i
  {
    if i == |order| {
      assert order[..i] == order;
      RestrictAll(order, s);
      assert |front + rest| == |front|;
    } else {
      NextSegment(order, x, i, front, rest);
      hide Names, Restrict, Active, Segment, Normalize, Denormalize, DenormalizeValue, AllSound, Sound, Size;
      assert Fits(order, x, s, i);
      var segment := Segment(order[i], x).value;
      RestrictNext(order, i, s);
      DecodeFrom(order, x, s, i + 1, front + segment, rest[|segment|..]);
      DecodeStep(order, i, rest, Restrict(s, Names(order[..i])));
    }
  }

  lemma NextSegment(order: seq<Param>, x: Point, i: nat, front: seq<real>, rest: seq<real>)
    requires i < |order|
    requires Normalize(order[..i], x) == Some(front) && Normalize(order, x) == Some(front + rest)
    ensures Segment(order[i], x).Some?
    ensures var segment := Segment(order[i], x).value;
            && |segment| <= |rest| && rest[..|segment|] == segment
            && Normalize(order[..i + 1], x) == Some(front + segment)
            && front + rest == front + segment + rest[|segment|..]
  {
    assert order[..i + 1][..i] == order[..i];
    hide Segment;
    SegmentsSplit(order, x, i + 1, front + rest);
    var segment := Segment(order[i], x).value;
    assert Normalize(order[..i + 1], x) == Some(front + segment);
    hide *;
    PrefixTail(front, segment, rest);
  }

  lemma PrefixTail(front: seq<real>, segment: seq<real>, rest: seq<real>)
    requires front + segment <= front + rest
    ensures |segment| <= |rest| && rest[..|segment|] == segment
    ensures front + rest == front + segment + rest[|segment|..]
  {
    forall k | 0 <= k < |segment| ensures rest[k] == segment[k] {
      assert (front + segment)[|front| + k] == (front + rest)[|front| + k];
    }
    assert rest == segment + rest[|segment|..];
  }

  lemma {:induction false} SegmentsSplit(order: seq<Param>, x: Point, i: nat, all: seq<real>)
    requires i <= |order| && Normalize(order, x) == Some(all)
    ensures Normalize(order[..i], x).Some? && Normalize(order[..i], x).value <= all
    decreases |order|
  {
    if i == |order| {
      assert order[..i] == order;
    } else {
      var n := |order| - 1;
      assert order[..n][..i] == order[..i];
      SegmentsSplit(order[..n], x, i, Normalize(order[..n], x).value);
    }
  }

  lemma SegmentRoundTrip(params: seq<Param>, order: seq<Param>, x: Point, i: nat)
    requires SpaceOK(params) && NoBooleanChoice(params) && Ordering(order, params) && IsPoint(params, x) && i < |order|
    ensures Segment(order[i], x).Some? && |Segment(order[i], x).value| == Size(order[i].kind) && Sound(order[i].kind)
    ensures Active(order[i], Restrict(Settled(params, x), Names(order[..i]))) <==> order[i].name in x
    ensures order[i].name in x ==>
              DenormalizeValue(order[i].kind, Segment(order[i], x).value) == Settle(order[i].kind, x[order[i].name])
  {
    var p := order[i];
    assert p in params;
    SettledActivity(params, order, x, i);
    if p.name in x { ValueRoundTrip(p.kind, x[p.name]); }
  }

  lemma FittingNormalizes(order: seq<Param>, x: Point, s: Point)
    requires AllFit(order, x, s)
    ensures Normalize(order, x).Some?
  {
    hide Fits, Segment;
    for i := 0 to |order|
      invariant Normalize(order[..i], x).Some?
    {
      assert Fits(order, x, s, i);
      FitHasSegment(order, x, s, i);
      NormalizeNext(order, i, x);
    }
    assert order[..|order|] == order;
  }

  lemma FitHasSegment(order: seq<Param>, x: Point, s: Point, i: nat)
    requires i < |order| && Fits(order, x, s, i)
    ensures Segment(order[i], x).Some?
  {
  }

  lemma FittingDecodes(order: seq<Param>, x: Point, s: Point)
    requires AllSound(order) && AllFit(order, x, s)
    ensures Normalize(order, x).Some?
    ensures Denormalize(order, 0, Normalize(order, x).value, map[]) == Some(s)
  {
    FittingNormalizes(order, x, s);
    assert order[..0] == [] && Normalize([], x) == Some([]);
    assert Restrict(s, Names([])) == map[];
    hide *;
    var all := Normalize(order, x).value;
    assert [] + all == all;
    DecodeFrom(order, x, s, 0, [], all);
  }

  // A number in the type its parameter asks for.
  function Retype(k: Kind, v: Value): Value {
    match k
    case Integer(_, _) => if v.Float? && v.r == v.r.Floor as real then Int(v.r.Floor) else v
    case Continuous(_, _) => if v.Int? then Float(v.i as real) else v
    case _ => v
  }

  function Retyped(params: seq<Param>, x: Point): Point {
    map n | n in x && n in Names(params) :: Retype(Lookup(params, n).kind, x[n])
  }

  // What the segment of an inactive parameter decodes to: the first choice, false
  // or the lower bound.
  function AtRest(k: Kind): Value
    requires Sound(k)
  {
    DenormalizeValue(k, Zeros(Size(k)))
  }

  // The parameter is not deactivated by retyping, and if it is activated it holds
  // the value it decodes to anyway.
  predicate Recoverable(params: seq<Param>, x: Point, p: Param) {
    var y := Retyped(params, x);
    && (Active(p, x) ==> Active(p, y))
    && (!Active(p, x) && Active(p, y) ==> p.name in y && Sound(p.kind) && Settle(p.kind, y[p.name]) == AtRest(p.kind))
  }

  predicate AllRecoverable(params: seq<Param>, x: Point) {
    forall p :: p in params ==> Recoverable(params, x, p)
  }

  lemma RetypedKeys(params: seq<Param>, x: Point)
    ensures Retyped(params, x).Keys == x.Keys * Names(params)
  {
  }

  lemma RetypedAt(params: seq<Param>, p: Param, x: Point)
    requires p in params && p == Lookup(params, p.name) && p.name in x && p.name in Names(params)
    ensures p.name in Retyped(params, x) && Retyped(params, x)[p.name] == Retype(p.kind, x[p.name])
  {
  }

  lemma SameSegment(k: Kind, v: Value)
    ensures NormalizeValue(k, Retype(k, v)) == NormalizeValue(k, v)
  {
  }

  // An active parameter has the segment of its retyped value.
  lemma ActiveSegment(params: seq<Param>, order: seq<Param>, x: Point, i: nat)
    requires SpaceOK(params) && Ordering(order, params) && i < |order|
    requires Active(order[i], x) && Active(order[i], Retyped(params, x)) && order[i].name in x
    ensures Segment(order[i], x) == Segment(order[i], Retyped(params, x))
  {
    var p := order[i];
    assert p in params;
    SameName(params, p, Lookup(params, p.name));
    RetypedAt(params, p, x);
    SameSegment(p.kind, x[p.name]);
  }

  lemma RetypedFits(params: seq<Param>, order: seq<Param>, x: Point, i: nat)
    requires SpaceOK(params) && NoBooleanChoice(params) && Ordering(order, params) && i < |order|
    requires IsPoint(params, Retyped(params, x)) && AllRecoverable(params, x)
    ensures Fits(order, x, Settled(params, Retyped(params, x)), i)
  {
    hide *;
    var y, p := Retyped(params, x), order[i];
    RecoverableAt(params, order, x, i);
    SegmentRoundTrip(params, order, y, i);
    SettledAt(params, order, y, i);
    RetypedKeys(params, x);
    if Active(p, x) { ActiveSegment(params, order, x, i); } else { RestingSegment(p, x); }
    FitsIs(order, x, Settled(params, y), y, i);
  }

  lemma RecoverableAt(params: seq<Param>, order: seq<Param>, x: Point, i: nat)
    requires Ordering(order, params) && i < |order|
    requires IsPoint(params, Retyped(params, x)) && AllRecoverable(params, x)
    ensures var y, p := Retyped(params, x), order[i];
            && (Active(p, y) <==> p.name in y) && (Active(p, x) ==> Active(p, y))
            && (!Active(p, x) && Active(p, y) ==> p.name in y && Sound(p.kind) && Settle(p.kind, y[p.name]) == AtRest(p.kind))
  {
    assert order[i] in params && Recoverable(params, x, order[i]);
    hide Active, Retyped, Sound, Settle, AtRest;
  }

  lemma RestingSegment(p: Param, x: Point)
    requires !Active(p, x)
    ensures Segment(p, x) == Some(Zeros(Size(p.kind))) && |Zeros(Size(p.kind))| == Size(p.kind)
    ensures Sound(p.kind) ==> AtRest(p.kind) == DenormalizeValue(p.kind, Zeros(Size(p.kind)))
  {
    hide Active;
  }

  lemma FitsIs(order: seq<Param>, x: Point, s: Point, y: Point, k: nat)
    requires k < |order|
    requires var p := order[k];
             && Sound(p.kind) && Segment(p, x).Some? && |Segment(p, x).value| == Size(p.kind) && s.Keys == y.Keys
             && (Active(p, Restrict(s, Names(order[..k]))) <==> p.name in y)
             && (p.name in y ==> s[p.name] == Settle(p.kind, y[p.name])
                                 && DenormalizeValue(p.kind, Segment(p, x).value) == Settle(p.kind, y[p.name]))
    ensures Fits(order, x, s, k)
  {
    hide Sound, Segment, Active, Restrict, Names, DenormalizeValue, Settle;
  }

  lemma SettledAt(params: seq<Param>, order: seq<Param>, y: Point, i: nat)
    requires SpaceOK(params) && Ordering(order, params) && IsPoint(params, y) && i < |order|
    ensures Settled(params, y).Keys == y.Keys
    ensures order[i].name in y ==> Settled(params, y)[order[i].name] == Settle(order[i].kind, y[order[i].name])
  {
    assert order[i] in params;
    SameName(params, order[i], Lookup(params, order[i].name));
  }

  // What is read first stays.
  lemma {:induction false} DecodedKeeps(order: seq<Param>, i: nat, vals: seq<real>, out: Point, s: Point)
    requires Distinct(order) && AllSound(order) && i <= |order| && out.Keys <= Names(order[..i])
    requires Denormalize(order, i, vals, out) == Some(s)
    ensures Restrict(s, Names(order[..i])) == out
    decreases |order| - i
  {
    if i == |order| {
      AllDecodedKeep(order, vals, out, s);
    } else {
      hide *;
      NextNotBefore(order, i);
      NextNames(order, i);
      DecodeEnds(order, i, vals, out);
      SoundIn(order, i);
      DecodeStep(order, i, vals, out);
      var p := order[i];
      var n := Size(p.kind);
      var next := if Active(p, out) then out[p.name := DenormalizeValue(p.kind, vals[..n])] else out;
      DecodedKeeps(order, i + 1, vals[n..], next, s);
      RestrictNext(order, i, s);
      SamePart(order, i, s, out, next);
    }
  }

  lemma AllDecodedKeep(order: seq<Param>, vals: seq<real>, out: Point, s: Point)
    requires AllSound(order) && out.Keys <= Names(order[..|order|])
    requires Denormalize(order, |order|, vals, out) == Some(s)
    ensures Restrict(s, Names(order[..|order|])) == out
  {
    RestrictAll(order[..|order|], out);
  }

  lemma NextNames(order: seq<Param>, i: nat)
    requires i < |order|
    ensures Names(order[..i + 1]) == Names(order[..i]) + {order[i].name}
  {
    assert order[..i + 1] == order[..i] + [order[i]];
  }

  lemma SamePart(order: seq<Param>, i: nat, s: Point, out: Point, next: Point)
    requires i < |order| && order[i].name !in Names(order[..i]) && out.Keys <= Names(order[..i])
    requires next == out || (order[i].name in next && next == out[order[i].name := next[order[i].name]])
    requires Restrict(s, Names(order[..i + 1])) == next
    requires Names(order[..i + 1]) == Names(order[..i]) + {order[i].name}
    ensures Restrict(s, Names(order[..i])) == out
  {
    hide Names;
    var before := Restrict(s, Names(order[..i]));
    forall n ensures n in before <==> n in out {
      assert n in before ==> n in next;
      assert n in out ==> n in next;
    }
    forall n | n in out ensures before[n] == out[n] { assert next[n] == out[n]; }
  }

  // In a decoded point, parameter k holds what its segment decodes to.
  lemma {:induction false} DecodedParts(order: seq<Param>, x: Point, s: Point, i: nat, front: seq<real>, rest: seq<real>,
                                        out: Point, k: nat)
    requires Distinct(order) && AllSound(order) && i <= k < |order| && out.Keys <= Names(order[..i])
    requires Normalize(order[..i], x) == Some(front) && Normalize(order, x) == Some(front + rest)
    requires Denormalize(order, i, rest, out) == Some(s)
    ensures Segment(order[k], x).Some? && |Segment(order[k], x).value| == Size(order[k].kind)
    ensures Active(order[k], Restrict(s, Names(order[..k]))) ==>
              order[k].name in s && s[order[k].name] == DenormalizeValue(order[k].kind, Segment(order[k], x).value)
    decreases |order| - i
  {
    NextSegment(order, x, i, front, rest);
    NextNotBefore(order, i);
    NextNames(order, i);
    DecodeEnds(order, i, rest, out);
    SegmentSize(order, i, x);
    DecodeStep(order, i, rest, out);
    var p, segment := order[i], Segment(order[i], x).value;
    var next := if Active(p, out) then out[p.name := DenormalizeValue(p.kind, segment)] else out;
    DecodedKeeps(order, i, rest, out, s);
    DecodedKeeps(order, i + 1, rest[|segment|..], next, s);
    hide Active, DenormalizeValue, Size, Denormalize, AllSound, Distinct, Names, Segment, Normalize;
    if i < k {
      DecodedParts(order, x, s, i + 1, front + segment, rest[|segment|..], next, k);
    } else if Active(p, out) {
      assert p.name in Restrict(s, Names(order[..i + 1]));
    }
  }

  lemma SegmentSize(order: seq<Param>, i: nat, x: Point)
    requires i < |order| && Segment(order[i], x).Some?
    ensures |Segment(order[i], x).value| == Size(order[i].kind)
  {
  }

  lemma DecodedIsRecoverable(params: seq<Param>, order: seq<Param>, x: Point, k: nat)
    requires SpaceOK(params) && Ordering(order, params) && k < |order| && AllSound(order)
    requires IsPoint(params, Retyped(params, x))
    requires Normalize(order, x).Some?
    requires Denormalize(order, 0, Normalize(order, x).value, map[]) == Some(Settled(params, Retyped(params, x)))
    ensures Recoverable(params, x, order[k])
  {
    hide *;
    var y, p, all := Retyped(params, x), order[k], Normalize(order, x).value;
    StartOfOrder(params, order, x);
    assert [] + all == all;
    DecodedParts(order, x, Settled(params, y), 0, [], all, map[], k);
    RetypedKeys(params, x);
    SettledActivity(params, order, y, k);
    SettledAt(params, order, y, k);
    SoundIn(order, k);
    ActiveHasValue(params, order, x, k);
    if !Active(p, x) { RestingSegment(p, x); }
    RecoverableIs(params, x, p);
  }

  lemma StartOfOrder(params: seq<Param>, order: seq<Param>, x: Point)
    requires Ordering(order, params)
    ensures Distinct(order) && Normalize(order[..0], x) == Some([]) && order[..0] == []
  {
  }

  lemma ActiveHasValue(params: seq<Param>, order: seq<Param>, x: Point, k: nat)
    requires Ordering(order, params) && IsPoint(params, Retyped(params, x)) && k < |order|
    ensures Active(order[k], Retyped(params, x)) <==> order[k].name in Retyped(params, x)
    ensures Active(order[k], x) && Segment(order[k], x).Some? ==> order[k].name in x
    ensures Retyped(params, x).Keys <= Names(params) && order[k].name in Names(params)
  {
    assert order[k] in params;
    hide Active, Retyped;
  }

  lemma RecoverableIs(params: seq<Param>, x: Point, p: Param)
    requires var y := Retyped(params, x);
             && (Active(p, x) ==> Active(p, y))
             && (!Active(p, x) && Active(p, y) ==> p.name in y && Sound(p.kind) && Settle(p.kind, y[p.name]) == AtRest(p.kind))
    ensures Recoverable(params, x, p)
  {
    hide Active, Retyped, Sound, Settle, AtRest;
  }

  // Decoding the encoding gives the point back, its numbers in their declared
  // types, up to continuous ranges narrower than the tolerance.
  predicate RoundTrips(params: seq<Param>, order: seq<Param>, x: Point)
    requires AllSound(order)
  {
    && Normalize(order, x).Some?
    && Denormalize(order, 0, Normalize(order, x).value, map[]) == Some(Settled(params, Retyped(params, x)))
  }

  // The values lie in their domains; nothing is said of which are there.
  predicate InRange(params: seq<Param>, x: Point) {
    forall p :: p in params && p.name in x ==> InDomain(p.kind, x[p.name])
  }

  lemma PointsRoundTrip(params: seq<Param>, order: seq<Param>, x: Point)
    requires SpaceOK(params) && NoBooleanChoice(params) && Ordering(order, params)
    requires IsPoint(params, Retyped(params, x)) && AllSound(order)
    ensures RoundTrips(params, order, x) <==> AllRecoverable(params, x)
  {
    var s := Settled(params, Retyped(params, x));
    if AllRecoverable(params, x) {
      SettledNames(params, order, Retyped(params, x));
      hide Fits, Normalize, Denormalize, Settled, Retyped, AllRecoverable, IsPoint, SpaceOK, NoBooleanChoice, Ordering, AllSound;
      forall i | 0 <= i < |order| ensures Fits(order, x, s, i) { RetypedFits(params, order, x, i); }
      FitAll(order, x, s);
      FittingDecodes(order, x, s);
    } else {
      var p :| p in params && !Recoverable(params, x, p);
      var k :| 0 <= k < |order| && order[k] == p;
      hide Normalize, Denormalize, Settled, Retyped, Recoverable, IsPoint, SpaceOK, NoBooleanChoice, Ordering, AllSound;
      if RoundTrips(params, order, x) { DecodedIsRecoverable(params, order, x, k); }
    }
  }

  lemma SettledKeepsActivity(params: seq<Param>, y: Point, p: Param)
    requires SpaceOK(params) && p in params && y.Keys <= Names(params)
    ensures Active(p, Settled(params, y)) <==> Active(p, y)
  {
    forall c | c in p.conditions ensures Met(c, y) <==> Met(c, Settled(params, y)) {
      assert !Lookup(params, c.controller).kind.Continuous?;
    }
  }

  // What round trips within its domains is a point.
  lemma RoundTripIsPoint(params: seq<Param>, order: seq<Param>, x: Point)
    requires SpaceOK(params) && Ordering(order, params) && AllSound(order)
    requires RoundTrips(params, order, x) && InRange(params, Retyped(params, x))
    ensures IsPoint(params, Retyped(params, x))
  {
    var y := Retyped(params, x);
    assert y.Keys <= Names(params);
    assert order[..0] == [] && Decided(order, 0, map[]);
    DecodedIsPoint(params, order, 0, Normalize(order, x).value, map[]);
    hide SpaceOK, Ordering, Settled, Retyped, Normalize, Denormalize, Decided, Names, AllSound, IsPoint;
    SettledPoint(params, y);
  }

  lemma SettledPoint(params: seq<Param>, y: Point)
    requires SpaceOK(params) && y.Keys <= Names(params) && InRange(params, y) && IsPoint(params, Settled(params, y))
    ensures IsPoint(params, y)
  {
    assert Settled(params, y).Keys == y.Keys;
    hide SpaceOK, Settled, Active, Names;
    forall p | p in params ensures p.name in y <==> Active(p, y) { SettledKeepsActivity(params, y, p); }
  }

  // Main result: a point's values lie in their domains and come back from decoding
  // its encoding if and only if it is a point of the space in its declared types and
  // each parameter that its untyped controllers leave out holds the value at rest.
  lemma PointRoundTrip(params: seq<Param>, order: seq<Param>, x: Point)
    requires SpaceOK(params) && NoBooleanChoice(params) && Ordering(order, params)
    ensures AllSound(order)
    ensures RoundTrips(params, order, x) && InRange(params, Retyped(params, x))
       <==> IsPoint(params, Retyped(params, x)) && AllRecoverable(params, x)
  {
    SoundOrder(params, order);
    assert IsPoint(params, Retyped(params, x)) ==> InRange(params, Retyped(params, x)) by { hide InDomain, Retyped; }
    hide *;
    if IsPoint(params, Retyped(params, x)) {
      PointsRoundTrip(params, order, x);
    } else if RoundTrips(params, order, x) && InRange(params, Retyped(params, x)) {
      RoundTripIsPoint(params, order, x);
    }
  }

  lemma FitAll(order: seq<Param>, x: Point, s: Point)
    requires s.Keys <= Names(order) && forall i :: 0 <= i < |order| ==> Fits(order, x, s, i)
    ensures AllFit(order, x, s)
  {
    hide Fits;
  }

  lemma SettledNames(params: seq<Param>, order: seq<Param>, y: Point)
    requires Ordering(order, params)
    ensures Settled(params, y).Keys <= Names(order)
  {
    SameNames(order, params);
  }

  // It holds for all points whose controllers have values of their own type.
  lemma TypedIsRecoverable(params: seq<Param>, x: Point)
    requires SpaceOK(params)
    requires forall p, c :: p in params && c in p.conditions && c.controller in x && c.controller in Names(params) ==>
               Retyped(params, x)[c.controller] == x[c.controller]
    ensures AllRecoverable(params, x)
  {
    var y := Retyped(params, x);
    forall p | p in params ensures Active(p, y) <==> Active(p, x) {
      forall c | c in p.conditions ensures Met(c, y) <==> Met(c, x) {
        assert c.controller in Names(params);
      }
    }
  }

  // On points of the space retyping does nothing.
  lemma PointsAreTyped(params: seq<Param>, x: Point)
    requires SpaceOK(params) && IsPoint(params, x)
    ensures x.Keys <= Names(params) && Retyped(params, x) == x && AllRecoverable(params, x)
  {
    assert x.Keys <= Names(params);
    forall n | n in x ensures Retype(Lookup(params, n).kind, x[n]) == x[n] {
      assert InDomain(Lookup(params, n).kind, x[n]);
    }
    hide SpaceOK, IsPoint, Retype, Names;
    assert Retyped(params, x) == x;
  }

  function Switched(): seq<Param> {
    [Param("a", Integer(0, 2), []), Param("b", Boolean, [Condition("a", [Int(1)])])]
  }

  // Without typed controllers the round trip loses values: the encoding of a whole
  // number written as a float leaves its dependents out, and decoding puts them in.
  lemma UntypedControllersLoseValues()
    ensures var x: Point := map["a" := Float(1.0), "b" := Bool(true)];
            var lost: Point := map["a" := Int(1), "b" := Bool(false)];
            && SpaceOK(Switched()) && Ordering(Switched(), Switched())
            && Retyped(Switched(), x) == map["a" := Int(1), "b" := Bool(true)] && IsPoint(Switched(), Retyped(Switched(), x))
            && AllSound(Switched()) && Normalize(Switched(), x).Some?
            && Denormalize(Switched(), 0, Normalize(Switched(), x).value, map[]) == Some(lost)
    ensures var bare: Point := map["a" := Float(1.0)];
            var gained: Point := map["a" := Int(1), "b" := Bool(false)];
            && AllSound(Switched()) && Normalize(Switched(), bare).Some?
            && Denormalize(Switched(), 0, Normalize(Switched(), bare).value, map[]) == Some(gained)
  {
    var x: Point := map["a" := Float(1.0), "b" := Bool(true)];
    hide *;
    SwitchedCode(map["a" := Float(1.0)]);
    SwitchedSpace();
    SwitchedPoint(x);
    SwitchedCode(x);
    SwitchedBack();
  }

  lemma SwitchedSpace()
    ensures SpaceOK(Switched()) && Ordering(Switched(), Switched()) && AllSound(Switched())
    ensures Names(Switched()) == {"a", "b"}
    ensures Lookup(Switched(), "a") == Switched()[0] && Lookup(Switched(), "b") == Switched()[1]
  {
    var params := Switched();
    assert params[..1] == [params[0]] && params[0] in params && params[1] in params;
    assert Distinct(params);
    assert Names(params) == {"a", "b"};
    SameName(params, params[0], Lookup(params, "a"));
    SameName(params, params[1], Lookup(params, "b"));
    hide Lookup, Names;
    assert KnownControllers(params);
    assert ControllersFirst(params) by { assert Names(params[..1]) == {"a"} by { SwitchedFirst(); } }
  }

  lemma SwitchedFirst()
    ensures Names(Switched()[..1]) == {"a"}
  {
    assert Switched()[..1] == [Switched()[0]];
  }

  lemma SwitchedPoint(x: Point)
    requires x == map["a" := Float(1.0), "b" := Bool(true)]
    ensures Retyped(Switched(), x) == map["a" := Int(1), "b" := Bool(true)]
    ensures IsPoint(Switched(), Retyped(Switched(), x))
  {
    SwitchedSpace();
    hide Lookup, Names, SpaceOK, Ordering, AllSound;
    assert Retyped(Switched(), x) == map["a" := Int(1), "b" := Bool(true)];
    hide Retyped;
    assert Active(Switched()[1], map["a" := Int(1), "b" := Bool(true)]);
  }

  lemma SwitchedCode(x: Point)
    requires "a" in x && x["a"] == Float(1.0)
    ensures Normalize(Switched(), x) == Some([0.5, 0.0])
  {
    var params := Switched();
    assert params[..1] == [params[0]] && params[..1][..0] == [];
    assert Segment(params[0], x) == Some([0.5]);
    assert !Active(params[1], x) by { assert params[1].conditions[0] in params[1].conditions; }
    assert Zeros(1) == [0.0];
    assert Segment(params[1], x) == Some([0.0]);
    hide Segment;
    assert Normalize([], x) == Some([]);
    assert [] + [0.5] == [0.5];
    assert params[..1] != [] && params[..1][|params[..1]| - 1] == params[0];
    assert Normalize(params[..1], x) == Some([0.5]);
    assert params != [] && |params| == 2 && params[..|params| - 1] == params[..1];
    assert Normalize(params, x) == Some([0.5] + [0.0]);
    assert [0.5] + [0.0] == [0.5, 0.0];
  }

  lemma SwitchedBack()
    ensures AllSound(Switched())
    ensures Denormalize(Switched(), 0, [0.5, 0.0], map[]) == Some(map["a" := Int(1), "b" := Bool(false)])
  {
    var params := Switched();
    assert DenormalizeValue(params[0].kind, [0.5]) == Int(1);
    assert DenormalizeValue(params[1].kind, [0.0]) == Bool(false);
    hide DenormalizeValue;
    assert Active(params[0], map[]) && Active(params[1], map["a" := Int(1)]);
    DecodeStep(params, 0, [0.5, 0.0], map[]);
    assert [0.5, 0.0][1..] == [0.0] && [0.5, 0.0][..1] == [0.5];
    DecodeStep(params, 1, [0.0], map["a" := Int(1)]);
    assert [0.0][..1] == [0.0] && [0.0][1..] == [];
    DecodeEnds(params, 2, [], map["a" := Int(1), "b" := Bool(false)]);
  }

  // How far the decoded point can be: exact except in such ranges, and there by
  // less than the tolerance.
  lemma SettledIsClose(params: seq<Param>, x: Point, p: Param)
    requires SpaceOK(params) && IsPoint(params, x) && p in params && p.name in x
    ensures Settled(params, x).Keys == x.Keys
    ensures var v, w := x[p.name], Settled(params, x)[p.name];
            if p.kind.Continuous? && p.kind.high - p.kind.low < TOLERANCE
            then v.Float? && w.Float? && 0.0 <= v.r - w.r < TOLERANCE
            else v == w
  {
    SameName(params, p, Lookup(params, p.name));
  }

  predicate NoFlatRange(params: seq<Param>) {
    forall p :: p in params && p.kind.Continuous? ==> p.kind.high - p.kind.low >= TOLERANCE
  }

  // Main result: the encoding is injective, although inactive segments look like
  // lower bounds.
  lemma NormalizeIsInjective(params: seq<Param>, order: seq<Param>, x: Point, y: Point)
    requires SpaceOK(params) && NoBooleanChoice(params) && Ordering(order, params)
    requires IsPoint(params, Retyped(params, x)) && AllRecoverable(params, x)
    requires IsPoint(params, Retyped(params, y)) && AllRecoverable(params, y)
    requires Normalize(order, x) == Normalize(order, y)
    ensures Settled(params, Retyped(params, x)) == Settled(params, Retyped(params, y))
    ensures NoFlatRange(params) ==> Retyped(params, x) == Retyped(params, y)
    ensures NoFlatRange(params) && IsPoint(params, x) && IsPoint(params, y) ==> x == y
  {
    hide *;
    PointRoundTrip(params, order, x);
    PointRoundTrip(params, order, y);
    SameDecoded(params, order, x, y);
    if NoFlatRange(params) {
      NothingSettles(params, Retyped(params, x));
      NothingSettles(params, Retyped(params, y));
    }
    if IsPoint(params, x) && IsPoint(params, y) {
      PointsAreTyped(params, x);
      PointsAreTyped(params, y);
    }
  }

  lemma SameDecoded(params: seq<Param>, order: seq<Param>, x: Point, y: Point)
    requires AllSound(order) && RoundTrips(params, order, x) && RoundTrips(params, order, y)
    requires Normalize(order, x) == Normalize(order, y)
    ensures Settled(params, Retyped(params, x)) == Settled(params, Retyped(params, y))
  {
    hide Normalize, Denormalize, Settled, Retyped, AllSound;
  }

  lemma NothingSettles(params: seq<Param>, x: Point)
    requires SpaceOK(params) && IsPoint(params, x)
    requires NoFlatRange(params)
    ensures Settled(params, x) == x
  {
    forall n | n in x ensures n in Settled(params, x) && Settled(params, x)[n] == x[n] {
      SettledIsClose(params, x, Lookup(params, n));
    }
  }

  // ---- decoding arbitrary numbers ------------------------------------------------------------------

  lemma SpreadStays(u: real, lo: real, hi: real)
    requires lo <= hi
    ensures lo <= Spread(u, lo, hi) <= hi
  {
    var c, d := Clamp(u), hi - lo;
    Products(c, d);
  }

  lemma Products(c: real, d: real)
    requires 0.0 <= c <= 1.0 && d >= 0.0
    ensures 0.0 <= c * d <= d
  {
    assert c * d + (1.0 - c) * d == d;
  }

  lemma DenormalizedInDomain(k: Kind, segment: seq<real>)
    requires Sound(k) && |segment| == Size(k)
    ensures InDomain(k, DenormalizeValue(k, segment))
  {
    if k.Continuous? { SpreadStays(segment[0], k.low, k.high); }
  }

  function TotalSize(order: seq<Param>): nat {
    if order == [] then 0 else Size(order[0].kind) + TotalSize(order[1..])
  }

  // Main result: any numbers of the right total length decode, and always to a
  // point of the space.
  lemma {:induction false} DecodedIsPoint(params: seq<Param>, order: seq<Param>, i: nat, vals: seq<real>, out: Point)
    requires SpaceOK(params) && Ordering(order, params) && i <= |order| && Decided(order, i, out)
    requires AllSound(order)
    ensures Denormalize(order, i, vals, out).Some? <==> |vals| == TotalSize(order[i..])
    ensures Denormalize(order, i, vals, out).Some? ==> IsPoint(params, Denormalize(order, i, vals, out).value)
    decreases |order| - i
  {
    if i == |order| {
      DecidedIsPoint(order, params, out);
    } else {
      var p := order[i];
      assert p in order && order[i..][1..] == order[i + 1..];
      var n := Size(p.kind);
      if |vals| >= n {
        DenormalizedInDomain(p.kind, vals[..n]);
        var next := if Active(p, out) then out[p.name := DenormalizeValue(p.kind, vals[..n])] else out;
        assert Distinct(order) && ControllersFirst(order);
        hide Active, Decided, DenormalizeValue, InDomain, Size, SpaceOK, Ordering, IsPoint;
        DecideNext(order, i, out, next);
        DecodedIsPoint(params, order, i + 1, vals[n..], next);
      }
    }
  }
}
