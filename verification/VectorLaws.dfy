// What one encoded entry means, in terms of distances.
module VectorLaws {
  import opened Wrappers
  import opened Space
  import opened SpaceVector

  // How far a number is from an integer.
  function Gap(n: int, x: real): real {
    if n as real >= x then n as real - x else x - n as real
  }

  // Main result: an entry decodes to the integer nearest to the place it marks between
  // the bounds, to the even one halfway between two, entries outside the unit interval
  // counting as its ends.
  lemma DecodedIntegerIsNearest(lo: int, hi: int, u: real)
    requires lo <= hi
    ensures var n := DenormalizeValue(Integer(lo, hi), [u]);
            var unit := if u < 0.0 then 0.0 else if u > 1.0 then 1.0 else u;
            var place := lo as real + Times(unit, (hi - lo) as real);
            && n.Int? && lo <= n.i <= hi
            && (forall m: int :: Gap(n.i, place) <= Gap(m, place))
            && (Gap(n.i, place) == 0.5 ==> n.i % 2 == 0)
  {
    var unit := if u < 0.0 then 0.0 else if u > 1.0 then 1.0 else u;
    var place := lo as real + Times(unit, (hi - lo) as real);
    assert Clamp(u) == unit;
    SpreadStays(u, lo as real, hi as real);
    SpreadIsPlace(u, lo, hi);
    RoundIsNearest(place);
    BetweenBounds(place, lo, hi);
    hide Round, Spread, Times, Gap;
  }

  lemma SpreadIsPlace(u: real, lo: int, hi: int)
    requires lo <= hi
    ensures Spread(u, lo as real, hi as real) == lo as real + Times(Clamp(u), (hi - lo) as real)
  {
    assert (hi - lo) as real == hi as real - lo as real;
    if lo == hi { assert Clamp(u) * 0.0 == 0.0; } else { assert (hi - lo) as real >= 1.0; }
  }

  lemma RoundIsNearest(x: real)
    ensures forall m: int :: Gap(Round(x), x) <= Gap(m, x)
    ensures Gap(Round(x), x) == 0.5 ==> Round(x) % 2 == 0
  {
    var f := x.Floor;
    assert f as real <= x < f as real + 1.0;
    forall m: int ensures Gap(Round(x), x) <= Gap(m, x) {
      assert m <= f || m >= f + 1;
    }
  }

  lemma BetweenBounds(x: real, lo: int, hi: int)
    requires lo as real <= x <= hi as real
    ensures lo <= Round(x) <= hi
  {
  }

  // A boolean entry counts from one half on.
  lemma DecodedBooleanIsAtLeastHalf(u: real)
    ensures DenormalizeValue(Boolean, [u]) == Bool(u >= 0.5)
  {
  }

  // A continuous entry marks its place between the bounds, unless these are closer
  // than the tolerance.
  lemma DecodedFloatIsPlace(low: real, high: real, u: real)
    requires low <= high
    ensures var unit := if u < 0.0 then 0.0 else if u > 1.0 then 1.0 else u;
            DenormalizeValue(Continuous(low, high), [u])
            == Float(if high - low < 0.000000000001 then low else low + Times(unit, high - low))
  {
  }

  lemma {:induction false} FirstGreatest(vals: seq<real>)
    requires vals != []
    ensures forall i :: 0 <= i < |vals| ==> vals[i] <= vals[ArgMax(vals)]
    ensures forall i :: 0 <= i < ArgMax(vals) ==> vals[i] < vals[ArgMax(vals)]
  {
    if |vals| > 1 { FirstGreatest(vals[..|vals| - 1]); }
  }

  // Main result: a categorical segment decodes to the choice of its first greatest entry.
  lemma DecodedChoiceIsFirstGreatest(choices: seq<Value>, segment: seq<real>) returns (k: nat)
    requires Sound(Categorical(choices)) && |segment| == |choices|
    ensures k < |segment| && DenormalizeValue(Categorical(choices), segment) == choices[k]
    ensures forall i :: 0 <= i < |segment| ==> segment[i] <= segment[k]
    ensures forall i :: 0 <= i < k ==> segment[i] < segment[k]
  {
    FirstGreatest(segment);
    k := ArgMax(segment);
  }

  // ---- encoding ------------------------------------------------------------------------

  // Main result: a number is encoded by its place between the bounds, ends counting for
  // what lies beyond, and by zero if the bounds are closer than the tolerance.
  lemma EncodedNumberIsPlace(low: real, high: real, v: real)
    requires low <= high
    ensures var e := NormalizeValue(Continuous(low, high), Float(v));
            && e.Some? && |e.value| == 1 && 0.0 <= e.value[0] <= 1.0
            && (high - low < 0.000000000001 ==> e.value[0] == 0.0)
            && (high - low >= 0.000000000001 ==>
                  (v <= low ==> e.value[0] == 0.0) && (v >= high ==> e.value[0] == 1.0)
                  && (low <= v <= high ==> Times(e.value[0], high - low) == v - low))
  {
    var d := high - low;
    if d >= 0.000000000001 {
      var q := (v - low) / d;
      assert q * d == v - low;
      Sides(q, d);
    }
  }

  lemma Sides(q: real, d: real)
    requires d > 0.0
    ensures q <= 0.0 <==> q * d <= 0.0
    ensures q >= 1.0 <==> q * d >= d
  {
    if q > 0.0 { assert q * d > 0.0; }
    if q < 1.0 { assert (1.0 - q) * d > 0.0; }
    if q > 1.0 { assert (q - 1.0) * d > 0.0; }
    if q < 0.0 { assert (-q) * d > 0.0; }
  }

  // An integer parameter encodes whole numbers of either type as a continuous one with
  // the same bounds would, and refuses every other value; a continuous parameter
  // refuses what is no number.
  lemma EncodedIntegerIsPlace(lo: int, hi: int, v: Value)
    ensures NormalizeValue(Integer(lo, hi), v)
         == match v
            case Int(i) => NormalizeValue(Continuous(lo as real, hi as real), Float(i as real))
            case Float(r) => if r == r.Floor as real then NormalizeValue(Continuous(lo as real, hi as real), v) else None
            case _ => None
    ensures v.Int? ==>
              NormalizeValue(Continuous(lo as real, hi as real), v)
              == NormalizeValue(Continuous(lo as real, hi as real), Float(v.i as real))
    ensures v.Str? || v.Bool? ==> NormalizeValue(Continuous(lo as real, hi as real), v) == None
  {
  }

  // A choice is encoded by a one in its place and zeros elsewhere, a boolean by one or
  // zero; booleans are refused as choices.
  lemma EncodedChoiceIsOneHot(choices: seq<Value>, i: nat)
    requires Sound(Categorical(choices)) && i < |choices|
    ensures var e := NormalizeValue(Categorical(choices), choices[i]);
            if choices[i].Bool? then e == None
            else
              && e.Some? && |e.value| == |choices| && e.value[i] == 1.0
              && forall k :: 0 <= k < |choices| && k != i ==> e.value[k] == 0.0
    ensures NormalizeValue(Boolean, Bool(true)) == Some([1.0]) && NormalizeValue(Boolean, Bool(false)) == Some([0.0])
  {
    assert IndexOf(choices, choices[i]) == i;
  }

  // An inactive parameter is encoded by zeros, as many as its segment has entries.
  lemma InactiveIsZeros(p: Param, x: Point)
    ensures !Active(p, x) ==>
              var e := Segment(p, x);
              e.Some? && |e.value| == (if p.kind.Categorical? then |p.kind.choices| else 1)
              && forall k :: 0 <= k < |e.value| ==> e.value[k] == 0.0
    ensures Active(p, x) && p.name !in x ==> Segment(p, x) == None
  {
  }
}
