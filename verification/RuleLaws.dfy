// What the constraint rules mean, without the sums they are computed by.
module RuleLaws {
  import opened Wrappers
  import opened Space
  import opened Constraints

  // ---- linear rules -------------------------------------------------------------------

  // A rule without terms compares its right-hand side with zero.
  lemma NoTerms(rhs: real, x: Point)
    ensures LinearViolated(Linear([], true, rhs), x) <==> rhs < -0.000000000001
    ensures LinearViolated(Linear([], false, rhs), x) <==> rhs > 0.000000000001
  {
  }

  // A term may be moved to the other side. With NoTerms this decides every rule.
  lemma TermMoves(terms: seq<Term>, t: Term, atMost: bool, rhs: real, x: Point, value: real)
    requires t.param in x && (x[t.param] == Float(value) || (value == value.Floor as real && x[t.param] == Int(value.Floor)))
    ensures LinearViolated(Linear(terms + [t], atMost, rhs), x)
       <==> LinearViolated(Linear(terms, atMost, rhs - t.coefficient * value), x)
  {
    var more := terms + [t];
    assert more[..|terms|] == terms && more[|terms|] == t;
    assert Assigned(more, x) <==> Assigned(terms, x) by {
      if Assigned(more, x) { forall u | u in terms ensures NumberAt(x, u.param).Some? { assert u in more; } }
    }
    assert NumberAt(x, t.param) == Some(value);
  }

  // A rule says nothing while one of its parameters is not assigned.
  lemma UnassignedIsNoViolation(rule: Linear, t: Term, x: Point)
    requires t in rule.terms && t.param !in x
    ensures !LinearViolated(rule, x)
  {
  }

  // An at-least rule is the at-most rule with all signs turned.
  function Turned(terms: seq<Term>): (r: seq<Term>)
    ensures |r| == |terms| && forall i :: 0 <= i < |r| ==> r[i] == Term(terms[i].param, -terms[i].coefficient)
  {
    seq(|terms|, i requires 0 <= i < |terms| => Term(terms[i].param, -terms[i].coefficient))
  }

  lemma {:induction false} TurnedSum(terms: seq<Term>, x: Point)
    requires Assigned(terms, x)
    ensures Assigned(Turned(terms), x) && Sum(Turned(terms), x) == -Sum(terms, x)
  {
    forall t | t in Turned(terms) ensures NumberAt(x, t.param).Some? {
      var i :| 0 <= i < |terms| && Turned(terms)[i] == t;
      assert terms[i] in terms;
    }
    if terms != [] {
      var n := |terms| - 1;
      TurnedSum(terms[..n], x);
      assert Turned(terms)[..n] == Turned(terms[..n]);
      var value := NumberAt(x, terms[n].param).value;
      assert -terms[n].coefficient * value == -(terms[n].coefficient * value);
    }
  }

  lemma AtLeastIsTurned(terms: seq<Term>, rhs: real, x: Point)
    requires Assigned(terms, x)
    ensures LinearViolated(Linear(terms, false, rhs), x) <==> LinearViolated(Linear(Turned(terms), true, -rhs), x)
  {
    TurnedSum(terms, x);
  }

  // No term of y exceeds that of x.
  predicate TermsAtMost(terms: seq<Term>, y: Point, x: Point)
    requires Assigned(terms, x) && Assigned(terms, y)
  {
    forall t :: t in terms ==>
      t.coefficient * NumberAt(y, t.param).value <= t.coefficient * NumberAt(x, t.param).value
  }

  lemma {:induction false} SmallerSum(terms: seq<Term>, y: Point, x: Point)
    requires Assigned(terms, x) && Assigned(terms, y) && TermsAtMost(terms, y, x)
    ensures Sum(terms, y) <= Sum(terms, x)
  {
    if terms != [] {
      var n := |terms| - 1;
      assert terms[n] in terms;
      SmallerSum(terms[..n], y, x);
    }
  }

  // Main result: making terms smaller never breaks an at-most rule, and making them
  // greater never breaks an at-least rule.
  lemma SmallerTermsKeepRule(terms: seq<Term>, rhs: real, y: Point, x: Point)
    requires Assigned(terms, x) && Assigned(terms, y) && TermsAtMost(terms, y, x)
    ensures !LinearViolated(Linear(terms, true, rhs), x) ==> !LinearViolated(Linear(terms, true, rhs), y)
    ensures !LinearViolated(Linear(terms, false, rhs), y) ==> !LinearViolated(Linear(terms, false, rhs), x)
  {
    SmallerSum(terms, y, x);
  }

  // What one parameter weighs in a rule.
  function WeightOf(terms: seq<Term>, name: string): real {
    if terms == [] then 0.0
    else WeightOf(terms[1..], name) + if terms[0].param == name then terms[0].coefficient else 0.0
  }

  lemma {:induction false} WeightAppends(terms: seq<Term>, t: Term, name: string)
    ensures WeightOf(terms + [t], name) == WeightOf(terms, name) + if t.param == name then t.coefficient else 0.0
  {
    if terms == [] {
      assert ([] + [t])[1..] == [];
    } else {
      WeightAppends(terms[1..], t, name);
      assert (terms + [t])[1..] == terms[1..] + [t];
    }
  }

  lemma SumNext(terms: seq<Term>, x: Point)
    requires terms != [] && Assigned(terms, x)
    ensures var n := |terms| - 1;
            && Assigned(terms[..n], x) && NumberAt(x, terms[n].param).Some?
            && Sum(terms, x) == Sum(terms[..n], x) + Times(terms[n].coefficient, NumberAt(x, terms[n].param).value)
  {
    assert terms[|terms| - 1] in terms;
  }

  lemma {:induction false} SumMoves(terms: seq<Term>, x: Point, name: string, value: real)
    requires Assigned(terms, x[name := Float(0.0)])
    ensures Assigned(terms, x[name := Float(value)])
    ensures Sum(terms, x[name := Float(value)]) == Sum(terms, x[name := Float(0.0)]) + Times(WeightOf(terms, name), value)
  {
    StillAssigned(terms, x, name, value);
    if terms == [] {
      assert Times(0.0, value) == 0.0;
    } else {
      var n := |terms| - 1;
      var t := terms[n];
      assert terms == terms[..n] + [t];
      hide *;
      SumNext(terms, x[name := Float(0.0)]);
      SumNext(terms, x[name := Float(value)]);
      SumMoves(terms[..n], x, name, value);
      WeightAppends(terms[..n], t, name);
      TermMovesBy(t, x, name, value);
      Distributes(WeightOf(terms[..n], name), t.coefficient, value);
    }
  }

  lemma StillAssigned(terms: seq<Term>, x: Point, name: string, value: real)
    requires Assigned(terms, x[name := Float(0.0)])
    ensures Assigned(terms, x[name := Float(value)])
  {
    forall t | t in terms ensures NumberAt(x[name := Float(value)], t.param).Some? {
      assert NumberAt(x[name := Float(0.0)], t.param).Some?;
    }
  }

  lemma TermMovesBy(t: Term, x: Point, name: string, value: real)
    requires NumberAt(x[name := Float(0.0)], t.param).Some?
    ensures NumberAt(x[name := Float(value)], t.param).Some?
    ensures Times(t.coefficient, NumberAt(x[name := Float(value)], t.param).value)
         == Times(t.coefficient, NumberAt(x[name := Float(0.0)], t.param).value)
            + if t.param == name then Times(t.coefficient, value) else 0.0
  {
  }

  lemma Distributes(a: real, b: real, v: real)
    ensures Times(a + b, v) == Times(a, v) + Times(b, v)
    ensures a + 0.0 == a
  {
  }

  // Main result: with all else fixed, an at-most rule with a positive weight on one
  // parameter is violated exactly above a threshold; mirrored for a negative weight
  // and for at-least rules, and independent of the parameter at weight zero.
  lemma RuleIsAThreshold(terms: seq<Term>, atMost: bool, rhs: real, x: Point, name: string) returns (level: real)
    requires Assigned(terms, x[name := Float(0.0)])
    ensures var w := WeightOf(terms, name);
            forall v: real ::
              (LinearViolated(Linear(terms, atMost, rhs), x[name := Float(v)]) <==>
                 if w == 0.0 then LinearViolated(Linear(terms, atMost, rhs), x[name := Float(0.0)])
                 else if (w > 0.0) == atMost then v > level
                 else v < level)
  {
    var w, rest := WeightOf(terms, name), Sum(terms, x[name := Float(0.0)]);
    var slack := if atMost then rhs + TOLERANCE - rest else rhs - TOLERANCE - rest;
    level := if w == 0.0 then 0.0 else slack / w;
    forall v: real
      ensures Assigned(terms, x[name := Float(v)])
      ensures LinearViolated(Linear(terms, atMost, rhs), x[name := Float(v)]) <==>
                if atMost then Times(w, v) > slack else Times(w, v) < slack
    {
      hide WeightOf, Times, Sum;
      SumMoves(terms, x, name, v);
    }
    hide LinearViolated, WeightOf, Sum, Times;
    if w == 0.0 {
      forall v: real ensures Times(w, v) == 0.0 { ZeroTimes(v); }
    } else {
      forall v: real
        ensures w > 0.0 ==> (Times(w, v) > slack <==> v > level) && (Times(w, v) < slack <==> v < level)
        ensures w < 0.0 ==> (Times(w, v) > slack <==> v < level) && (Times(w, v) < slack <==> v > level)
      {
        Threshold(w, v, slack, level);
      }
    }
  }

  lemma ZeroTimes(v: real)
    ensures Times(0.0, v) == 0.0
  {
  }

  lemma Threshold(w: real, v: real, slack: real, level: real)
    requires w != 0.0 && level == slack / w
    ensures w > 0.0 ==> (Times(w, v) > slack <==> v > level) && (Times(w, v) < slack <==> v < level)
    ensures w < 0.0 ==> (Times(w, v) > slack <==> v < level) && (Times(w, v) < slack <==> v > level)
  {
    assert w * level == slack;
    assert w * v - slack == w * (v - level);
    Signs(w, v - level);
  }

  lemma Signs(w: real, d: real)
    requires w != 0.0
    ensures w > 0.0 ==> (w * d > 0.0 <==> d > 0.0) && (w * d < 0.0 <==> d < 0.0)
    ensures w < 0.0 ==> (w * d > 0.0 <==> d < 0.0) && (w * d < 0.0 <==> d > 0.0)
  {
  }

  // ---- bound rules and forbidden combinations ----------------------------------------------

  // A bound rule accepts exactly the closed band around its bounds, and every point
  // that does not assign its parameter a number.
  lemma BoundRuleIsABand(rule: Bound, x: Point, value: real)
    ensures rule.param !in x ==> !BoundViolated(rule, x)
    ensures rule.param in x && (x[rule.param].Str? || x[rule.param].Bool?) ==> !BoundViolated(rule, x)
    ensures rule.param in x && x[rule.param] == Float(value) ==>
              (!BoundViolated(rule, x) <==>
                 (rule.min.Some? ==> rule.min.value <= value + 0.000000000001)
                 && (rule.max.Some? ==> value <= rule.max.value + 0.000000000001))
  {
  }

  // Integers and floats of the same size are the same to bound and linear rules.
  lemma IntegersCount(bound: Bound, linear: Linear, x: Point, name: string, i: int)
    ensures BoundViolated(bound, x[name := Int(i)]) <==> BoundViolated(bound, x[name := Float(i as real)])
    ensures LinearViolated(linear, x[name := Int(i)]) <==> LinearViolated(linear, x[name := Float(i as real)])
  {
    SameNumbers(linear.terms, x[name := Int(i)], x[name := Float(i as real)]);
  }

  lemma {:induction false} SameNumbers(terms: seq<Term>, x: Point, y: Point)
    requires forall n :: NumberAt(x, n) == NumberAt(y, n)
    ensures Assigned(terms, x) <==> Assigned(terms, y)
    ensures Assigned(terms, x) ==> Sum(terms, x) == Sum(terms, y)
  {
    if terms != [] && Assigned(terms, x) { SameNumbers(terms[..|terms| - 1], x, y); }
  }

  // A forbidden combination is violated exactly when every parameter it names is
  // assigned one of the values it lists.
  lemma ForbiddenNeedsEveryTerm(rule: seq<Condition>, c: Condition, x: Point)
    ensures ForbiddenViolated([], x)
    ensures ForbiddenViolated(rule + [c], x)
       <==> ForbiddenViolated(rule, x) && c.controller in x && exists v :: v in c.allowed && v == x[c.controller]
  {
    var more := rule + [c];
    if ForbiddenViolated(more, x) {
      assert c in more;
      forall d | d in rule ensures Met(d, x) { assert d in more; }
    }
  }
}
