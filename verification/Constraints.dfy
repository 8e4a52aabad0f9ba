// Constraint rules on public points (templates/_shared/constraints.py).
module Constraints {
  import opened Wrappers
  import opened Space

  datatype Bound = Bound(param: string, min: Option<real>, max: Option<real>)

  datatype Term = Term(param: string, coefficient: real)

  datatype Linear = Linear(terms: seq<Term>, atMost: bool, rhs: real)

  datatype Rules = Rules(bounds: seq<Bound>, linear: seq<Linear>, forbidden: seq<seq<Condition>>)

  datatype RuleId = BoundRule(i: nat) | LinearRule(i: nat) | ForbiddenRule(i: nat)

  function NumberAt(x: Point, name: string): Option<real> {
    if name in x then Number(x[name]) else None
  }

  predicate BoundViolated(rule: Bound, x: Point) {
    var v := NumberAt(x, rule.param);
    v.Some? && ((rule.min.Some? && v.value < rule.min.value - TOLERANCE)
                || (rule.max.Some? && v.value > rule.max.value + TOLERANCE))
  }

  predicate Assigned(terms: seq<Term>, x: Point) {
    forall t :: t in terms ==> NumberAt(x, t.param).Some?
  }

  function Sum(terms: seq<Term>, x: Point): real
    requires Assigned(terms, x)
  {
    if terms == [] then 0.0
    else
      var t := terms[|terms| - 1];
      Sum(terms[..|terms| - 1], x) + t.coefficient * NumberAt(x, t.param).value
  }

  predicate LinearViolated(rule: Linear, x: Point) {
    Assigned(rule.terms, x) &&
    var lhs := Sum(rule.terms, x);
    if rule.atMost then lhs > rule.rhs + TOLERANCE else lhs < rule.rhs - TOLERANCE
  }

  predicate ForbiddenViolated(rule: seq<Condition>, x: Point) {
    forall c :: c in rule ==> Met(c, x)
  }

  predicate Violates(rules: Rules, id: RuleId, x: Point) {
    match id
    case BoundRule(i) => i < |rules.bounds| && BoundViolated(rules.bounds[i], x)
    case LinearRule(i) => i < |rules.linear| && LinearViolated(rules.linear[i], x)
    case ForbiddenRule(i) => i < |rules.forbidden| && ForbiddenViolated(rules.forbidden[i], x)
  }

  ghost predicate Feasible(rules: Rules, x: Point) {
    forall id :: !Violates(rules, id, x)
  }

  // y assigns everything x assigns, the same way.
  predicate Extends(y: Point, x: Point) {
    forall n :: n in x ==> n in y && y[n] == x[n]
  }

  // ---- evaluation -----------------------------------------------------------------------------

  method SumOf(terms: seq<Term>, x: Point) returns (lhs: real)
    requires Assigned(terms, x)
    ensures lhs == Sum(terms, x)
  {
    lhs := 0.0;
    for i := 0 to |terms|
      invariant Assigned(terms[..i], x) && lhs == Sum(terms[..i], x)
    {
      assert terms[..i + 1][..i] == terms[..i];
      assert forall t :: t in terms[..i + 1] ==> t in terms;
      lhs := lhs + terms[i].coefficient * NumberAt(x, terms[i].param).value;
    }
    assert terms[..|terms|] == terms;
  }

  // The violated rules among the first n of one kind, in order.
  function BoundViolations(rules: Rules, x: Point, n: nat): seq<RuleId>
    requires n <= |rules.bounds|
  {
    if n == 0 then []
    else BoundViolations(rules, x, n - 1) + if BoundViolated(rules.bounds[n - 1], x) then [BoundRule(n - 1)] else []
  }

  function LinearViolations(rules: Rules, x: Point, n: nat): seq<RuleId>
    requires n <= |rules.linear|
  {
    if n == 0 then []
    else LinearViolations(rules, x, n - 1) + if LinearViolated(rules.linear[n - 1], x) then [LinearRule(n - 1)] else []
  }

  function ForbiddenViolations(rules: Rules, x: Point, n: nat): seq<RuleId>
    requires n <= |rules.forbidden|
  {
    if n == 0 then []
    else
      ForbiddenViolations(rules, x, n - 1)
      + if ForbiddenViolated(rules.forbidden[n - 1], x) then [ForbiddenRule(n - 1)] else []
  }

  function ViolationsOf(rules: Rules, x: Point): seq<RuleId> {
    BoundViolations(rules, x, |rules.bounds|) + LinearViolations(rules, x, |rules.linear|)
    + ForbiddenViolations(rules, x, |rules.forbidden|)
  }

  predicate NoRepeats(ids: seq<RuleId>) {
    forall i, j :: 0 <= i < j < |ids| ==> ids[i] != ids[j]
  }

  lemma {:induction false} BoundViolationsAre(rules: Rules, x: Point, n: nat)
    requires n <= |rules.bounds|
    ensures forall id :: id in BoundViolations(rules, x, n) <==> id.BoundRule? && id.i < n && Violates(rules, id, x)
    ensures NoRepeats(BoundViolations(rules, x, n))
  {
    if n == 0 {
    } else {
      BoundViolationsAre(rules, x, n - 1);
    }
  }

  lemma {:induction false} LinearViolationsAre(rules: Rules, x: Point, n: nat)
    requires n <= |rules.linear|
    ensures forall id :: id in LinearViolations(rules, x, n) <==> id.LinearRule? && id.i < n && Violates(rules, id, x)
    ensures NoRepeats(LinearViolations(rules, x, n))
  {
    if n == 0 {
    } else {
      LinearViolationsAre(rules, x, n - 1);
    }
  }

  lemma {:induction false} ForbiddenViolationsAre(rules: Rules, x: Point, n: nat)
    requires n <= |rules.forbidden|
    ensures forall id :: id in ForbiddenViolations(rules, x, n)
              <==> id.ForbiddenRule? && id.i < n && Violates(rules, id, x)
    ensures NoRepeats(ForbiddenViolations(rules, x, n))
  {
    if n == 0 {
    } else {
      ForbiddenViolationsAre(rules, x, n - 1);
    }
  }

  // The list holds exactly the violated rules, each once, and is empty exactly for
  // a feasible point.
  lemma ViolationsAreExact(rules: Rules, x: Point)
    ensures forall id :: id in ViolationsOf(rules, x) <==> Violates(rules, id, x)
    ensures NoRepeats(ViolationsOf(rules, x))
    ensures ViolationsOf(rules, x) == [] <==> Feasible(rules, x)
  {
    hide BoundViolations, LinearViolations, ForbiddenViolations, BoundViolated, LinearViolated, ForbiddenViolated, NoRepeats;
    BoundViolationsAre(rules, x, |rules.bounds|);
    LinearViolationsAre(rules, x, |rules.linear|);
    ForbiddenViolationsAre(rules, x, |rules.forbidden|);
    var b, l, f := BoundViolations(rules, x, |rules.bounds|), LinearViolations(rules, x, |rules.linear|),
                   ForbiddenViolations(rules, x, |rules.forbidden|);
    NoRepeatsConcat(b, l);
    NoRepeatsConcat(b + l, f);
    var all := ViolationsOf(rules, x);
    if all == [] {
    } else {
      assert all[0] in all;
    }
  }

  lemma NoRepeatsConcat(a: seq<RuleId>, b: seq<RuleId>)
    requires NoRepeats(a) && NoRepeats(b) && forall id :: id in a ==> id !in b
    ensures NoRepeats(a + b)
  {
    var all := a + b;
    forall i, j | 0 <= i < j < |all| ensures all[i] != all[j] {
      if i < |a| <= j { assert all[i] in a && all[j] in b; }
    }
  }

  // evaluate_constraints: the violated rules, in order.
  method EvaluateConstraints(x: Point, rules: Rules) returns (violations: seq<RuleId>)
    ensures violations == ViolationsOf(rules, x)
    ensures forall id :: id in violations <==> Violates(rules, id, x)
    ensures NoRepeats(violations)
    ensures violations == [] <==> Feasible(rules, x)
  {
    var bounds: seq<RuleId> := [];
    for i := 0 to |rules.bounds|
      invariant bounds == BoundViolations(rules, x, i)
    {
      if BoundViolated(rules.bounds[i], x) { bounds := bounds + [BoundRule(i)]; }
    }
    var linear: seq<RuleId> := [];
    for i := 0 to |rules.linear|
      invariant linear == LinearViolations(rules, x, i)
    {
      var rule := rules.linear[i];
      if Assigned(rule.terms, x) {
        var lhs := SumOf(rule.terms, x);
        if !(if rule.atMost then lhs <= rule.rhs + TOLERANCE else lhs >= rule.rhs - TOLERANCE) {
          linear := linear + [LinearRule(i)];
        }
      }
    }
    var forbidden: seq<RuleId> := [];
    for i := 0 to |rules.forbidden|
      invariant forbidden == ForbiddenViolations(rules, x, i)
    {
      if ForbiddenViolated(rules.forbidden[i], x) { forbidden := forbidden + [ForbiddenRule(i)]; }
    }
    violations := bounds + linear + forbidden;
    ViolationsAreExact(rules, x);
  }

  // ---- partial points ----------------------------------------------------------------------------

  lemma {:induction false} SumExtends(terms: seq<Term>, x: Point, y: Point)
    requires Assigned(terms, x) && Extends(y, x)
    ensures Assigned(terms, y) && Sum(terms, y) == Sum(terms, x)
  {
    if terms != [] { SumExtends(terms[..|terms| - 1], x, y); }
  }

  // Main result: a rule violated by a partial point stays violated by every
  // extension of it, so a branch may be cut as soon as one rule fails.
  lemma ViolationStays(rules: Rules, id: RuleId, x: Point, y: Point)
    requires Extends(y, x) && Violates(rules, id, x)
    ensures Violates(rules, id, y)
  {
    if id.LinearRule? { SumExtends(rules.linear[id.i].terms, x, y); }
  }

  lemma FeasibleIsHereditary(rules: Rules, x: Point, y: Point)
    requires Extends(y, x) && Feasible(rules, y)
    ensures Feasible(rules, x)
  {
    forall id ensures !Violates(rules, id, x) {
      if Violates(rules, id, x) { ViolationStays(rules, id, x, y); }
    }
  }

  // ---- apply_bound_tightening -----------------------------------------------------------------------

  function Larger(a: Option<real>, b: Option<real>): Option<real> {
    if b.None? then a else if a.None? || b.value > a.value then b else a
  }

  function Smaller(a: Option<real>, b: Option<real>): Option<real> {
    if b.None? then a else if a.None? || b.value < a.value then b else a
  }

  predicate AboveAll(bounds: seq<Bound>, name: string, v: real) {
    forall b :: b in bounds && b.param == name && b.min.Some? ==> v >= b.min.value
  }

  predicate BelowAll(bounds: seq<Bound>, name: string, v: real) {
    forall b :: b in bounds && b.param == name && b.max.Some? ==> v <= b.max.value
  }

  lemma NextBound(bounds: seq<Bound>, i: nat, name: string, v: real)
    requires i < |bounds|
    ensures AboveAll(bounds[..i + 1], name, v)
       <==> AboveAll(bounds[..i], name, v)
            && (bounds[i].param == name && bounds[i].min.Some? ==> v >= bounds[i].min.value)
    ensures BelowAll(bounds[..i + 1], name, v)
       <==> BelowAll(bounds[..i], name, v)
            && (bounds[i].param == name && bounds[i].max.Some? ==> v <= bounds[i].max.value)
  {
    var front, next := bounds[..i], bounds[..i + 1];
    assert next == front + [bounds[i]];
    assert bounds[i] in next;
    assert forall b :: b in front ==> b in next;
  }

  // lo and hi say what all the rules on this parameter say together.
  ghost predicate Summarizes(bounds: seq<Bound>, name: string, lo: Option<real>, hi: Option<real>) {
    forall v: real ::
      && (AboveAll(bounds, name, v) <==> (lo.Some? ==> v >= lo.value))
      && (BelowAll(bounds, name, v) <==> (hi.Some? ==> v <= hi.value))
  }

  lemma SummarizeNext(bounds: seq<Bound>, i: nat, name: string, lo: Option<real>, hi: Option<real>)
    requires i < |bounds| && Summarizes(bounds[..i], name, lo, hi)
    ensures var b := bounds[i];
            if b.param == name then Summarizes(bounds[..i + 1], name, Larger(lo, b.min), Smaller(hi, b.max))
            else Summarizes(bounds[..i + 1], name, lo, hi)
  {
    var front, next, b := bounds[..i], bounds[..i + 1], bounds[i];
    forall v: real
      ensures AboveAll(next, name, v)
         <==> AboveAll(front, name, v) && (b.param == name && b.min.Some? ==> v >= b.min.value)
      ensures BelowAll(next, name, v)
         <==> BelowAll(front, name, v) && (b.param == name && b.max.Some? ==> v <= b.max.value)
    {
      NextBound(bounds, i, name, v);
    }
    hide AboveAll, BelowAll;
  }

  // The tightest pair of bounds the rules give one parameter.
  method Tightest(bounds: seq<Bound>, name: string) returns (lo: Option<real>, hi: Option<real>)
    ensures Summarizes(bounds, name, lo, hi)
    ensures lo.Some? ==> exists b :: b in bounds && b.param == name && b.min == lo
    ensures hi.Some? ==> exists b :: b in bounds && b.param == name && b.max == hi
  {
    lo, hi := None, None;
    for i := 0 to |bounds|
      invariant Summarizes(bounds[..i], name, lo, hi)
      invariant lo.Some? ==> exists b :: b in bounds && b.param == name && b.min == lo
      invariant hi.Some? ==> exists b :: b in bounds && b.param == name && b.max == hi
    {
      SummarizeNext(bounds, i, name, lo, hi);
      hide Summarizes;
      if bounds[i].param == name {
        assert bounds[i] in bounds;
        lo, hi := Larger(lo, bounds[i].min), Smaller(hi, bounds[i].max);
      }
    }
    assert bounds[..|bounds|] == bounds;
  }

  predicate Whole(r: real) {
    r == r.Floor as real
  }

  // What normalization establishes: rules name numeric parameters, stay inside
  // their bounds, and are whole for integers.
  predicate RulesFit(p: Param, bounds: seq<Bound>) {
    forall b :: b in bounds && b.param == p.name ==>
      match p.kind
      case Integer(lo, hi) =>
        (b.min.Some? ==> Whole(b.min.value) && b.min.value >= lo as real) &&
        (b.max.Some? ==> Whole(b.max.value) && b.max.value <= hi as real)
      case Continuous(low, high) => (b.min.Some? ==> b.min.value >= low) && (b.max.Some? ==> b.max.value <= high)
      case _ => false
  }

  method TightenParam(p: Param, bounds: seq<Bound>) returns (t: Param)
    requires RulesFit(p, bounds)
    ensures t.name == p.name && t.conditions == p.conditions
    ensures forall v :: InDomain(t.kind, v) <==>
              InDomain(p.kind, v) && (Number(v).Some? && (p.kind.Integer? || p.kind.Continuous?) ==>
                AboveAll(bounds, p.name, Number(v).value) && BelowAll(bounds, p.name, Number(v).value))
  {
    var lo, hi := Tightest(bounds, p.name);
    match p.kind {
      case Integer(l, h) =>
        t := p.(kind := Integer(if lo.None? then l else lo.value.Floor, if hi.None? then h else hi.value.Floor));
      case Continuous(l, h) =>
        t := p.(kind := Continuous(if lo.None? then l else lo.value, if hi.None? then h else hi.value));
      case _ => t := p;
    }
  }

  // Tightened domains never contain a value a bound rule rejects; a value the
  // rules accept lies within the tolerance of the tightened domain.
  lemma TighteningMeetsRules(bounds: seq<Bound>, name: string, v: Value, x: Point)
    requires Number(v).Some? && name in x && x[name] == v
    ensures AboveAll(bounds, name, Number(v).value) && BelowAll(bounds, name, Number(v).value) ==>
              forall b :: b in bounds && b.param == name ==> !BoundViolated(b, x)
    ensures (forall b :: b in bounds && b.param == name ==> !BoundViolated(b, x)) ==>
              AboveAll(bounds, name, Number(v).value + TOLERANCE) && BelowAll(bounds, name, Number(v).value - TOLERANCE)
  {
  }
}
