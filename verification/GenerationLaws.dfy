// Which values pruning takes away, in terms of the points that hold them.
module GenerationLaws {
  import opened Wrappers
  import opened Space
  import opened SpaceOrder
  import opened SpaceVector
  import opened Codec
  import opened Generation
  import G = Generation
  import C = Constraints

  // Every assignment that respects activity and gives the parameter this value is
  // forbidden by the rule, whatever values the other parameters have.
  ghost predicate RuledOut(params: seq<Param>, rule: seq<Condition>, name: string, v: Value) {
    forall x: Point :: x.Keys == ActiveNames(params, x) && name in x && x[name] == v ==> C.ForbiddenViolated(rule, x)
  }

  predicate Mentions(rule: seq<Condition>, name: string) {
    exists c :: c in rule && c.controller == name
  }

  // Some dependent needs the parameter at this value.
  predicate HungOn(params: seq<Param>, name: string, v: Value) {
    exists p, c :: p in params && c in p.conditions && c.controller == name && v in c.allowed
  }

  // ---- a point that forbids nothing it need not ---------------------------------------------

  lemma {:induction false} FreshInt(vals: set<Value>) returns (n: int)
    ensures forall v :: v in vals && v.Int? ==> v.i < n
  {
    if vals == {} {
      n := 0;
    } else {
      var v :| v in vals;
      n := FreshInt(vals - {v});
      if v.Int? && v.i >= n { n := v.i + 1; }
    }
  }

  function Used(conditions: seq<Condition>): set<Value> {
    set c, v | c in conditions && v in c.allowed :: v
  }

  lemma {:induction false} FreshFor(params: seq<Param>, rule: seq<Condition>) returns (f: Value)
    ensures forall p, c :: p in params && c in p.conditions ==> f !in c.allowed
    ensures forall c :: c in rule ==> f !in c.allowed
  {
    var used := (set p, v | p in params && v in Used(p.conditions) :: v) + Used(rule);
    var n := FreshInt(used);
    f := Int(n);
    assert f !in used;
    forall p, c, v | p in params && c in p.conditions && v in c.allowed ensures v != f {
      assert v in Used(p.conditions);
    }
  }

  // The forced values, and a fresh one everywhere else.
  function Chosen(forced: map<string, Value>, f: Value, n: string): Value {
    if n in forced then forced[n] else f
  }

  function Reaches(params: seq<Param>, order: seq<Param>, forced: map<string, Value>, f: Value, n: string): bool
    requires Tree(params) && Ordering(order, params) && n in Names(params)
    decreases (OrderHasNames(params, order); Rank(order, n))
  {
    var p := Lookup(params, n);
    p.conditions == [] ||
    (ParentRank(params, order, n);
     var c := p.conditions[0];
     Reaches(params, order, forced, f, c.controller) && Chosen(forced, f, c.controller) == c.allowed[0])
  }

  function Witness(params: seq<Param>, order: seq<Param>, forced: map<string, Value>, f: Value): Point
    requires Tree(params) && Ordering(order, params)
  {
    map n | n in Names(params) && Reaches(params, order, forced, f, n) :: Chosen(forced, f, n)
  }

  lemma WitnessActive(params: seq<Param>, order: seq<Param>, forced: map<string, Value>, f: Value, p: Param)
    requires Tree(params) && Ordering(order, params) && p in params
    ensures p.name in Names(params)
    ensures Active(p, Witness(params, order, forced, f)) <==> Reaches(params, order, forced, f, p.name)
  {
    DistinctTree(params);
    SameName(params, p, Lookup(params, p.name));
    OneParentAt(params, p);
    hide Tree, Ordering, Lookup, OneParent, Active;
    ActiveByParent(p, Witness(params, order, forced, f));
    if p.conditions != [] {
      ParentRank(params, order, p.name);
      ReachesStep(params, order, forced, f, p);
      WitnessHas(params, order, forced, f, p.conditions[0].controller);
    } else {
      RootReaches(params, order, forced, f, p);
    }
  }

  lemma ActiveByParent(p: Param, x: Point)
    requires OneParent(p)
    ensures p.conditions == [] ==> Active(p, x)
    ensures p.conditions != [] ==>
              |p.conditions[0].allowed| == 1
              && (Active(p, x) <==> p.conditions[0].controller in x && x[p.conditions[0].controller] == p.conditions[0].allowed[0])
  {
    if p.conditions != [] {
      var c := p.conditions[0];
      assert c in p.conditions;
      assert Active(p, x) <==> Met(c, x);
    }
  }

  lemma RootReaches(params: seq<Param>, order: seq<Param>, forced: map<string, Value>, f: Value, p: Param)
    requires Tree(params) && Ordering(order, params) && p.name in Names(params) && Lookup(params, p.name) == p && p.conditions == []
    ensures Reaches(params, order, forced, f, p.name)
  {
    hide Tree, Ordering, Names, Lookup;
  }

  lemma ReachesStep(params: seq<Param>, order: seq<Param>, forced: map<string, Value>, f: Value, p: Param)
    requires Tree(params) && Ordering(order, params) && p.name in Names(params) && Lookup(params, p.name) == p && p.conditions != []
    ensures var c := p.conditions[0];
            && |c.allowed| == 1 && c.controller in Names(params)
            && (Reaches(params, order, forced, f, p.name) <==>
                  Reaches(params, order, forced, f, c.controller) && Chosen(forced, f, c.controller) == c.allowed[0])
  {
    ParentRank(params, order, p.name);
    hide Tree, Ordering, Names, Lookup, Chosen;
  }

  lemma WitnessHas(params: seq<Param>, order: seq<Param>, forced: map<string, Value>, f: Value, n: string)
    requires Tree(params) && Ordering(order, params) && n in Names(params)
    ensures var x := Witness(params, order, forced, f);
            && (n in x <==> Reaches(params, order, forced, f, n)) && (n in x ==> x[n] == Chosen(forced, f, n))
  {
    hide Tree, Ordering, Names, Reaches, Chosen;
  }

  lemma WitnessRespectsActivity(params: seq<Param>, order: seq<Param>, forced: map<string, Value>, f: Value)
    requires Tree(params) && Ordering(order, params)
    ensures var x := Witness(params, order, forced, f);
            x.Keys == ActiveNames(params, x)
  {
    var x := Witness(params, order, forced, f);
    hide Tree, Ordering, Reaches, Active;
    forall n | n in x ensures n in ActiveNames(params, x) {
      var p :| p in params && p.name == n;
      WitnessActive(params, order, forced, f, p);
    }
    forall n | n in ActiveNames(params, x) ensures n in x {
      var p :| p in params && Active(p, x) && p.name == n;
      WitnessActive(params, order, forced, f, p);
    }
  }

  lemma {:induction false} AncestorRank(params: seq<Param>, order: seq<Param>, name: string, m: string)
    requires Tree(params) && Ordering(order, params) && name in Names(params)
    requires m in Ancestors(params, order, name)
    ensures m in Names(order) && name in Names(order) && Rank(order, m) < Rank(order, name)
    decreases (OrderHasNames(params, order); Rank(order, name))
  {
    OrderHasNames(params, order);
    ParentRank(params, order, name);
    var c := Lookup(params, name).conditions[0];
    hide Tree, Ordering, Names, Lookup, Rank;
    if m != c.controller { AncestorRank(params, order, c.controller, m); }
  }

  // Forced values that include what a parameter needs above it reach it.
  lemma {:induction false} ForcedReaches(params: seq<Param>, order: seq<Param>, forced: map<string, Value>, f: Value, name: string)
    requires Tree(params) && Ordering(order, params) && name in Names(params)
    requires forall m :: m in Ancestors(params, order, name) ==> m in forced && forced[m] == Ancestors(params, order, name)[m]
    ensures Reaches(params, order, forced, f, name)
    decreases (OrderHasNames(params, order); Rank(order, name))
  {
    var p := Lookup(params, name);
    if p.conditions != [] {
      ParentRank(params, order, name);
      var c := p.conditions[0];
      ParentAncestors(params, order, name);
      hide Tree, Ordering, Names, Lookup, Rank, Ancestors;
      ForcedReaches(params, order, forced, f, c.controller);
    }
  }

  // What the parent needs is needed too, and the parent with its value.
  lemma ParentAncestors(params: seq<Param>, order: seq<Param>, name: string)
    requires Tree(params) && Ordering(order, params) && name in Names(params) && Lookup(params, name).conditions != []
    ensures var c := Lookup(params, name).conditions[0];
            && |c.allowed| == 1 && c.controller in Names(params)
            && var above, all := Ancestors(params, order, c.controller), Ancestors(params, order, name);
            && c.controller in all && all[c.controller] == c.allowed[0]
            && forall m :: m in above ==> m in all && all[m] == above[m]
  {
    ParentRank(params, order, name);
    var c := Lookup(params, name).conditions[0];
    hide Tree, Ordering, Names, Lookup, Rank;
    forall m | m in Ancestors(params, order, c.controller) ensures m != c.controller {
      AncestorRank(params, order, c.controller, m);
    }
  }

  // ---- the rule's test is exact ----------------------------------------------------------------

  // Main result: for a rule that names the parameter, activation proves every other
  // term and the value is listed exactly if no assignment with that value escapes it.
  lemma RuleTestIsExact(params: seq<Param>, order: seq<Param>, rule: seq<Condition>, name: string, v: Value)
    requires Tree(params) && Ordering(order, params) && name in Names(params) && Mentions(rule, name)
    ensures RuledOut(params, rule, name, v) <==>
            Applies(rule, name, Ancestors(params, order, name)) && Hits(rule, name, v)
  {
    hide *;
    if Applies(rule, name, Ancestors(params, order, name)) && Hits(rule, name, v) {
      ProvenIsRuledOut(params, order, rule, name, v);
    } else {
      var x := Escape(params, order, rule, name, v);
      NotRuledOut(params, rule, name, v, x);
    }
  }

  lemma NotRuledOut(params: seq<Param>, rule: seq<Condition>, name: string, v: Value, x: Point)
    requires x.Keys == ActiveNames(params, x) && name in x && x[name] == v && !C.ForbiddenViolated(rule, x)
    ensures !RuledOut(params, rule, name, v)
  {
    hide C.ForbiddenViolated, ActiveNames;
  }

  lemma ProvenIsRuledOut(params: seq<Param>, order: seq<Param>, rule: seq<Condition>, name: string, v: Value)
    requires Tree(params) && Ordering(order, params) && name in Names(params)
    requires Applies(rule, name, Ancestors(params, order, name)) && Hits(rule, name, v)
    ensures RuledOut(params, rule, name, v)
  {
    hide Tree, Ordering, Applies, Hits, C.ForbiddenViolated, Names, ActiveNames, Ancestors;
    forall x: Point | x.Keys == ActiveNames(params, x) && name in x && x[name] == v ensures C.ForbiddenViolated(rule, x) {
      AncestorsHold(params, order, name, x);
      HitsViolate(rule, name, Ancestors(params, order, name), x);
    }
  }

  lemma Escape(params: seq<Param>, order: seq<Param>, rule: seq<Condition>, name: string, v: Value) returns (x: Point)
    requires Tree(params) && Ordering(order, params) && name in Names(params) && Mentions(rule, name)
    requires !(Applies(rule, name, Ancestors(params, order, name)) && Hits(rule, name, v))
    ensures x.Keys == ActiveNames(params, x) && name in x && x[name] == v && !C.ForbiddenViolated(rule, x)
  {
    hide Tree, Ordering, Names, ActiveNames, Ancestors, Applies, Hits, C.ForbiddenViolated, Mentions, Witness;
    var f := FreshFor(params, rule);
    var above := Ancestors(params, order, name);
    var forced := above[name := v];
    forall m | m in above ensures m != name { AncestorRank(params, order, name, m); }
    ForcedReaches(params, order, forced, f, name);
    WitnessRespectsActivity(params, order, forced, f);
    x := Witness(params, order, forced, f);
    WitnessValues(params, order, forced, f);
    var c := UnprovenTerm(rule, name, above, v);
    Unmet(rule, c, x);
  }

  lemma WitnessValues(params: seq<Param>, order: seq<Param>, forced: map<string, Value>, f: Value)
    requires Tree(params) && Ordering(order, params)
    ensures var x := Witness(params, order, forced, f);
            && (forall n :: n in x ==> x[n] == Chosen(forced, f, n))
            && (forall n :: n in Names(params) && Reaches(params, order, forced, f, n) ==> n in x)
  {
    hide Tree, Ordering, Names, Reaches;
  }

  // A term of the rule that the forced values do not meet.
  lemma UnprovenTerm(rule: seq<Condition>, name: string, above: map<string, Value>, v: Value) returns (c: Condition)
    requires Mentions(rule, name) && !(Applies(rule, name, above) && Hits(rule, name, v)) && name !in above
    ensures c in rule
    ensures c.controller == name ==> v !in c.allowed
    ensures c.controller != name ==> c.controller !in above || above[c.controller] !in c.allowed
  {
    if !Hits(rule, name, v) {
      c :| c in rule && c.controller == name && v !in c.allowed;
    } else {
      c :| c in rule && c.controller != name && !(c.controller in above && above[c.controller] in c.allowed);
    }
  }

  lemma Unmet(rule: seq<Condition>, c: Condition, x: Point)
    requires c in rule && (c.controller in x ==> x[c.controller] !in c.allowed)
    ensures !C.ForbiddenViolated(rule, x)
  {
    assert !Met(c, x);
  }

  // ---- the pruned domains ------------------------------------------------------------------------

  // What a code stands for.
  function Meaning(params: seq<Param>, i: nat, code: Code): Option<Value>
    requires Tree(params) && i < |params|
  {
    DecodeValue(params[i].kind, ColumnDomain(params, i), code)
  }

  // The rule leaves this code alone.
  ghost predicate Spares(params: seq<Param>, rule: seq<Condition>, i: nat, code: Code)
    requires Tree(params) && i < |params|
  {
    var v := Meaning(params, i, code);
    v.Some? ==>
      || !Mentions(rule, params[i].name)
      || HungOn(params, params[i].name, v.value)
      || !RuledOut(params, rule, params[i].name, v.value)
  }

  ghost function Spared(params: seq<Param>, rule: seq<Condition>, i: nat, codes: seq<Code>): (r: seq<Code>)
    requires Tree(params) && i < |params|
    ensures forall c :: c in r <==> c in codes && Spares(params, rule, i, c)
  {
    if codes == [] then []
    else
      var n := |codes| - 1;
      var front := Spared(params, rule, i, codes[..n]);
      if Spares(params, rule, i, codes[n]) then front + [codes[n]] else front
  }

  // Rule by rule, the codes it spares, unless it spares none.
  ghost function Sifted(params: seq<Param>, rules: seq<seq<Condition>>, i: nat): (r: seq<Code>)
    requires Tree(params) && i < |params|
    ensures forall c :: c in r ==> c in Values(ColumnDomain(params, i))
    ensures Values(ColumnDomain(params, i)) != [] ==> r != []
  {
    if rules == [] then Values(ColumnDomain(params, i))
    else
      var before := Sifted(params, rules[..|rules| - 1], i);
      var kept := Spared(params, rules[|rules| - 1], i, before);
      if kept == [] then before else kept
  }

  // The values a domain presents, in order.
  lemma ValuesPresentDomain(k: Kind, controls: bool)
    requires Sound(k) && DomainOf(k, controls).Some?
    ensures var domain := DomainOf(k, controls).value;
            match domain
            case Tokens(raw) => |Values(domain)| == |raw| && forall j :: 0 <= j < |raw| ==> DecodeValue(k, domain, Values(domain)[j]) == Some(raw[j])
            case Listed(values) =>
              |Values(domain)| == |values|
              && forall j :: 0 <= j < |values| ==>
                   DecodeValue(k, domain, Values(domain)[j]) == Some(Widen(k, values[j]))
            case Bounded => Values(domain) == []
  {
  }

  lemma MeaningIsRaw(params: seq<Param>, i: nat, code: Code)
    requires Tree(params) && i < |params| && code in Values(ColumnDomain(params, i))
    ensures InTokens(ColumnDomain(params, i), code)
    ensures Meaning(params, i, code) == Some(RawOf(ColumnDomain(params, i), code))
  {
    ColumnDomainIs(params, i);
    ListedIsWidened(params[i].kind, Controls(params, params[i].name), code);
    hide Tree, DomainOf;
  }

  lemma ListedIsWidened(k: Kind, controls: bool, code: Code)
    requires Sound(k) && DomainOf(k, controls).Some? && code in Values(DomainOf(k, controls).value)
    ensures var domain := DomainOf(k, controls).value;
            InTokens(domain, code) && DecodeValue(k, domain, code) == Some(RawOf(domain, code))
  {
    var domain := DomainOf(k, controls).value;
    match domain
    case Listed(values) =>
      var j :| 0 <= j < |values| && code == Raw(values[j]);
      assert Widen(k, values[j]) == values[j];
    case _ =>
  }

  // A code is kept for a dependent exactly if one needs the value it stands for.
  lemma ControllingIsHungOn(params: seq<Param>, i: nat, code: Code)
    requires Tree(params) && i < |params| && code in Values(ColumnDomain(params, i))
    ensures InTokens(ColumnDomain(params, i), code)
    ensures code in Controlling(params, i) <==> HungOn(params, params[i].name, RawOf(ColumnDomain(params, i), code))
  {
    hide *;
    MeaningIsRaw(params, i, code);
    var name, v := params[i].name, RawOf(ColumnDomain(params, i), code);
    if code in Controlling(params, i) {
      var p, c := HangingOn(params, i, code);
      NeededValue(params, i, p, c, code);
      Hangs(params, p, c, name, v);
    }
    if HungOn(params, name, v) {
      var p, c := Hanging(params, name, v);
      SingleNeed(params, p, c);
      CodeOfValue(params, i, code, c.allowed[0]);
      DependentControls(params, i, p, c, code);
    }
  }

  lemma Hangs(params: seq<Param>, p: Param, c: Condition, name: string, v: Value)
    requires p in params && c in p.conditions && c.controller == name && v in c.allowed
    ensures HungOn(params, name, v)
  {
  }

  lemma Hanging(params: seq<Param>, name: string, v: Value) returns (p: Param, c: Condition)
    requires HungOn(params, name, v)
    ensures p in params && c in p.conditions && c.controller == name && v in c.allowed
  {
    p, c :| p in params && c in p.conditions && c.controller == name && v in c.allowed;
  }

  lemma DependentControls(params: seq<Param>, i: nat, p: Param, c: Condition, code: Code)
    requires Tree(params) && i < |params| && p in params && c in p.conditions && c.controller == params[i].name && c.allowed != []
    requires EncodeValue(params[i].kind, ColumnDomain(params, i), c.allowed[0]) == Some(code)
    ensures code in Controlling(params, i)
  {
    hide Tree, EncodeValue, ColumnDomain;
  }

  lemma HangingOn(params: seq<Param>, i: nat, code: Code) returns (p: Param, c: Condition)
    requires Tree(params) && i < |params| && code in Controlling(params, i)
    ensures p in params && c in p.conditions && c.controller == params[i].name && c.allowed != []
    ensures EncodeValue(params[i].kind, ColumnDomain(params, i), c.allowed[0]) == Some(code)
  {
    hide Tree, EncodeValue;
    p, c :| p in params && c in p.conditions && c.controller == params[i].name && c.allowed != []
            && EncodeValue(params[i].kind, ColumnDomain(params, i), c.allowed[0]).Some?
            && EncodeValue(params[i].kind, ColumnDomain(params, i), c.allowed[0]).value == code;
  }

  lemma SingleNeed(params: seq<Param>, p: Param, c: Condition)
    requires Tree(params) && p in params && c in p.conditions
    ensures |c.allowed| == 1
  {
    OneParentAt(params, p);
  }

  lemma NeededValue(params: seq<Param>, i: nat, p: Param, c: Condition, code: Code)
    requires Tree(params) && i < |params| && code in Values(ColumnDomain(params, i)) && p in params && c in p.conditions
    requires c.controller == params[i].name && c.allowed != []
    requires EncodeValue(params[i].kind, ColumnDomain(params, i), c.allowed[0]) == Some(code)
    ensures InTokens(ColumnDomain(params, i), code) && RawOf(ColumnDomain(params, i), code) in c.allowed
  {
    MeaningIsRaw(params, i, code);
    ColumnDomainIs(params, i);
    ControllerIsDiscrete(params, p, c, i);
    ValueCodec(params[i].kind, Controls(params, params[i].name), c.allowed[0]);
    hide Tree, EncodeValue, DomainOf;
  }

  lemma CodeOfValue(params: seq<Param>, i: nat, code: Code, v: Value)
    requires Tree(params) && i < |params| && code in Values(ColumnDomain(params, i))
    requires InTokens(ColumnDomain(params, i), code) && RawOf(ColumnDomain(params, i), code) == v
    ensures EncodeValue(params[i].kind, ColumnDomain(params, i), v) == Some(code)
  {
    ColumnDomainIs(params, i);
    ListedEncodes(params[i].kind, Controls(params, params[i].name), code);
    hide Tree, EncodeValue, DomainOf;
  }

  lemma ListedEncodes(k: Kind, controls: bool, code: Code)
    requires Sound(k) && DomainOf(k, controls).Some? && code in Values(DomainOf(k, controls).value)
    ensures var domain := DomainOf(k, controls).value;
            InTokens(domain, code) && EncodeValue(k, domain, RawOf(domain, code)) == Some(code)
  {
    var domain := DomainOf(k, controls).value;
    ListedIsWidened(k, controls, code);
    match domain
    case Tokens(raw) => IndexIsOnly(raw, code.i);
    case _ =>
  }

  // The rule spares a code exactly as the pruning does.
  lemma SparesIsKept(params: seq<Param>, order: seq<Param>, rule: seq<Condition>, i: nat, code: Code)
    requires Tree(params) && Ordering(order, params) && i < |params| && code in Values(ColumnDomain(params, i))
    ensures params[i].name in Names(params) && InTokens(ColumnDomain(params, i), code)
    ensures var name, domain := params[i].name, ColumnDomain(params, i);
            Spares(params, rule, i, code) <==>
            || !Applies(rule, name, Ancestors(params, order, name))
            || code in Controlling(params, i) || !Hits(rule, name, RawOf(domain, code))
  {
    assert params[i] in params;
    hide *;
    var name := params[i].name;
    MeaningIsRaw(params, i, code);
    ControllingIsHungOn(params, i, code);
    var v := RawOf(ColumnDomain(params, i), code);
    NameOf(params, i);
    SparesIs(params, rule, i, code);
    if Mentions(rule, name) {
      RuleTestIsExact(params, order, rule, name, v);
    } else {
      UnmentionedDoesNotApply(rule, name, Ancestors(params, order, name));
    }
  }

  lemma NameOf(params: seq<Param>, i: nat)
    requires i < |params|
    ensures params[i].name in Names(params)
  {
    assert params[i] in params;
  }

  lemma SparesIs(params: seq<Param>, rule: seq<Condition>, i: nat, code: Code)
    requires Tree(params) && i < |params| && Meaning(params, i, code).Some?
    ensures var v := Meaning(params, i, code).value;
            Spares(params, rule, i, code) <==>
            || !Mentions(rule, params[i].name) || HungOn(params, params[i].name, v) || !RuledOut(params, rule, params[i].name, v)
  {
    hide Tree, Mentions, HungOn, RuledOut, Meaning;
  }

  lemma UnmentionedDoesNotApply(rule: seq<Condition>, name: string, ancestors: map<string, Value>)
    requires !Mentions(rule, name)
    ensures !Applies(rule, name, ancestors)
  {
  }

  predicate AllOf(codes: seq<Code>, domain: Domain) {
    forall c :: c in codes ==> c in Values(domain)
  }

  lemma {:induction false} SparedIsKept(params: seq<Param>, order: seq<Param>, rule: seq<Condition>, i: nat, codes: seq<Code>)
    requires Tree(params) && Ordering(order, params) && i < |params| && AllOf(codes, ColumnDomain(params, i))
    ensures params[i].name in Names(params) && forall c :: c in codes ==> InTokens(ColumnDomain(params, i), c)
    ensures var name, domain := params[i].name, ColumnDomain(params, i);
            Spared(params, rule, i, codes)
            == if Applies(rule, name, Ancestors(params, order, name)) then G.Kept(codes, domain, Controlling(params, i), rule, name)
               else codes
  {
    hide *;
    NameOf(params, i);
    var domain, name := ColumnDomain(params, i), params[i].name;
    AllFitting(codes, domain);
    if codes == [] {
      SparedNone(params, rule, i, domain, Controlling(params, i), name);
    } else {
      var n := |codes| - 1;
      assert codes == codes[..n] + [codes[n]];
      FrontOf(codes, domain);
      AllFitting(codes[..n], domain);
      SparedIsKept(params, order, rule, i, codes[..n]);
      SparesIsKept(params, order, rule, i, codes[n]);
      SparedNext(params, rule, i, codes);
      KeptNext(codes, domain, Controlling(params, i), rule, name);
    }
  }

  lemma AllFitting(codes: seq<Code>, domain: Domain)
    requires AllOf(codes, domain)
    ensures forall c :: c in codes ==> InTokens(domain, c)
  {
    ValuesFit(domain);
    hide Values, InTokens;
  }

  lemma FrontOf(codes: seq<Code>, domain: Domain)
    requires AllOf(codes, domain) && codes != []
    ensures AllOf(codes[..|codes| - 1], domain) && codes[|codes| - 1] in Values(domain) && codes[|codes| - 1] in codes
  {
    hide Values;
  }

  lemma SparedNone(params: seq<Param>, rule: seq<Condition>, i: nat, domain: Domain, controlling: set<Code>, name: string)
    requires Tree(params) && i < |params|
    ensures Spared(params, rule, i, []) == [] && G.Kept([], domain, controlling, rule, name) == []
  {
    hide Tree;
  }

  lemma SparedNext(params: seq<Param>, rule: seq<Condition>, i: nat, codes: seq<Code>)
    requires Tree(params) && i < |params| && codes != []
    ensures var n := |codes| - 1;
            Spared(params, rule, i, codes)
            == Spared(params, rule, i, codes[..n]) + if Spares(params, rule, i, codes[n]) then [codes[n]] else []
  {
    hide Tree, Spares;
  }

  lemma KeptNext(codes: seq<Code>, domain: Domain, controlling: set<Code>, rule: seq<Condition>, name: string)
    requires codes != [] && forall c :: c in codes ==> InTokens(domain, c)
    ensures var n := |codes| - 1;
            && codes[n] in codes && (forall c :: c in codes[..n] ==> InTokens(domain, c))
            && G.Kept(codes, domain, controlling, rule, name)
               == G.Kept(codes[..n], domain, controlling, rule, name)
                  + if codes[n] in controlling || !Hits(rule, name, RawOf(domain, codes[n])) then [codes[n]] else []
  {
    hide Hits, InTokens;
  }

  // Main result: the generation domain of a column is what the rules leave of its values,
  // one rule after the other, where a rule that would leave nothing is passed over.
  lemma {:induction false} GenerationDomainIsSifted(params: seq<Param>, order: seq<Param>, rules: seq<seq<Condition>>, i: nat)
    requires Tree(params) && Ordering(order, params) && i < |params|
    ensures GenerationDomain(params, order, rules, i) == Sifted(params, rules, i)
  {
    GenerationDomainIs(params, order, rules, i);
    var domain, name := ColumnDomain(params, i), params[i].name;
    hide Tree, Ordering, Names, Values, InTokens, ColumnDomain, Controlling, Ancestors, GenerationDomain, Applies, Spared, G.Kept;
    if rules != [] {
      var n := |rules| - 1;
      GenerationDomainIs(params, order, rules[..n], i);
      GenerationDomainIsSifted(params, order, rules[..n], i);
      SparedIsKept(params, order, rules[n], i, Sifted(params, rules[..n], i));
    }
  }

  // ---- what that leaves ---------------------------------------------------------------------------

  lemma {:induction false} SiftedSpares(params: seq<Param>, rules: seq<seq<Condition>>, i: nat, k: nat, c: Code)
    requires Tree(params) && i < |params| && k < |rules|
    requires c in Sifted(params, rules, i) && !Spares(params, rules[k], i, c)
    ensures forall d :: d in Sifted(params, rules, i) ==> !Spares(params, rules[k], i, d)
    decreases |rules|
  {
    hide Tree, Values, ColumnDomain, Spares;
    var n := |rules| - 1;
    if k < n {
      assert rules[..n][k] == rules[k];
      SiftedSpares(params, rules[..n], i, k, c);
    }
  }

  lemma {:induction false} DroppedByARule(params: seq<Param>, rules: seq<seq<Condition>>, i: nat, c: Code) returns (k: nat)
    requires Tree(params) && i < |params| && c in Values(ColumnDomain(params, i)) && c !in Sifted(params, rules, i)
    ensures k < |rules| && !Spares(params, rules[k], i, c)
    ensures forall d :: d in Sifted(params, rules, i) ==> Spares(params, rules[k], i, d)
    decreases |rules|
  {
    hide Tree, Values, ColumnDomain, Spares;
    var n := |rules| - 1;
    if c in Sifted(params, rules[..n], i) {
      k := n;
    } else {
      k := DroppedByARule(params, rules[..n], i, c);
      assert rules[..n][k] == rules[k];
    }
  }

  // Main result: a value stays in the generation domain exactly if every rule spares it
  // or spares nothing that stays. A rule spares a value that a dependent needs, one it
  // does not rule out, and every value of a parameter it does not name.
  lemma PruningIsExact(params: seq<Param>, order: seq<Param>, rules: seq<seq<Condition>>, i: nat, c: Code)
    requires Tree(params) && Ordering(order, params) && i < |params| && c in Values(ColumnDomain(params, i))
    ensures c in GenerationDomain(params, order, rules, i) <==>
            forall rule :: rule in rules ==>
              || Spares(params, rule, i, c)
              || forall d :: d in GenerationDomain(params, order, rules, i) ==> !Spares(params, rule, i, d)
  {
    GenerationDomainIsSifted(params, order, rules, i);
    hide Tree, Ordering, Values, ColumnDomain, Spares, GenerationDomain;
    var left := Sifted(params, rules, i);
    if c in left {
      forall rule | rule in rules && !Spares(params, rule, i, c) ensures forall d :: d in left ==> !Spares(params, rule, i, d) {
        var k :| 0 <= k < |rules| && rules[k] == rule;
        SiftedSpares(params, rules, i, k, c);
      }
    } else {
      var k := DroppedByARule(params, rules, i, c);
      assert rules[k] in rules && left[0] in left;
    }
  }
}
