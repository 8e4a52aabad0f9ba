// Pruning of generation domains by forbidden combinations (templates/_shared/ax_space.py).
module Generation {
  import opened Wrappers
  import opened Space
  import opened SpaceOrder
  import opened SpaceVector
  import opened Codec
  import C = Constraints

  // ---- ancestors ------------------------------------------------------------------------------

  lemma ParentRank(params: seq<Param>, order: seq<Param>, name: string)
    requires Tree(params) && Ordering(order, params) && name in Names(params)
    requires Lookup(params, name).conditions != []
    ensures var c := Lookup(params, name).conditions[0];
            && |c.allowed| == 1 && c.controller in Names(params)
            && name in Names(order) && c.controller in Names(order)
            && Rank(order, c.controller) < Rank(order, name)
  {
    assert WellNamed(params);
    OneParentAt(params, Lookup(params, name));
    hide Tree, WellNamed, Rank, Lookup, Ordering;
    var p := Lookup(params, name);
    var c := p.conditions[0];
    assert c in p.conditions;
    assert Controllers(p)[0] == c.controller;
    OrderHasNames(params, order);
    ControllerRank(params, order, name, c.controller);
  }

  lemma OrderHasNames(params: seq<Param>, order: seq<Param>)
    requires Ordering(order, params)
    ensures Names(order) == Names(params)
  {
    SameNames(order, params);
  }

  // What must hold above a parameter for it to be active: each controller on the
  // way up, with the value it needs.
  function Ancestors(params: seq<Param>, order: seq<Param>, name: string): map<string, Value>
    requires Tree(params) && Ordering(order, params) && name in Names(params)
    decreases (OrderHasNames(params, order); Rank(order, name))
  {
    var p := Lookup(params, name);
    if p.conditions == [] then map[]
    else
      ParentRank(params, order, name);
      var c := p.conditions[0];
      Ancestors(params, order, c.controller)[c.controller := c.allowed[0]]
  }

  // Halfway up: what has been collected below `ancestor`.
  ghost predicate Collected(params: seq<Param>, order: seq<Param>, name: string, ancestor: string, below: map<string, Value>)
    requires Tree(params) && Ordering(order, params) && name in Names(params)
  {
    && ancestor in Names(params) && ancestor in Names(order)
    && (forall n :: n in below ==> n in Names(order) && Rank(order, n) >= Rank(order, ancestor))
    && Ancestors(params, order, name) == Ancestors(params, order, ancestor) + below
  }

  lemma AncestorStep(params: seq<Param>, order: seq<Param>, name: string, ancestor: string, below: map<string, Value>)
    requires Tree(params) && Ordering(order, params) && name in Names(params)
    requires Collected(params, order, name, ancestor, below) && Lookup(params, ancestor).conditions != []
    ensures var c := Lookup(params, ancestor).conditions[0];
            && |c.allowed| == 1 && c.controller in Names(params) && c.controller in Names(order)
            && Rank(order, c.controller) < Rank(order, ancestor)
            && Collected(params, order, name, c.controller, below[c.controller := c.allowed[0]])
  {
    hide Tree, Ordering, Lookup, Rank, Names;
    ParentRank(params, order, ancestor);
    var c := Lookup(params, ancestor).conditions[0];
    MapStep(Ancestors(params, order, c.controller), below, c.controller, c.allowed[0]);
  }

  lemma MapStep(above: map<string, Value>, below: map<string, Value>, key: string, value: Value)
    requires key !in below
    ensures above[key := value] + below == above + below[key := value]
  {
  }

  method CollectAncestors(params: seq<Param>, order: seq<Param>, name: string) returns (ancestors: map<string, Value>)
    requires Tree(params) && Ordering(order, params) && name in Names(params)
    ensures ancestors == Ancestors(params, order, name)
  {
    hide *;
    ancestors := map[];
    var ancestor := name;
    OrderHasNames(params, order);
    NothingCollected(params, order, name);
    while Lookup(params, ancestor).conditions != []
      invariant ancestor in Names(params) && ancestor in Names(order)
      invariant Collected(params, order, name, ancestor, ancestors)
      decreases Rank(order, ancestor)
    {
      AncestorStep(params, order, name, ancestor, ancestors);
      var c := Lookup(params, ancestor).conditions[0];
      ancestors := ancestors[c.controller := c.allowed[0]];
      ancestor := c.controller;
    }
    AllCollected(params, order, name, ancestor, ancestors);
  }

  lemma NothingCollected(params: seq<Param>, order: seq<Param>, name: string)
    requires Tree(params) && Ordering(order, params) && name in Names(params) && name in Names(order)
    ensures Collected(params, order, name, name, map[])
  {
    hide Tree, Ordering, Names, Lookup, Rank, Ancestors;
  }

  lemma AllCollected(params: seq<Param>, order: seq<Param>, name: string, ancestor: string, below: map<string, Value>)
    requires Tree(params) && Ordering(order, params) && name in Names(params)
    requires Collected(params, order, name, ancestor, below) && Lookup(params, ancestor).conditions == []
    ensures below == Ancestors(params, order, name)
  {
    hide Tree, Ordering, Names, Lookup, Rank;
    NoAncestors(params, order, ancestor);
  }

  lemma NoAncestors(params: seq<Param>, order: seq<Param>, name: string)
    requires Tree(params) && Ordering(order, params) && name in Names(params)
    requires Lookup(params, name).conditions == []
    ensures Ancestors(params, order, name) == map[]
  {
    hide Tree, Ordering, Names, Lookup;
  }

  // An active parameter's ancestors all hold the values it needs.
  lemma {:induction false} AncestorsHold(params: seq<Param>, order: seq<Param>, name: string, x: Point)
    requires Tree(params) && Ordering(order, params) && name in Names(params)
    requires x.Keys == ActiveNames(params, x) && name in x
    ensures forall n :: n in Ancestors(params, order, name) ==> n in x && x[n] == Ancestors(params, order, name)[n]
    decreases (OrderHasNames(params, order); Rank(order, name))
  {
    var p := Lookup(params, name);
    if p.conditions != [] {
      ParentRank(params, order, name);
      ParentHolds(params, name, x);
      hide Tree, Ordering, Names, Lookup, Rank, ActiveNames;
      AncestorsHold(params, order, p.conditions[0].controller, x);
    }
  }

  lemma ParentHolds(params: seq<Param>, name: string, x: Point)
    requires Tree(params) && name in Names(params) && x.Keys == ActiveNames(params, x) && name in x
    requires Lookup(params, name).conditions != []
    ensures var c := Lookup(params, name).conditions[0];
            |c.allowed| == 1 && c.controller in x && x[c.controller] == c.allowed[0]
  {
    hide *;
    DistinctTree(params);
    var p := Lookup(params, name);
    OneParentAt(params, p);
    ActiveMember(params, x, p);
    FirstIsMet(p, x);
  }

  lemma ActiveMember(params: seq<Param>, x: Point, p: Param)
    requires Distinct(params) && p in params && p.name in ActiveNames(params, x)
    ensures Active(p, x)
  {
    hide Active, Distinct;
    var q :| q in params && Active(q, x) && q.name == p.name;
    SameName(params, p, q);
  }

  lemma FirstIsMet(p: Param, x: Point)
    requires Active(p, x) && p.conditions != [] && OneParent(p)
    ensures var c := p.conditions[0];
            |c.allowed| == 1 && c.controller in x && x[c.controller] == c.allowed[0]
  {
    assert p.conditions[0] in p.conditions && Met(p.conditions[0], x);
  }

  lemma OneParentAt(params: seq<Param>, p: Param)
    requires Tree(params) && p in params
    ensures OneParent(p)
  {
    hide SpaceOK, Ordered;
  }

  // ---- pruning ------------------------------------------------------------------------------------

  function Values(domain: Domain): (r: seq<Code>) {
    match domain
    case Tokens(raw) => seq(|raw|, i requires 0 <= i < |raw| => Token(i))
    case Listed(values) => seq(|values|, i requires 0 <= i < |values| => Raw(values[i]))
    case Bounded => []
  }

  predicate InTokens(domain: Domain, c: Code) {
    domain.Tokens? ==> c.Token? && c.i < |domain.raw|
  }

  function RawOf(domain: Domain, c: Code): Value
    requires InTokens(domain, c)
  {
    if domain.Tokens? then domain.raw[c.i] else if c.Raw? then c.v else Str("")
  }

  // The codes some dependent hangs on.
  function Controlling(params: seq<Param>, i: nat): set<Code>
    requires Tree(params) && i < |params|
  {
    set p, c | p in params && c in p.conditions && c.controller == params[i].name && c.allowed != []
               && EncodeValue(params[i].kind, ColumnDomain(params, i), c.allowed[0]).Some?
             :: EncodeValue(params[i].kind, ColumnDomain(params, i), c.allowed[0]).value
  }

  // The other terms of the rule are sure to match wherever the parameter is active.
  predicate Applies(rule: seq<Condition>, name: string, ancestors: map<string, Value>) {
    && (exists c :: c in rule && c.controller == name)
    && forall c :: c in rule && c.controller != name ==> c.controller in ancestors && ancestors[c.controller] in c.allowed
  }

  predicate Hits(rule: seq<Condition>, name: string, v: Value) {
    forall c :: c in rule && c.controller == name ==> v in c.allowed
  }

  function Kept(values: seq<Code>, domain: Domain, controlling: set<Code>, rule: seq<Condition>, name: string): (r: seq<Code>)
    requires forall c :: c in values ==> InTokens(domain, c)
    ensures forall c :: c in r <==> c in values && (c in controlling || !Hits(rule, name, RawOf(domain, c)))
  {
    if values == [] then []
    else
      var n := |values| - 1;
      var front := Kept(values[..n], domain, controlling, rule, name);
      if values[n] in controlling || !Hits(rule, name, RawOf(domain, values[n])) then front + [values[n]] else front
  }

  // One rule: pruned unless that would empty the domain.
  function PruneBy(values: seq<Code>, domain: Domain, controlling: set<Code>, ancestors: map<string, Value>,
                   rule: seq<Condition>, name: string): (r: seq<Code>)
    requires forall c :: c in values ==> InTokens(domain, c)
    ensures forall c :: c in r ==> c in values
    ensures values != [] ==> r != []
    ensures forall c :: c in values && c in controlling ==> c in r
  {
    if !Applies(rule, name, ancestors) then values
    else
      var kept := Kept(values, domain, controlling, rule, name);
      if kept == [] then values else kept
  }

  function PruneAll(values: seq<Code>, domain: Domain, controlling: set<Code>, ancestors: map<string, Value>,
                    rules: seq<seq<Condition>>, name: string): (r: seq<Code>)
    requires forall c :: c in values ==> InTokens(domain, c)
    ensures forall c :: c in r ==> c in values
    ensures values != [] ==> r != []
    ensures forall c :: c in values && c in controlling ==> c in r
  {
    if rules == [] then values
    else
      var n := |rules| - 1;
      PruneBy(PruneAll(values, domain, controlling, ancestors, rules[..n], name),
              domain, controlling, ancestors, rules[n], name)
  }

  // The generation domain of column i; Bounded columns keep their bounds.
  function GenerationDomain(params: seq<Param>, order: seq<Param>, rules: seq<seq<Condition>>, i: nat): seq<Code>
    requires Tree(params) && Ordering(order, params) && i < |params|
  {
    var domain := ColumnDomain(params, i);
    assert params[i] in params;
    PruneAll(Values(domain), domain, Controlling(params, i), Ancestors(params, order, params[i].name), rules, params[i].name)
  }

  method PruneColumn(domain: Domain, controlling: set<Code>, ancestors: map<string, Value>,
                     rules: seq<seq<Condition>>, name: string)
    returns (values: seq<Code>)
    ensures forall c :: c in Values(domain) ==> InTokens(domain, c)
    ensures values == PruneAll(Values(domain), domain, controlling, ancestors, rules, name)
  {
    values := Values(domain);
    ValuesFit(domain);
    hide Values, Applies, InTokens;
    for k := 0 to |rules|
      invariant forall c :: c in values ==> InTokens(domain, c)
      invariant values == PruneAll(Values(domain), domain, controlling, ancestors, rules[..k], name)
    {
      assert rules[..k + 1][..k] == rules[..k];
      if Applies(rules[k], name, ancestors) {
        var kept := KeepValues(values, domain, controlling, rules[k], name);
        if kept != [] { values := kept; }
      }
    }
    assert rules[..|rules|] == rules;
  }

  // _generation_choices: None when nothing was pruned.
  method GenerationChoices(params: seq<Param>, order: seq<Param>, domains: seq<Domain>, rules: seq<seq<Condition>>)
    returns (generated: Option<seq<seq<Code>>>)
    requires Tree(params) && Ordering(order, params) && |domains| == |params|
    requires forall i :: 0 <= i < |params| ==> domains[i] == ColumnDomain(params, i)
    ensures generated.Some? ==> |generated.value| == |params|
    ensures generated.Some? ==>
              forall i :: 0 <= i < |params| ==> generated.value[i] == GenerationDomain(params, order, rules, i)
    ensures generated.None? <==> forall i :: 0 <= i < |params| ==>
              GenerationDomain(params, order, rules, i) == Values(ColumnDomain(params, i))
  {
    hide *;
    var all: seq<seq<Code>> := [];
    var changed := false;
    for i := 0 to |params|
      invariant |all| == i
      invariant forall k :: 0 <= k < i ==> all[k] == GenerationDomain(params, order, rules, k)
      invariant changed <==> exists k :: 0 <= k < i && all[k] != Values(domains[k])
    {
      GenerationDomainIs(params, order, rules, i);
      var ancestors := CollectAncestors(params, order, params[i].name);
      var values := PruneColumn(domains[i], Controlling(params, i), ancestors, rules, params[i].name);
      changed := changed || values != Values(domains[i]);
      all := all + [values];
    }
    generated := if changed then Some(all) else None;
  }

  method KeepValues(values: seq<Code>, domain: Domain, controlling: set<Code>, rule: seq<Condition>, name: string)
    returns (kept: seq<Code>)
    requires forall c :: c in values ==> InTokens(domain, c)
    ensures kept == Kept(values, domain, controlling, rule, name)
  {
    kept := [];
    for i := 0 to |values|
      invariant kept == Kept(values[..i], domain, controlling, rule, name)
    {
      assert values[i] in values;
      assert values[..i + 1][..i] == values[..i];
      if values[i] in controlling || !Hits(rule, name, RawOf(domain, values[i])) { kept := kept + [values[i]]; }
    }
    assert values[..|values|] == values;
  }

  lemma ValuesFit(domain: Domain)
    ensures forall c :: c in Values(domain) ==> InTokens(domain, c)
  {
  }

  // ---- pruning preserves the feasible points --------------------------------------------------------

  predicate NoneForbidden(rules: seq<seq<Condition>>, x: Point) {
    forall r :: r in rules ==> !C.ForbiddenViolated(r, x)
  }

  lemma AppliedRuleSpares(rule: seq<Condition>, name: string, ancestors: map<string, Value>, x: Point)
    requires Applies(rule, name, ancestors) && !C.ForbiddenViolated(rule, x) && name in x
    requires forall n :: n in ancestors ==> n in x && x[n] == ancestors[n]
    ensures !Hits(rule, name, x[name])
  {
    if Hits(rule, name, x[name]) { HitsViolate(rule, name, ancestors, x); }
  }

  lemma HitsViolate(rule: seq<Condition>, name: string, ancestors: map<string, Value>, x: Point)
    requires Applies(rule, name, ancestors) && name in x && Hits(rule, name, x[name])
    requires forall n :: n in ancestors ==> n in x && x[n] == ancestors[n]
    ensures C.ForbiddenViolated(rule, x)
  {
  }

  lemma {:induction false} PruneKeeps(values: seq<Code>, domain: Domain, controlling: set<Code>,
                                      ancestors: map<string, Value>, rules: seq<seq<Condition>>, name: string,
                                      code: Code, x: Point)
    requires forall c :: c in values ==> InTokens(domain, c)
    requires code in values && name in x && RawOf(domain, code) == x[name]
    requires forall n :: n in ancestors ==> n in x && x[n] == ancestors[n]
    requires NoneForbidden(rules, x)
    ensures code in PruneAll(values, domain, controlling, ancestors, rules, name)
  {
    if rules != [] {
      var n := |rules| - 1;
      assert NoneForbidden(rules[..n], x);
      PruneKeeps(values, domain, controlling, ancestors, rules[..n], name, code, x);
      assert rules[n] in rules;
      hide NoneForbidden, C.ForbiddenViolated, Hits;
      if Applies(rules[n], name, ancestors) {
        assert !C.ForbiddenViolated(rules[n], x) by { NotForbidden(rules, rules[n], x); }
        AppliedRuleSpares(rules[n], name, ancestors, x);
      }
    }
  }

  lemma NotForbidden(rules: seq<seq<Condition>>, r: seq<Condition>, x: Point)
    requires NoneForbidden(rules, x) && r in rules
    ensures !C.ForbiddenViolated(r, x)
  {
  }

  lemma ListedCode(k: Kind, controls: bool, v: Value)
    requires Sound(k) && DomainOf(k, controls).Some? && !DomainOf(k, controls).value.Bounded?
    requires EncodeValue(k, DomainOf(k, controls).value, v).Some? && (k.Continuous? ==> !v.Int?)
    ensures var domain := DomainOf(k, controls).value;
            var code := EncodeValue(k, domain, v).value;
            code in Values(domain) && InTokens(domain, code) && RawOf(domain, code) == v
  {
    var domain := DomainOf(k, controls).value;
    var code := EncodeValue(k, domain, v).value;
    match domain
    case Tokens(raw) => assert Values(domain)[code.i] == code;
    case Listed(values) =>
      var i :| 0 <= i < |values| && values[i] == v;
      assert Values(domain)[i] == code;
  }

  // Main result: every feasible public point still encodes into the pruned
  // domains, no domain becomes empty, and nothing a dependent hangs on is removed.
  lemma PruningPreservesFeasible(params: seq<Param>, order: seq<Param>, rules: seq<seq<Condition>>, x: Point, i: nat)
    requires Tree(params) && Ordering(order, params) && i < |params|
    requires EncodePoint(params, x).Some? && NoneForbidden(rules, x)
    requires Column(i) in EncodePoint(params, x).value && !ColumnDomain(params, i).Bounded?
    ensures EncodePoint(params, x).value[Column(i)] in GenerationDomain(params, order, rules, i)
  {
    var name := params[i].name;
    assert params[i] in params;
    assert Accepts(params, x) && EncodePoint(params, x).value == RootPart(params) + Columns(params, x);
    assert x.Keys == ActiveNames(params, x);
    hide *;
    ListedIsDiscrete(params, i);
    EncodedColumn(params, x, i);
    ColumnDomainIs(params, i);
    ListedCode(params[i].kind, Controls(params, name), x[name]);
    ValuesFit(ColumnDomain(params, i));
    AncestorsHold(params, order, name, x);
    var code := EncodePoint(params, x).value[Column(i)];
    PruneKeeps(Values(ColumnDomain(params, i)), ColumnDomain(params, i), Controlling(params, i),
               Ancestors(params, order, name), rules, name, code, x);
    GenerationDomainIs(params, order, rules, i);
  }

  // Only columns others depend on, and categorical or boolean ones, are listed;
  // controllers are never continuous.
  lemma ListedIsDiscrete(params: seq<Param>, i: nat)
    requires Tree(params) && i < |params| && !ColumnDomain(params, i).Bounded?
    ensures !params[i].kind.Continuous?
  {
    hide SpaceOK, Ordered;
    if Controls(params, params[i].name) {
      var p, c :| p in params && c in p.conditions && c.controller == params[i].name;
      ControllerIsDiscrete(params, p, c, i);
    }
  }

  lemma ControllerIsDiscrete(params: seq<Param>, p: Param, c: Condition, i: nat)
    requires SpaceOK(params) && p in params && c in p.conditions && i < |params| && c.controller == params[i].name
    ensures !params[i].kind.Continuous?
  {
    assert params[i] in params;
    SameName(params, params[i], Lookup(params, c.controller));
  }

  lemma GenerationDomainIs(params: seq<Param>, order: seq<Param>, rules: seq<seq<Condition>>, i: nat)
    requires Tree(params) && Ordering(order, params) && i < |params|
    ensures params[i].name in Names(params)
    ensures forall c :: c in Values(ColumnDomain(params, i)) ==> InTokens(ColumnDomain(params, i), c)
    ensures GenerationDomain(params, order, rules, i)
         == PruneAll(Values(ColumnDomain(params, i)), ColumnDomain(params, i), Controlling(params, i),
                     Ancestors(params, order, params[i].name), rules, params[i].name)
  {
    assert params[i] in params;
    ValuesFit(ColumnDomain(params, i));
  }

  lemma PrunedDomainsStayUsable(params: seq<Param>, order: seq<Param>, rules: seq<seq<Condition>>, i: nat)
    requires Tree(params) && Ordering(order, params) && i < |params| && !ColumnDomain(params, i).Bounded?
    ensures GenerationDomain(params, order, rules, i) != []
    ensures forall c :: c in GenerationDomain(params, order, rules, i) ==> c in Values(ColumnDomain(params, i))
    ensures forall c :: c in Controlling(params, i) && c in Values(ColumnDomain(params, i)) ==>
              c in GenerationDomain(params, order, rules, i)
  {
    ColumnDomainIs(params, i);
    DomainNotEmpty(params[i].kind, Controls(params, params[i].name));
    hide *;
    GenerationDomainIs(params, order, rules, i);
  }

  lemma DomainNotEmpty(k: Kind, controls: bool)
    requires Sound(k) && DomainOf(k, controls).Some? && !DomainOf(k, controls).value.Bounded?
    ensures Values(DomainOf(k, controls).value) != []
  {
  }
}
