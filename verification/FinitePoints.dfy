// Pruned enumeration of a finite conditional space (templates/_shared/ax_space.py).
module FinitePoints {
  import opened Wrappers
  import opened Space
  import opened Constraints
  import V = SpaceVector

  // x is what the walk reaches from `values` by deciding the parameters from i on.
  predicate Completes(order: seq<Param>, i: nat, values: Point, x: Point)
    requires i <= |order|
    decreases |order| - i
  {
    if i == |order| then x == values
    else
      var p := order[i];
      if !Active(p, values) then Completes(order, i + 1, values, x)
      else
        p.name in x && InDomain(p.kind, x[p.name])
        && Completes(order, i + 1, values[p.name := x[p.name]], x)
  }

  lemma {:induction false} CompletionExtends(order: seq<Param>, i: nat, values: Point, x: Point)
    requires Distinct(order) && i <= |order| && values.Keys <= Names(order[..i])
    requires Completes(order, i, values, x)
    ensures Extends(x, values)
    decreases |order| - i
  {
    if i < |order| {
      NextNotBefore(order, i);
      NamesGrow(order, i);
      hide Active, Names, InDomain;
      var p := order[i];
      CompletionExtends(order, i + 1, if Active(p, values) then values[p.name := x[p.name]] else values, x);
    }
  }

  lemma NamesGrow(order: seq<Param>, i: nat)
    requires i < |order|
    ensures Names(order[..i + 1]) == Names(order[..i]) + {order[i].name}
  {
    assert order[..i + 1] == order[..i] + [order[i]];
  }

  // The whole walk reaches exactly the points of the space.
  lemma {:induction false} CompletionIsDecided(order: seq<Param>, i: nat, values: Point, x: Point)
    requires Distinct(order) && ControllersFirst(order) && i <= |order| && V.Decided(order, i, values)
    ensures Completes(order, i, values, x) ==> V.Decided(order, |order|, x)
    decreases |order| - i
  {
    if i < |order| && Completes(order, i, values, x) {
      var p := order[i];
      var next := if Active(p, values) then values[p.name := x[p.name]] else values;
      hide Active, V.Decided, InDomain;
      V.DecideNext(order, i, values, next);
      CompletionIsDecided(order, i + 1, next, x);
    }
  }

  lemma {:induction false} DecidedCompletes(params: seq<Param>, order: seq<Param>, i: nat, x: Point)
    requires Ordering(order, params) && IsPoint(params, x) && i <= |order|
    ensures Completes(order, i, Restrict(x, Names(order[..i])), x)
    decreases |order| - i
  {
    hide *;
    if i == |order| {
      AllDecided(params, order, x);
    } else {
      MemberOfPoint(params, order, x, i);
      RestrictNext(order, i, x);
      DecidedCompletes(params, order, i + 1, x);
      DecidedStep(order, i, Restrict(x, Names(order[..i])), Restrict(x, Names(order[..i + 1])), x);
    }
  }

  lemma DecidedStep(order: seq<Param>, i: nat, now: Point, next: Point, x: Point)
    requires i < |order| && (order[i].name in x <==> Active(order[i], now))
    requires order[i].name in x ==> InDomain(order[i].kind, x[order[i].name])
    requires next == if order[i].name in x then now[order[i].name := x[order[i].name]] else now
    requires Completes(order, i + 1, next, x)
    ensures Completes(order, i, now, x)
  {
    hide Active, InDomain;
  }

  lemma AllDecided(params: seq<Param>, order: seq<Param>, x: Point)
    requires Ordering(order, params) && IsPoint(params, x)
    ensures Completes(order, |order|, Restrict(x, Names(order[..|order|])), x)
  {
    assert order[..|order|] == order;
    SameNames(order, params);
    assert x.Keys <= Names(order);
    hide Ordering, IsPoint, Names;
    RestrictAll(order, x);
  }

  lemma MemberOfPoint(params: seq<Param>, order: seq<Param>, x: Point, i: nat)
    requires Ordering(order, params) && IsPoint(params, x) && i < |order|
    ensures order[i].name in x <==> Active(order[i], Restrict(x, Names(order[..i])))
    ensures order[i].name in x ==> InDomain(order[i].kind, x[order[i].name])
  {
    assert order[i] in params;
    ActivityIsDecided(order, i, x);
  }

  lemma CompletesNext(order: seq<Param>, i: nat, values: Point, x: Point)
    requires i < |order|
    ensures var p := order[i];
            Completes(order, i, values, x)
            <==> if Active(p, values)
                 then p.name in x && InDomain(p.kind, x[p.name]) && Completes(order, i + 1, values[p.name := x[p.name]], x)
                 else Completes(order, i + 1, values, x)
  {
    hide Active, InDomain;
  }

  lemma WalkReachesPoints(params: seq<Param>, order: seq<Param>, x: Point)
    requires Ordering(order, params)
    ensures Completes(order, 0, map[], x) <==> IsPoint(params, x)
  {
    assert order[..0] == [] && Names([]) == {};
    assert V.Decided(order, 0, map[]);
    hide IsPoint, Active, V.Decided, Completes;
    if Completes(order, 0, map[], x) {
      CompletionIsDecided(order, 0, map[], x);
      V.DecidedIsPoint(order, params, x);
    }
    if IsPoint(params, x) {
      DecidedCompletes(params, order, 0, x);
      assert Restrict(x, {}) == map[];
    }
  }

  // The values tried for one active parameter; None gives up.
  function Choices(k: Kind, limit: nat): (r: Option<seq<Value>>)
    ensures r.Some? ==> forall v :: v in r.value <==> InDomain(k, v)
  {
    match k
    case Categorical(choices) => Some(choices)
    case Boolean => Some([Bool(false), Bool(true)])
    case Integer(lo, hi) =>
      if lo == hi then Some([Int(lo)])
      else if hi - lo + 1 > limit then None
      else
        var all := seq(if hi < lo then 0 else hi - lo + 1, i => Int(lo + i));
        assert forall i :: lo <= i <= hi ==> all[i - lo] == Int(i);
        Some(all)
    case Continuous(low, high) => if low == high then Some([Float(low)]) else None
  }

  // What cannot be enumerated: a continuous range with more than one value, and an
  // integer range with more values than the limit, unless it has only one.
  lemma TooManyValues(k: Kind, limit: nat)
    ensures Choices(k, limit) == None <==>
            || (k.Continuous? && k.low != k.high)
            || (k.Integer? && k.lo != k.hi && k.hi - k.lo >= limit)
  {
  }

  // ---- the pruned tree -------------------------------------------------------------------------

  // What a walk meets: the nodes it visits, the points it finds, and whether it
  // comes to a parameter it cannot enumerate.
  datatype Survey = Survey(nodes: nat, found: set<Point>, stuck: bool)

  function Both(a: Survey, b: Survey): Survey {
    Survey(a.nodes + b.nodes, a.found + b.found, a.stuck || b.stuck)
  }

  predicate Within(s: Survey, limit: nat) {
    !s.stuck && s.nodes <= 4 * limit && |s.found| <= limit
  }

  // The tree below one node, cut where the rules are violated already.
  ghost function Explore(order: seq<Param>, rules: Rules, limit: nat, i: nat, values: Point): (r: Survey)
    requires i <= |order|
    ensures r.nodes >= 1
    decreases |order| - i, 0
  {
    var here := Survey(1, {}, false);
    if !Feasible(rules, values) then here
    else if i == |order| then here.(found := {values})
    else if !Active(order[i], values) then Both(here, Explore(order, rules, limit, i + 1, values))
    else
      match Choices(order[i].kind, limit)
      case None => here.(stuck := true)
      case Some(choices) => Both(here, ExploreAll(order, rules, limit, i + 1, values, order[i].name, choices))
  }

  ghost function ExploreAll(order: seq<Param>, rules: Rules, limit: nat, i: nat, values: Point, name: string,
                            choices: seq<Value>): Survey
    requires i <= |order|
    decreases |order| - i, 1, |choices|
  {
    if choices == [] then Survey(0, {}, false)
    else
      Both(ExploreAll(order, rules, limit, i, values, name, choices[..|choices| - 1]),
           Explore(order, rules, limit, i, values[name := choices[|choices| - 1]]))
  }

  lemma BothAssociates(a: Survey, b: Survey, c: Survey)
    ensures Both(a, Both(b, c)) == Both(Both(a, b), c)
  {
  }

  // One more choice.
  lemma ExploreNext(order: seq<Param>, rules: Rules, limit: nat, i: nat, values: Point, name: string,
                    choices: seq<Value>, k: nat)
    requires i <= |order| && k < |choices|
    ensures ExploreAll(order, rules, limit, i, values, name, choices[..k + 1])
         == Both(ExploreAll(order, rules, limit, i, values, name, choices[..k]),
                 Explore(order, rules, limit, i, values[name := choices[k]]))
  {
    assert choices[..k + 1][..k] == choices[..k];
  }

  lemma TooMuch(a: Survey, b: Survey, limit: nat)
    requires !Within(a, limit)
    ensures !Within(Both(a, b), limit)
  {
    if |a.found| > limit { SetSizes(a.found, a.found + b.found); }
  }

  lemma {:induction false} SetSizes(a: set<Point>, b: set<Point>)
    requires a <= b
    ensures |a| <= |b|
  {
    assert b == a + (b - a) && a !! (b - a);
  }

  // What was too much for the first k choices stays too much.
  lemma {:induction false} StaysTooMuch(order: seq<Param>, rules: Rules, limit: nat, i: nat, values: Point, name: string,
                                        choices: seq<Value>, k: nat, before: Survey)
    requires i <= |order| && k <= |choices|
    requires !Within(Both(before, ExploreAll(order, rules, limit, i, values, name, choices[..k])), limit)
    ensures !Within(Both(before, ExploreAll(order, rules, limit, i, values, name, choices)), limit)
    decreases |choices| - k
  {
    if k == |choices| {
      assert choices[..k] == choices;
    } else {
      var sofar := ExploreAll(order, rules, limit, i, values, name, choices[..k]);
      var next := Explore(order, rules, limit, i, values[name := choices[k]]);
      ExploreNext(order, rules, limit, i, values, name, choices, k);
      BothAssociates(before, sofar, next);
      hide *;
      TooMuch(Both(before, sofar), next, limit);
      StaysTooMuch(order, rules, limit, i, values, name, choices, k + 1, before);
    }
  }

  class Enumeration {
    const order: seq<Param>
    const rules: Rules
    const limit: nat
    var visits: nat
    var points: set<Point>

    constructor (order: seq<Param>, rules: Rules, limit: nat)
      ensures this.order == order && this.rules == rules && this.limit == limit
      ensures visits == 0 && points == {}
    {
      this.order, this.rules, this.limit := order, rules, limit;
      visits, points := 0, {};
    }

    // The walk so far.
    ghost function Sofar(): Survey
      reads this
    {
      Survey(visits, points, false)
    }

    // False stands for the overflow that ends the enumeration.
    method Walk(i: nat, values: Point) returns (ok: bool)
      requires i <= |order|
      modifies this
      ensures ok <==> Within(Both(old(Sofar()), Explore(order, rules, limit, i, values)), limit)
      ensures ok ==> Sofar() == Both(old(Sofar()), Explore(order, rules, limit, i, values))
      decreases |order| - i, 0
    {
      ghost var before := Sofar();
      hide *;
      SofarIs();
      Step(before, i, values);
      visits := visits + 1;
      SofarIs();
      if visits > 4 * limit || |points| > limit { return false; }
      var violations := EvaluateConstraints(values, rules);
      if violations != [] { return true; }
      if i == |order| {
        points := points + {values};
        SofarIs();
        return |points| <= limit;
      }
      var p := order[i];
      if !Active(p, values) {
        ok := Walk(i + 1, values);
        return;
      }
      var choices := Choices(p.kind, limit);
      if choices.None? { return false; }
      ok := WalkAll(i + 1, values, p.name, choices.value);
    }

    lemma SofarIs()
      ensures Sofar() == Survey(visits, points, false)
      ensures Within(Sofar(), limit) <==> visits <= 4 * limit && |points| <= limit
    {
    }

    // What one node adds to the walk, case by case.
    lemma Step(before: Survey, i: nat, values: Point)
      requires i <= |order| && !before.stuck
      ensures var entered := Survey(before.nodes + 1, before.found, false);
              var after := Both(before, Explore(order, rules, limit, i, values));
              if !Within(entered, limit) then !Within(after, limit)
              else if !Feasible(rules, values) then after == entered
              else if i == |order| then after == entered.(found := before.found + {values})
              else if !Active(order[i], values) then after == Both(entered, Explore(order, rules, limit, i + 1, values))
              else
                match Choices(order[i].kind, limit)
                case None => !Within(after, limit)
                case Some(choices) =>
                  after == Both(entered, ExploreAll(order, rules, limit, i + 1, values, order[i].name, choices))
    {
      var entered := Survey(before.nodes + 1, before.found, false);
      var all, one := Explore(order, rules, limit, i, values), Survey(1, {}, false);
      assert Both(before, one) == entered;
      if !Within(entered, limit) {
        if |before.found| > limit { SetSizes(before.found, before.found + all.found); }
      } else if Feasible(rules, values) && i < |order| {
        if !Active(order[i], values) {
          BothAssociates(before, one, Explore(order, rules, limit, i + 1, values));
        } else if Choices(order[i].kind, limit).Some? {
          BothAssociates(before, one, ExploreAll(order, rules, limit, i + 1, values, order[i].name,
                                                 Choices(order[i].kind, limit).value));
        }
      }
    }

    // The loop over the choices of one parameter.
    method WalkAll(i: nat, values: Point, name: string, choices: seq<Value>) returns (ok: bool)
      requires i <= |order| && Within(Sofar(), limit)
      modifies this
      ensures ok <==> Within(Both(old(Sofar()), ExploreAll(order, rules, limit, i, values, name, choices)), limit)
      ensures ok ==> Sofar() == Both(old(Sofar()), ExploreAll(order, rules, limit, i, values, name, choices))
      decreases |order| - i, 1
    {
      ghost var before := Sofar();
      assert choices[..0] == [];
      assert Both(before, Survey(0, {}, false)) == before;
      hide Within, Explore, Both;
      for k := 0 to |choices|
        invariant Sofar() == Both(before, ExploreAll(order, rules, limit, i, values, name, choices[..k]))
        invariant Within(Sofar(), limit)
      {
        hide *;
        ExploreNext(order, rules, limit, i, values, name, choices, k);
        BothAssociates(before, ExploreAll(order, rules, limit, i, values, name, choices[..k]),
                       Explore(order, rules, limit, i, values[name := choices[k]]));
        ok := Walk(i, values[name := choices[k]]);
        if !ok {
          StaysTooMuch(order, rules, limit, i, values, name, choices, k + 1, before);
          return;
        }
      }
      assert choices[..|choices|] == choices;
      ok := true;
    }
  }

  // ---- what the walk finds ---------------------------------------------------------------------

  ghost predicate Reached(order: seq<Param>, rules: Rules, i: nat, values: Point, x: Point)
    requires i <= |order|
  {
    Completes(order, i, values, x) && Feasible(rules, x)
  }

  lemma CutBranch(order: seq<Param>, rules: Rules, i: nat, values: Point, x: Point)
    requires Distinct(order) && i <= |order| && values.Keys <= Names(order[..i])
    requires !Feasible(rules, values)
    ensures !Reached(order, rules, i, values, x)
  {
    if Reached(order, rules, i, values, x) {
      CompletionExtends(order, i, values, x);
      FeasibleIsHereditary(rules, values, x);
    }
  }

  lemma BranchesCover(order: seq<Param>, rules: Rules, i: nat, values: Point, choices: seq<Value>, x: Point)
    requires Distinct(order) && i < |order| && values.Keys <= Names(order[..i]) && Active(order[i], values)
    requires forall v :: v in choices <==> InDomain(order[i].kind, v)
    ensures Reached(order, rules, i, values, x)
       <==> exists j :: 0 <= j < |choices| && Reached(order, rules, i + 1, values[order[i].name := choices[j]], x)
  {
    var p := order[i];
    CompletesNext(order, i, values, x);
    NamesGrow(order, i);
    hide Completes, Feasible, Names, Active;
    if Reached(order, rules, i, values, x) {
      assert x[p.name] in choices;
      var j :| 0 <= j < |choices| && choices[j] == x[p.name];
      assert Reached(order, rules, i + 1, values[p.name := choices[j]], x);
    }
    if j :| 0 <= j < |choices| && Reached(order, rules, i + 1, values[p.name := choices[j]], x) {
      CompletionExtends(order, i + 1, values[p.name := choices[j]], x);
      assert choices[j] in choices && x[p.name] == choices[j];
    }
  }

  lemma {:induction false} AllFound(order: seq<Param>, rules: Rules, limit: nat, i: nat, values: Point, name: string,
                                    choices: seq<Value>, x: Point)
    requires i <= |order|
    ensures var s := ExploreAll(order, rules, limit, i, values, name, choices);
            && (s.stuck <==> exists j :: 0 <= j < |choices| && Explore(order, rules, limit, i, values[name := choices[j]]).stuck)
            && (x in s.found <==> exists j :: 0 <= j < |choices| && x in Explore(order, rules, limit, i, values[name := choices[j]]).found)
    decreases |choices|
  {
    hide Explore;
    if choices != [] {
      var front := choices[..|choices| - 1];
      AllFound(order, rules, limit, i, values, name, front, x);
    }
  }

  // A walk that is not stuck finds exactly the feasible completions.
  lemma {:induction false} ExploreFinds(order: seq<Param>, rules: Rules, limit: nat, i: nat, values: Point, x: Point)
    requires Distinct(order) && i <= |order| && values.Keys <= Names(order[..i])
    requires !Explore(order, rules, limit, i, values).stuck
    ensures x in Explore(order, rules, limit, i, values).found <==> Reached(order, rules, i, values, x)
    decreases |order| - i
  {
    if !Feasible(rules, values) {
      CutBranch(order, rules, i, values, x);
    } else if i < |order| {
      CompletesNext(order, i, values, x);
      NamesGrow(order, i);
      hide Completes, Feasible, Names, Active;
      var p := order[i];
      if !Active(p, values) {
        ExploreFinds(order, rules, limit, i + 1, values, x);
      } else {
        var choices := Choices(p.kind, limit).value;
        AllFound(order, rules, limit, i + 1, values, p.name, choices, x);
        BranchesCover(order, rules, i, values, choices, x);
        hide Explore, ExploreAll, Choices;
        forall j | 0 <= j < |choices|
          ensures x in Explore(order, rules, limit, i + 1, values[p.name := choices[j]]).found
             <==> Reached(order, rules, i + 1, values[p.name := choices[j]], x)
        {
          ExploreFinds(order, rules, limit, i + 1, values[p.name := choices[j]], x);
        }
      }
    }
  }

  // ---- where the walk gets stuck -----------------------------------------------------------------

  // A feasible choice for the parameters before i that leaves parameter i active,
  // with more values than can be tried.
  ghost predicate OpenEnd(order: seq<Param>, rules: Rules, limit: nat, i: nat, y: Point) {
    && i < |order| && V.Decided(order, i, y) && Feasible(rules, y)
    && Active(order[i], y) && Choices(order[i].kind, limit).None?
  }

  lemma {:induction false} StuckAtOpenEnd(order: seq<Param>, rules: Rules, limit: nat, i: nat, values: Point)
    returns (j: nat, y: Point)
    requires Distinct(order) && ControllersFirst(order) && i <= |order| && V.Decided(order, i, values)
    requires Explore(order, rules, limit, i, values).stuck
    ensures OpenEnd(order, rules, limit, j, y)
    decreases |order| - i
  {
    hide Feasible, Active, V.Decided, Distinct, ControllersFirst;
    j, y := i, values;
    var p := order[i];
    if !Active(p, values) {
      V.DecideNext(order, i, values, values);
      j, y := StuckAtOpenEnd(order, rules, limit, i + 1, values);
    } else if Choices(p.kind, limit).Some? {
      var choices := Choices(p.kind, limit).value;
      AllFound(order, rules, limit, i + 1, values, p.name, choices, map[]);
      var k :| 0 <= k < |choices| && Explore(order, rules, limit, i + 1, values[p.name := choices[k]]).stuck;
      assert choices[k] in choices;
      V.DecideNext(order, i, values, values[p.name := choices[k]]);
      j, y := StuckAtOpenEnd(order, rules, limit, i + 1, values[p.name := choices[k]]);
    }
  }

  lemma {:induction false} OpenEndSticks(order: seq<Param>, rules: Rules, limit: nat, i: nat, j: nat, y: Point)
    requires Distinct(order) && ControllersFirst(order) && i <= j && OpenEnd(order, rules, limit, j, y)
    ensures Explore(order, rules, limit, i, Restrict(y, Names(order[..i]))).stuck
    decreases j - i
  {
    var values := Restrict(y, Names(order[..i]));
    assert Extends(y, values);
    OpenEndIs(order, rules, limit, j, y);
    if i == j {
      assert values == y;
      hide Feasible, Active, V.Decided, Distinct, ControllersFirst, Names, Restrict, Choices;
    } else {
      hide *;
      FeasibleIsHereditary(rules, values, y);
      OpenEndSticks(order, rules, limit, i + 1, j, y);
      PartOfDecided(order, j, y, i);
      StickyStep(order, rules, limit, i, values, y);
    }
  }

  lemma OpenEndIs(order: seq<Param>, rules: Rules, limit: nat, i: nat, y: Point)
    requires OpenEnd(order, rules, limit, i, y)
    ensures i < |order| && V.Decided(order, i, y) && Feasible(rules, y)
    ensures Active(order[i], y) && Choices(order[i].kind, limit).None? && y.Keys <= Names(order[..i])
  {
  }

  lemma PartOfDecided(order: seq<Param>, j: nat, y: Point, i: nat)
    requires ControllersFirst(order) && i < j <= |order| && V.Decided(order, j, y)
    ensures Active(order[i], Restrict(y, Names(order[..i]))) <==> order[i].name in y
    ensures order[i].name in y ==> InDomain(order[i].kind, y[order[i].name])
    ensures var now := Restrict(y, Names(order[..i]));
            Restrict(y, Names(order[..i + 1])) == if order[i].name in y then now[order[i].name := y[order[i].name]] else now
  {
    ActivityIsDecided(order, i, y);
    RestrictNext(order, i, y);
    hide ControllersFirst, Active, Names, Restrict;
  }

  lemma StickyStep(order: seq<Param>, rules: Rules, limit: nat, i: nat, values: Point, y: Point)
    requires i < |order| && Feasible(rules, values)
    requires Active(order[i], values) <==> order[i].name in y
    requires order[i].name in y ==> InDomain(order[i].kind, y[order[i].name])
    requires Explore(order, rules, limit, i + 1,
                     if order[i].name in y then values[order[i].name := y[order[i].name]] else values).stuck
    ensures Explore(order, rules, limit, i, values).stuck
  {
    hide Feasible, Active;
    var p := order[i];
    if p.name in y && Choices(p.kind, limit).Some? {
      var choices := Choices(p.kind, limit).value;
      AllFound(order, rules, limit, i + 1, values, p.name, choices, map[]);
      assert y[p.name] in choices;
      var k :| 0 <= k < |choices| && choices[k] == y[p.name];
      assert Explore(order, rules, limit, i + 1, values[p.name := choices[k]]).stuck;
    }
  }

  // ---- the whole space ---------------------------------------------------------------------------

  ghost function SpaceSurvey(order: seq<Param>, rules: Rules, limit: nat): Survey {
    Explore(order, rules, limit, 0, map[])
  }

  // Main result: the walk of a space is stuck exactly if some feasible choice of
  // controllers leaves an active parameter with too many values; otherwise it finds
  // exactly the complete, active, feasible points.
  lemma WalkOfSpace(params: seq<Param>, order: seq<Param>, rules: Rules, limit: nat)
    requires Ordering(order, params)
    ensures SpaceSurvey(order, rules, limit).stuck <==> exists i, y :: OpenEnd(order, rules, limit, i, y)
    ensures !SpaceSurvey(order, rules, limit).stuck ==>
              forall x :: x in SpaceSurvey(order, rules, limit).found <==> IsPoint(params, x) && Feasible(rules, x)
  {
    assert order[..0] == [] && Names([]) == {};
    assert V.Decided(order, 0, map[]);
    hide Explore, V.Decided, IsPoint, Feasible, OpenEnd;
    if SpaceSurvey(order, rules, limit).stuck {
      var i, y := StuckAtOpenEnd(order, rules, limit, 0, map[]);
    } else {
      forall x ensures x in SpaceSurvey(order, rules, limit).found <==> IsPoint(params, x) && Feasible(rules, x) {
        ExploreFinds(order, rules, limit, 0, map[], x);
        WalkReachesPoints(params, order, x);
      }
    }
    if i, y :| OpenEnd(order, rules, limit, i, y) {
      OpenEndSticks(order, rules, limit, 0, i, y);
      assert Restrict(y, {}) == map[];
    }
  }

  const LIMIT: nat := 65536

  // Main result: enumeration gives up exactly if the walk is stuck, has more nodes
  // than four times the limit, or finds more points than the limit; otherwise it
  // yields exactly the complete, active, feasible points.
  method EnumerateFeasible(params: seq<Param>, order: seq<Param>, rules: Rules, limit: nat)
    returns (points: Option<set<Point>>)
    requires Ordering(order, params)
    ensures points.Some? <==>
              var walk := SpaceSurvey(order, rules, limit);
              !walk.stuck && walk.nodes <= 4 * limit && |walk.found| <= limit
    ensures points.Some? ==> points.value == SpaceSurvey(order, rules, limit).found
    ensures points.Some? ==> forall x :: x in points.value <==> IsPoint(params, x) && Feasible(rules, x)
  {
    var e := new Enumeration(order, rules, limit);
    ghost var whole := Explore(order, rules, limit, 0, map[]);
    assert Both(Survey(0, {}, false), whole) == whole;
    WalkOfSpace(params, order, rules, limit);
    hide Explore, IsPoint, Feasible, Ordering, OpenEnd, Both;
    var ok := e.Walk(0, map[]);
    points := if ok then Some(e.points) else None;
  }

  datatype Row = Row(values: Point, pending: bool)

  // The rows whose points may not be proposed again.
  function BlockedRows(rows: seq<Row>, allowCompletedRepeats: bool): set<Point> {
    set r | r in rows && (r.pending || !allowCompletedRepeats) :: r.values
  }

  lemma BlockedRowsMean(rows: seq<Row>, allowCompletedRepeats: bool, x: Point)
    ensures x in BlockedRows(rows, allowCompletedRepeats) <==>
            exists r :: r in rows && r.values == x && (allowCompletedRepeats ==> r.pending)
  {
  }

  // check_capacity: an error exactly when the walk of the space comes to an end and
  // too few of its feasible points are not blocked.
  method CheckCapacity(params: seq<Param>, order: seq<Param>, rules: Rules, rows: seq<Row>, count: nat,
                       allowCompletedRepeats: bool)
    returns (error: bool)
    requires Ordering(order, params)
    ensures error <==>
              var walk := SpaceSurvey(order, rules, 65536);
              && !walk.stuck && walk.nodes <= 262144 && |walk.found| <= 65536
              && |walk.found - BlockedRows(rows, allowCompletedRepeats)| < count
    ensures error ==> forall x :: x in SpaceSurvey(order, rules, 65536).found <==> IsPoint(params, x) && Feasible(rules, x)
  {
    hide Explore, Within, IsPoint, Feasible, Ordering;
    if count == 0 { return false; }
    var points := EnumerateFeasible(params, order, rules, LIMIT);
    if points.None? { return false; }
    error := |points.value - BlockedRows(rows, allowCompletedRepeats)| < count;
  }
}
