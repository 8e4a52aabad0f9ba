// Which nodes the pruned walk visits, without the recursion.
module WalkLaws {
  import opened Wrappers
  import opened Space
  import opened Constraints
  import opened FinitePoints
  import V = SpaceVector

  // A partial point that assigns the parameters up to some depth.
  datatype Node = Node(depth: nat, values: Point)

  // The walk of a space visits a choice for the first parameters exactly if the part
  // without the last of them is feasible.
  ghost predicate Visited(order: seq<Param>, rules: Rules, n: Node) {
    && n.depth <= |order| && V.Decided(order, n.depth, n.values)
    && (n.depth > 0 ==> Feasible(rules, Restrict(n.values, Names(order[..n.depth - 1]))))
  }

  // The nodes below one node.
  ghost function Nodes(order: seq<Param>, rules: Rules, limit: nat, i: nat, values: Point): set<Node>
    requires i <= |order|
    decreases |order| - i, 0
  {
    {Node(i, values)} +
    if !Feasible(rules, values) || i == |order| then {}
    else if !Active(order[i], values) then Nodes(order, rules, limit, i + 1, values)
    else
      match Choices(order[i].kind, limit)
      case None => {}
      case Some(choices) => NodesAll(order, rules, limit, i + 1, values, order[i].name, choices)
  }

  ghost function NodesAll(order: seq<Param>, rules: Rules, limit: nat, i: nat, values: Point, name: string,
                          choices: seq<Value>): set<Node>
    requires i <= |order|
    decreases |order| - i, 1, |choices|
  {
    if choices == [] then {}
    else
      NodesAll(order, rules, limit, i, values, name, choices[..|choices| - 1])
      + Nodes(order, rules, limit, i, values[name := choices[|choices| - 1]])
  }

  lemma {:induction false} NodesOfChoice(order: seq<Param>, rules: Rules, limit: nat, i: nat, values: Point, name: string,
                                         choices: seq<Value>, n: Node)
    requires i <= |order|
    ensures n in NodesAll(order, rules, limit, i, values, name, choices) <==>
            exists k :: 0 <= k < |choices| && n in Nodes(order, rules, limit, i, values[name := choices[k]])
    decreases |choices|
  {
    hide Nodes;
    if choices != [] {
      var front := choices[..|choices| - 1];
      NodesOfChoice(order, rules, limit, i, values, name, front, n);
      if k :| 0 <= k < |choices| && n in Nodes(order, rules, limit, i, values[name := choices[k]]) {
        if k < |front| { assert front[k] == choices[k]; }
      }
      if k :| 0 <= k < |front| && n in Nodes(order, rules, limit, i, values[name := front[k]]) {
        assert front[k] == choices[k];
      }
    }
  }

  // A node that is not the first is below one of the next.
  lemma ChildOf(order: seq<Param>, rules: Rules, limit: nat, i: nat, values: Point, n: Node) returns (next: Point)
    requires Distinct(order) && i <= |order| && values.Keys <= Names(order[..i])
    requires n in Nodes(order, rules, limit, i, values) && n != Node(i, values)
    ensures i < |order| && n in Nodes(order, rules, limit, i + 1, next)
    ensures Extends(next, values) && next.Keys <= Names(order[..i + 1])
  {
    var p := order[i];
    NextNotBefore(order, i);
    NamesGrow(order, i);
    next := values;
    if Active(p, values) {
      var choices := Choices(p.kind, limit).value;
      NodesOfChoice(order, rules, limit, i + 1, values, p.name, choices, n);
      hide Nodes, NodesAll, Active, Names, Feasible, Choices, Distinct;
      var k :| 0 <= k < |choices| && n in Nodes(order, rules, limit, i + 1, values[p.name := choices[k]]);
      next := values[p.name := choices[k]];
    }
  }

  lemma {:induction false} NodesExtend(order: seq<Param>, rules: Rules, limit: nat, i: nat, values: Point, n: Node)
    requires Distinct(order) && i <= |order| && values.Keys <= Names(order[..i])
    requires n in Nodes(order, rules, limit, i, values)
    ensures n.depth >= i && Extends(n.values, values)
    decreases |order| - i
  {
    if n != Node(i, values) {
      hide Nodes, Names, Distinct;
      var next := ChildOf(order, rules, limit, i, values, n);
      NodesExtend(order, rules, limit, i + 1, next, n);
    }
  }

  // ---- counting --------------------------------------------------------------------------

  predicate DistinctChoices(choices: seq<Value>) {
    forall a, b :: 0 <= a < b < |choices| ==> choices[a] != choices[b]
  }

  lemma ChoicesDiffer(k: Kind, limit: nat)
    requires V.Sound(k) && Choices(k, limit).Some?
    ensures DistinctChoices(Choices(k, limit).value)
  {
  }

  lemma {:induction false} NodesAreCounted(order: seq<Param>, rules: Rules, limit: nat, i: nat, values: Point)
    requires Distinct(order) && V.AllSound(order) && i <= |order| && values.Keys <= Names(order[..i])
    ensures |Nodes(order, rules, limit, i, values)| == Explore(order, rules, limit, i, values).nodes
    decreases |order| - i, 0
  {
    if Feasible(rules, values) && i < |order| {
      var p := order[i];
      NextNotBefore(order, i);
      NamesGrow(order, i);
      assert p in order;
      if !Active(p, values) {
        NodesAreCounted(order, rules, limit, i + 1, values);
        OneMore(order, rules, limit, i, values, Nodes(order, rules, limit, i + 1, values));
      } else if Choices(p.kind, limit).Some? {
        var choices := Choices(p.kind, limit).value;
        ChoicesDiffer(p.kind, limit);
        NodesAllAreCounted(order, rules, limit, i + 1, values, p.name, choices);
        OneMore(order, rules, limit, i, values, NodesAll(order, rules, limit, i + 1, values, p.name, choices));
      }
    }
  }

  lemma OneMore(order: seq<Param>, rules: Rules, limit: nat, i: nat, values: Point, below: set<Node>)
    requires Distinct(order) && i < |order| && values.Keys <= Names(order[..i])
    requires (!Active(order[i], values) && below == Nodes(order, rules, limit, i + 1, values))
          || (Choices(order[i].kind, limit).Some?
              && below == NodesAll(order, rules, limit, i + 1, values, order[i].name, Choices(order[i].kind, limit).value))
    ensures |{Node(i, values)} + below| == 1 + |below|
  {
    var here := Node(i, values);
    var p := order[i];
    NextNotBefore(order, i);
    NamesGrow(order, i);
    hide Nodes, NodesAll, Active, Names, Choices, Distinct;
    if here in below {
      if below == Nodes(order, rules, limit, i + 1, values) {
        NodesExtend(order, rules, limit, i + 1, values, here);
      } else {
        var choices := Choices(p.kind, limit).value;
        NodesOfChoice(order, rules, limit, i + 1, values, p.name, choices, here);
        var k :| 0 <= k < |choices| && here in Nodes(order, rules, limit, i + 1, values[p.name := choices[k]]);
        NodesExtend(order, rules, limit, i + 1, values[p.name := choices[k]], here);
      }
      assert false;
    }
    assert {here} !! below;
  }

  lemma {:induction false} NodesAllAreCounted(order: seq<Param>, rules: Rules, limit: nat, i: nat, values: Point, name: string,
                                              choices: seq<Value>)
    requires Distinct(order) && V.AllSound(order) && 0 < i <= |order| && name == order[i - 1].name
    requires values.Keys <= Names(order[..i]) && name in Names(order[..i]) && DistinctChoices(choices)
    ensures |NodesAll(order, rules, limit, i, values, name, choices)|
         == ExploreAll(order, rules, limit, i, values, name, choices).nodes
    decreases |order| - i, 1, |choices|
  {
    if choices != [] {
      var n := |choices| - 1;
      NodesAllAreCounted(order, rules, limit, i, values, name, choices[..n]);
      NodesAreCounted(order, rules, limit, i, values[name := choices[n]]);
      ChoicesApart(order, rules, limit, i, values, name, choices);
      hide Distinct, V.AllSound, Names, Nodes, Explore, DistinctChoices;
    }
  }

  lemma ChoicesApart(order: seq<Param>, rules: Rules, limit: nat, i: nat, values: Point, name: string, choices: seq<Value>)
    requires Distinct(order) && i <= |order| && values.Keys <= Names(order[..i]) && name in Names(order[..i])
    requires choices != [] && DistinctChoices(choices)
    ensures NodesAll(order, rules, limit, i, values, name, choices[..|choices| - 1])
         !! Nodes(order, rules, limit, i, values[name := choices[|choices| - 1]])
  {
    var last := |choices| - 1;
    var front := choices[..last];
    hide Nodes, NodesAll, Names, Distinct;
    forall n | n in NodesAll(order, rules, limit, i, values, name, front)
      ensures n !in Nodes(order, rules, limit, i, values[name := choices[last]])
    {
      NodesOfChoice(order, rules, limit, i, values, name, front, n);
      var k :| 0 <= k < |front| && n in Nodes(order, rules, limit, i, values[name := front[k]]);
      NodesExtend(order, rules, limit, i, values[name := front[k]], n);
      assert n.values[name] == choices[k];
      if n in Nodes(order, rules, limit, i, values[name := choices[last]]) {
        NodesExtend(order, rules, limit, i, values[name := choices[last]], n);
        assert false;
      }
    }
  }

  // ---- membership --------------------------------------------------------------------------

  ghost predicate NodeFrom(order: seq<Param>, rules: Rules, i: nat, values: Point, n: Node)
    requires i <= |order|
  {
    && i <= n.depth <= |order| && V.Decided(order, n.depth, n.values)
    && Restrict(n.values, Names(order[..i])) == values
    && (n.depth > i ==> Feasible(rules, Restrict(n.values, Names(order[..n.depth - 1]))))
  }

  lemma RestrictAgain(order: seq<Param>, i: nat, j: nat, x: Point)
    requires i <= j <= |order|
    ensures Extends(Restrict(x, Names(order[..j])), Restrict(x, Names(order[..i])))
  {
    assert order[..i] <= order[..j];
    forall n | n in Names(order[..i]) ensures n in Names(order[..j]) {
      var p :| p in order[..i] && p.name == n;
      var k :| 0 <= k < i && order[..i][k] == p;
      assert order[..j][k] == p;
    }
  }

  // What follows a node: the values after the next parameter.
  lemma StepDown(order: seq<Param>, rules: Rules, i: nat, values: Point, n: Node)
    requires Distinct(order) && ControllersFirst(order) && i < |order| && n.depth > i
    requires NodeFrom(order, rules, i, values, n)
    ensures Feasible(rules, values)
    ensures var p := order[i];
            && (Active(p, values) <==> p.name in n.values)
            && (Active(p, values) ==> InDomain(p.kind, n.values[p.name])
                                      && NodeFrom(order, rules, i + 1, values[p.name := n.values[p.name]], n))
            && (!Active(p, values) ==> NodeFrom(order, rules, i + 1, values, n))
  {
    NodeFromIs(order, rules, i, values, n);
    hide *;
    var p := order[i];
    PartOfDecided(order, n.depth, n.values, i);
    RestrictAgain(order, i, n.depth - 1, n.values);
    FeasibleIsHereditary(rules, values, Restrict(n.values, Names(order[..n.depth - 1])));
    IsNodeFrom(order, rules, i + 1, if p.name in n.values then values[p.name := n.values[p.name]] else values, n);
  }

  lemma NodeFromIs(order: seq<Param>, rules: Rules, i: nat, values: Point, n: Node)
    requires i <= |order| && NodeFrom(order, rules, i, values, n)
    ensures i <= n.depth <= |order| && V.Decided(order, n.depth, n.values)
    ensures Restrict(n.values, Names(order[..i])) == values
    ensures n.depth > i ==> Feasible(rules, Restrict(n.values, Names(order[..n.depth - 1])))
  {
  }

  lemma IsNodeFrom(order: seq<Param>, rules: Rules, i: nat, values: Point, n: Node)
    requires i <= n.depth <= |order| && V.Decided(order, n.depth, n.values)
    requires Restrict(n.values, Names(order[..i])) == values
    requires n.depth > i ==> Feasible(rules, Restrict(n.values, Names(order[..n.depth - 1])))
    ensures NodeFrom(order, rules, i, values, n)
  {
  }

  lemma StepUp(order: seq<Param>, rules: Rules, i: nat, values: Point, next: Point, n: Node)
    requires Distinct(order) && i < |order| && values.Keys <= Names(order[..i]) && Feasible(rules, values)
    requires next == values || (order[i].name in next && next == values[order[i].name := next[order[i].name]])
    requires NodeFrom(order, rules, i + 1, next, n)
    ensures NodeFrom(order, rules, i, values, n)
  {
    NextNotBefore(order, i);
    NamesGrow(order, i);
    RestrictNext(order, i, n.values);
    hide Feasible, V.Decided, Distinct;
    V.SamePart(order, i, n.values, values, next);
  }

  lemma AtNode(order: seq<Param>, rules: Rules, i: nat, values: Point, n: Node)
    requires i <= |order| && V.Decided(order, i, values) && n.depth == i
    ensures NodeFrom(order, rules, i, values, n) <==> n == Node(i, values)
  {
    RestrictAll(order[..i], values);
    if NodeFrom(order, rules, i, values, n) { RestrictAll(order[..i], n.values); }
    hide Restrict, Names;
  }

  lemma {:induction false} NodesAreFrom(order: seq<Param>, rules: Rules, limit: nat, i: nat, values: Point, n: Node)
    requires Distinct(order) && ControllersFirst(order) && i <= |order| && V.Decided(order, i, values)
    requires !Explore(order, rules, limit, i, values).stuck
    ensures n in Nodes(order, rules, limit, i, values) <==> NodeFrom(order, rules, i, values, n)
    decreases |order| - i
  {
    hide NodeFrom;
    if n.depth == i { AtNode(order, rules, i, values, n); }
    if n.depth <= i || i == |order| {
      if n in Nodes(order, rules, limit, i, values) { NodesExtend(order, rules, limit, i, values, n); }
      NodeDepth(order, rules, i, values, n);
      if n.depth < i {
      } else if i < |order| {
        NotBelow(order, rules, limit, i, values, n);
      }
    } else {
      NodeDepth(order, rules, i, values, n);
      if NodeFrom(order, rules, i, values, n) { StepDown(order, rules, i, values, n); }
      if Feasible(rules, values) { Below(order, rules, limit, i, values, n); }
    }
  }

  lemma NodeDepth(order: seq<Param>, rules: Rules, i: nat, values: Point, n: Node)
    requires i <= |order|
    ensures NodeFrom(order, rules, i, values, n) ==> i <= n.depth <= |order|
  {
  }

  // A node at this depth is the node itself.
  lemma NotBelow(order: seq<Param>, rules: Rules, limit: nat, i: nat, values: Point, n: Node)
    requires Distinct(order) && i < |order| && V.Decided(order, i, values) && n.depth == i
    ensures n in Nodes(order, rules, limit, i, values) <==> n == Node(i, values)
  {
    DecidedKeys(order, i, values);
    HasItself(order, rules, limit, i, values);
    hide *;
    if n in Nodes(order, rules, limit, i, values) && n != Node(i, values) {
      var next := ChildOf(order, rules, limit, i, values, n);
      NodesExtend(order, rules, limit, i + 1, next, n);
    }
  }

  lemma DecidedKeys(order: seq<Param>, i: nat, values: Point)
    requires i <= |order| && V.Decided(order, i, values)
    ensures values.Keys <= Names(order[..i])
  {
  }

  lemma HasItself(order: seq<Param>, rules: Rules, limit: nat, i: nat, values: Point)
    requires i <= |order|
    ensures Node(i, values) in Nodes(order, rules, limit, i, values)
  {
    hide Feasible, Active, Choices;
  }

  lemma Below(order: seq<Param>, rules: Rules, limit: nat, i: nat, values: Point, n: Node)
    requires Distinct(order) && ControllersFirst(order) && i < |order| && V.Decided(order, i, values)
    requires Feasible(rules, values) && !Explore(order, rules, limit, i, values).stuck && n.depth > i
    ensures n in Nodes(order, rules, limit, i, values) <==> NodeFrom(order, rules, i, values, n)
    decreases |order| - i, 0
  {
    var p := order[i];
    if !Active(p, values) {
      V.DecideNext(order, i, values, values);
      NodesAreFrom(order, rules, limit, i + 1, values, n);
      if NodeFrom(order, rules, i, values, n) { StepDown(order, rules, i, values, n); }
      if NodeFrom(order, rules, i + 1, values, n) { StepUp(order, rules, i, values, values, n); }
    } else {
      var choices := Choices(p.kind, limit).value;
      NodesOfChoice(order, rules, limit, i + 1, values, p.name, choices, n);
      AllFound(order, rules, limit, i + 1, values, p.name, choices, map[]);
      forall k | 0 <= k < |choices|
        ensures n in Nodes(order, rules, limit, i + 1, values[p.name := choices[k]])
           <==> NodeFrom(order, rules, i + 1, values[p.name := choices[k]], n)
      {
        assert choices[k] in choices;
        V.DecideNext(order, i, values, values[p.name := choices[k]]);
        NodesAreFrom(order, rules, limit, i + 1, values[p.name := choices[k]], n);
      }
      if NodeFrom(order, rules, i, values, n) {
        StepDown(order, rules, i, values, n);
        assert n.values[p.name] in choices;
        var k :| 0 <= k < |choices| && choices[k] == n.values[p.name];
      }
      if k :| 0 <= k < |choices| && NodeFrom(order, rules, i + 1, values[p.name := choices[k]], n) {
        StepUp(order, rules, i, values, values[p.name := choices[k]], n);
      }
    }
  }

  // Main result: a walk that is not stuck visits as many nodes as there are choices for
  // the first parameters whose part without the last is feasible.
  lemma WalkVisits(params: seq<Param>, order: seq<Param>, rules: Rules, limit: nat) returns (nodes: set<Node>)
    requires Ordering(order, params) && V.AllSound(order) && !SpaceSurvey(order, rules, limit).stuck
    ensures SpaceSurvey(order, rules, limit).nodes == |nodes|
    ensures forall n :: n in nodes <==> Visited(order, rules, n)
  {
    nodes := Nodes(order, rules, limit, 0, map[]);
    assert order[..0] == [] && Names([]) == {};
    assert V.Decided(order, 0, map[]);
    NodesAreCounted(order, rules, limit, 0, map[]);
    hide Nodes, Explore, V.Decided, Feasible;
    forall n ensures n in nodes <==> Visited(order, rules, n) {
      NodesAreFrom(order, rules, limit, 0, map[], n);
      assert Restrict(n.values, {}) == map[];
    }
  }
}
