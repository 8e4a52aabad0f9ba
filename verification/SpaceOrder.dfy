// Depth-first ordering of conditional parameters, and cycle detection.
module SpaceOrder {
  import opened Space

  datatype Mark = Open | Done

  datatype Visit = Visit(marks: map<string, Mark>, ordered: seq<Param>)

  datatype Outcome = Walked(visit: Visit) | Cycle(path: seq<string>)

  predicate WellNamed(params: seq<Param>) {
    Distinct(params) && KnownControllers(params)
  }

  function Lookup(params: seq<Param>, name: string): (p: Param)
    requires name in Names(params)
    ensures p in params && p.name == name
  {
    if params[|params| - 1].name == name then params[|params| - 1] else Lookup(params[..|params| - 1], name)
  }

  function Controllers(p: Param): seq<string> {
    seq(|p.conditions|, i requires 0 <= i < |p.conditions| => p.conditions[i].controller)
  }

  // name is controlled by controller
  predicate DependsOn(params: seq<Param>, name: string, controller: string) {
    name in Names(params) && controller in Controllers(Lookup(params, name))
  }

  predicate Chain(params: seq<Param>, path: seq<string>) {
    forall i :: 0 <= i < |path| - 1 ==> DependsOn(params, path[i], path[i + 1])
  }

  predicate IsCycle(params: seq<Param>, path: seq<string>) {
    |path| >= 2 && path[0] == path[|path| - 1] && Chain(params, path)
  }

  function Position(stack: seq<string>, name: string): (i: nat)
    requires name in stack
    ensures i < |stack| && stack[i] == name
  {
    if stack[0] == name then 0 else 1 + Position(stack[1..], name)
  }

  function Unmarked(params: seq<Param>, v: Visit): set<string> {
    Names(params) - v.marks.Keys
  }

  // visit(name), with the names being visited on the stack.
  function VisitName(params: seq<Param>, name: string, v: Visit, stack: seq<string>): (r: Outcome)
    requires WellNamed(params) && name in Names(params)
    ensures r.Walked? ==> v.marks.Keys <= r.visit.marks.Keys
    decreases |Unmarked(params, v)|, 0
  {
    if name in v.marks && v.marks[name] == Done then Walked(v)
    else if name in v.marks then Cycle((if name in stack then stack[Position(stack, name)..] else []) + [name])
    else
      var entered := v.(marks := v.marks[name := Open]);
      Shrinks(params, v, entered, name);
      var p := Lookup(params, name);
      var r := VisitEach(params, Controllers(p), entered, stack + [name]);
      if r.Cycle? then r
      else Walked(Visit(r.visit.marks[name := Done], r.visit.ordered + [p]))
  }

  function VisitEach(params: seq<Param>, names: seq<string>, v: Visit, stack: seq<string>): (r: Outcome)
    requires WellNamed(params) && forall n :: n in names ==> n in Names(params)
    ensures r.Walked? ==> v.marks.Keys <= r.visit.marks.Keys
    decreases |Unmarked(params, v)|, 1, |names|
  {
    if names == [] then Walked(v)
    else
      var r := VisitName(params, names[0], v, stack);
      if r.Cycle? then r
      else
        NoGrowth(params, v, r.visit);
        VisitEach(params, names[1..], r.visit, stack)
  }

  lemma Shrinks(params: seq<Param>, v: Visit, w: Visit, name: string)
    requires name in Names(params) && name !in v.marks && v.marks.Keys + {name} <= w.marks.Keys
    ensures |Unmarked(params, w)| < |Unmarked(params, v)|
  {
    Smaller(Unmarked(params, w), Unmarked(params, v) - {name});
  }

  lemma NoGrowth(params: seq<Param>, v: Visit, w: Visit)
    requires v.marks.Keys <= w.marks.Keys
    ensures |Unmarked(params, w)| <= |Unmarked(params, v)|
  {
    Smaller(Unmarked(params, w), Unmarked(params, v));
  }

  lemma {:induction false} Smaller(a: set<string>, b: set<string>)
    requires a <= b
    ensures |a| <= |b|
  {
    if a != {} {
      var x :| x in a;
      Smaller(a - {x}, b - {x});
    }
  }

  function AllNames(params: seq<Param>): seq<string> {
    seq(|params|, i requires 0 <= i < |params| => params[i].name)
  }

  // _ordered_parameters
  function Ordered(params: seq<Param>): Outcome
    requires WellNamed(params)
  {
    VisitEach(params, AllNames(params), Visit(map[], []), [])
  }

  // ---- what a traversal keeps -----------------------------------------------------------------

  ghost predicate DoneIs(v: Visit) {
    forall n :: (n in v.marks && v.marks[n] == Done) <==> n in Names(v.ordered)
  }

  ghost predicate OpenIs(v: Visit, stack: seq<string>) {
    forall n :: (n in v.marks && v.marks[n] == Open) <==> n in stack
  }

  ghost predicate Kept(params: seq<Param>, v: Visit, stack: seq<string>) {
    && v.marks.Keys <= Names(params)
    && DoneIs(v) && OpenIs(v, stack)
    && Distinct(v.ordered) && ControllersFirst(v.ordered)
    && (forall p :: p in v.ordered ==> p in params)
    && Chain(params, stack)
  }

  predicate Reaches(params: seq<Param>, stack: seq<string>, name: string) {
    stack != [] ==> DependsOn(params, stack[|stack| - 1], name)
  }

  // What visiting promises: either an actual cycle, or progress.
  ghost predicate Promise(params: seq<Param>, v: Visit, stack: seq<string>, r: Outcome) {
    match r
    case Cycle(path) => IsCycle(params, path)
    case Walked(w) => Kept(params, w, stack) && v.ordered <= w.ordered
  }

  lemma {:induction false} VisitNamePromise(params: seq<Param>, name: string, v: Visit, stack: seq<string>)
    requires WellNamed(params) && name in Names(params)
    requires Kept(params, v, stack) && Reaches(params, stack, name)
    ensures Promise(params, v, stack, VisitName(params, name, v, stack))
    ensures var r := VisitName(params, name, v, stack); r.Walked? ==> name in Names(r.visit.ordered)
    decreases |Unmarked(params, v)|, 0
  {
    MarkTells(params, name, v, stack);
    hide Kept, IsCycle, Chain, Reaches, WellNamed, Names, Lookup, Controllers, VisitEach;
    if name in v.marks && v.marks[name] == Done {
    } else if name in v.marks {
      CycleFound(params, stack, name);
    } else {
      var entered := v.(marks := v.marks[name := Open]);
      Shrinks(params, v, entered, name);
      var p := Lookup(params, name);
      Opening(params, name, v, stack);
      VisitEachPromise(params, Controllers(p), entered, stack + [name]);
      var r := VisitEach(params, Controllers(p), entered, stack + [name]);
      Left(params, name, v, stack, r);
    }
  }

  function Leaving(params: seq<Param>, name: string, r: Outcome): Outcome
    requires name in Names(params)
  {
    if r.Cycle? then r
    else Walked(Visit(r.visit.marks[name := Done], r.visit.ordered + [Lookup(params, name)]))
  }

  lemma Left(params: seq<Param>, name: string, v: Visit, stack: seq<string>, r: Outcome)
    requires WellNamed(params) && name in Names(params) && name !in stack
    requires Promise(params, v.(marks := v.marks[name := Open]), stack + [name], r)
    requires r.Walked? ==> forall c :: c in Controllers(Lookup(params, name)) ==> c in Names(r.visit.ordered)
    ensures Promise(params, v, stack, Leaving(params, name, r))
    ensures r.Walked? ==> name in Names(Leaving(params, name, r).visit.ordered)
  {
    hide Kept, IsCycle, Chain, WellNamed, Names, Lookup, Controllers;
    if r.Walked? { Closing(params, name, r.visit, stack); }
  }

  lemma MarkTells(params: seq<Param>, name: string, v: Visit, stack: seq<string>)
    requires Kept(params, v, stack)
    ensures Chain(params, stack)
    ensures name in v.marks && v.marks[name] == Done ==> name in Names(v.ordered)
    ensures name in v.marks && v.marks[name] == Open ==> name in stack
    ensures name !in v.marks ==> name !in stack
  {
  }

  lemma CycleFound(params: seq<Param>, stack: seq<string>, name: string)
    requires Chain(params, stack) && name in stack && Reaches(params, stack, name)
    ensures IsCycle(params, stack[Position(stack, name)..] + [name])
  {
    var i := Position(stack, name);
    var path := stack[i..] + [name];
    forall k | 0 <= k < |path| - 1 ensures DependsOn(params, path[k], path[k + 1]) {
      assert path[k] == stack[i + k];
    }
  }

  lemma Opening(params: seq<Param>, name: string, v: Visit, stack: seq<string>)
    requires WellNamed(params) && name in Names(params) && name !in v.marks
    requires Kept(params, v, stack) && Reaches(params, stack, name)
    ensures Kept(params, v.(marks := v.marks[name := Open]), stack + [name])
    ensures forall c :: c in Controllers(Lookup(params, name)) ==>
              c in Names(params) && Reaches(params, stack + [name], c)
  {
    hide Lookup, ControllersFirst, Distinct;
  }

  lemma Closing(params: seq<Param>, name: string, w: Visit, stack: seq<string>)
    requires WellNamed(params) && name in Names(params) && name !in stack
    requires Kept(params, w, stack + [name])
    requires forall c :: c in Controllers(Lookup(params, name)) ==> c in Names(w.ordered)
    ensures Kept(params, Visit(w.marks[name := Done], w.ordered + [Lookup(params, name)]), stack)
    ensures name in Names(w.ordered + [Lookup(params, name)])
  {
    var p := Lookup(params, name);
    var z := Visit(w.marks[name := Done], w.ordered + [p]);
    assert name in stack + [name];
    assert w.marks[name] == Open;
    assert Names(z.ordered) == Names(w.ordered) + {name};
    ClosingOrder(params, p, w.ordered);
    assert Chain(params, stack) by {
      assert forall i :: 0 <= i < |stack| ==> stack[i] == (stack + [name])[i];
    }
    hide ControllersFirst, Distinct, Chain, Lookup, Controllers;
  }

  lemma ClosingOrder(params: seq<Param>, p: Param, ordered: seq<Param>)
    requires Distinct(ordered) && ControllersFirst(ordered) && p.name !in Names(ordered)
    requires forall c :: c in Controllers(p) ==> c in Names(ordered)
    ensures Distinct(ordered + [p]) && ControllersFirst(ordered + [p])
  {
    var z := ordered + [p];
    forall i | 0 <= i < |ordered| ensures ordered[i].name != p.name { assert ordered[i] in ordered; }
    forall i, c | 0 <= i < |z| && c in z[i].conditions ensures c.controller in Names(z[..i]) {
      if i < |ordered| {
        assert z[..i] == ordered[..i];
      } else {
        assert z[..i] == ordered;
        var k :| 0 <= k < |p.conditions| && p.conditions[k] == c;
        assert Controllers(p)[k] == c.controller;
      }
    }
  }

  lemma {:induction false} VisitEachPromise(params: seq<Param>, names: seq<string>, v: Visit, stack: seq<string>)
    requires WellNamed(params) && Kept(params, v, stack)
    requires forall n :: n in names ==> n in Names(params) && Reaches(params, stack, n)
    ensures Promise(params, v, stack, VisitEach(params, names, v, stack))
    ensures var r := VisitEach(params, names, v, stack);
            r.Walked? ==> forall n :: n in names ==> n in Names(r.visit.ordered)
    decreases |Unmarked(params, v)|, 1, |names|
  {
    hide Kept, WellNamed, IsCycle, Reaches;
    if names != [] {
      VisitNamePromise(params, names[0], v, stack);
      var r := VisitName(params, names[0], v, stack);
      if r.Walked? {
        NoGrowth(params, v, r.visit);
        VisitEachPromise(params, names[1..], r.visit, stack);
      }
    }
  }

  // ---- both directions ----------------------------------------------------------------------------

  // Main result: the traversal either names an actual cycle, or returns every
  // parameter once, after all its controllers.
  lemma OrderedPromise(params: seq<Param>)
    requires WellNamed(params)
    ensures match Ordered(params)
            case Cycle(path) => IsCycle(params, path)
            case Walked(v) => Ordering(v.ordered, params)
  {
    var v0 := Visit(map[], []);
    assert Kept(params, v0, []);
    VisitEachPromise(params, AllNames(params), v0, []);
    match Ordered(params)
    case Cycle(_) =>
    case Walked(v) =>
      forall p | p in params ensures p in v.ordered {
        var i :| 0 <= i < |params| && params[i] == p;
        assert AllNames(params)[i] == p.name && p.name in AllNames(params);
        var q :| q in v.ordered && q.name == p.name;
        SameName(params, p, q);
      }
  }

  lemma SameName(params: seq<Param>, p: Param, q: Param)
    requires Distinct(params) && p in params && q in params && p.name == q.name
    ensures p == q
  {
    var i :| 0 <= i < |params| && params[i] == p;
    var j :| 0 <= j < |params| && params[j] == q;
  }

  // An ordering with controllers first leaves no room for a cycle.
  lemma OrderingHasNoCycle(params: seq<Param>, order: seq<Param>, path: seq<string>)
    requires WellNamed(params) && Ordering(order, params)
    ensures !IsCycle(params, path)
  {
    if IsCycle(params, path) {
      assert DependsOn(params, path[0], path[1]);
      PathDescends(params, order, path, |path| - 1);
    }
  }

  function Rank(order: seq<Param>, name: string): (i: nat)
    requires name in Names(order)
    ensures i < |order| && order[i].name == name
    ensures forall j :: 0 <= j < i ==> order[j].name != name
  {
    if order[0].name == name then 0 else 1 + Rank(order[1..], name)
  }

  lemma ControllerRank(params: seq<Param>, order: seq<Param>, name: string, controller: string)
    requires WellNamed(params) && Ordering(order, params) && DependsOn(params, name, controller)
    ensures name in Names(order) && controller in Names(order) && Rank(order, controller) < Rank(order, name)
  {
    SameNames(order, params);
    var p := Lookup(params, name);
    var i := Rank(order, name);
    SameName(params, p, order[i]);
    var k :| 0 <= k < |p.conditions| && Controllers(p)[k] == controller;
    assert p.conditions[k] in order[i].conditions;
    var q :| q in order[..i] && q.name == controller;
    var j :| 0 <= j < i && order[j] == q;
    assert order[j] in order;
  }

  lemma {:induction false} PathDescends(params: seq<Param>, order: seq<Param>, path: seq<string>, k: nat)
    requires WellNamed(params) && Ordering(order, params) && Chain(params, path) && 1 <= k < |path|
    ensures path[0] in Names(order) && path[k] in Names(order) && Rank(order, path[k]) < Rank(order, path[0])
  {
    hide Rank;
    assert DependsOn(params, path[k - 1], path[k]);
    ControllerRank(params, order, path[k - 1], path[k]);
    if k > 1 { PathDescends(params, order, path, k - 1); }
  }

  // Main result: ordering fails exactly when the `when` graph has a cycle.
  lemma CycleIffRaises(params: seq<Param>)
    requires WellNamed(params)
    ensures Ordered(params).Cycle? <==> exists path :: IsCycle(params, path)
  {
    OrderedPromise(params);
    match Ordered(params)
    case Cycle(_) =>
    case Walked(v) =>
      forall path ensures !IsCycle(params, path) { OrderingHasNoCycle(params, v.ordered, path); }
  }

  lemma DeclaredInOrder(params: seq<Param>)
    requires WellNamed(params) && ControllersFirst(params)
    ensures Ordered(params).Walked?
  {
    CycleIffRaises(params);
    if path :| IsCycle(params, path) { OrderingHasNoCycle(params, params, path); }
  }
}
