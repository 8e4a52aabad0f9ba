// The traversal as the program performs it, with marks, a stack and the list of
// ordered parameters updated in place.
module SpaceTraversal {
  import opened Wrappers
  import opened Space
  import opened SpaceOrder

  datatype WhenError =
    | UnknownController(dependent: string, controller: string)
    | SelfControl(dependent: string)
    | DependencyCycle(path: seq<string>)

  class Traversal {
    const params: seq<Param>
    var marks: map<string, Mark>
    var ordered: seq<Param>
    var stack: seq<string>

    constructor (params: seq<Param>)
      ensures this.params == params && State() == Visit(map[], []) && stack == []
    {
      this.params := params;
      marks, ordered, stack := map[], [], [];
    }

    function State(): Visit
      reads this
    {
      Visit(marks, ordered)
    }

    // The outcome of the functional traversal, as it shows in this object.
    predicate Shows(r: Outcome, cycle: Option<seq<string>>, before: seq<string>)
      reads this
    {
      match r
      case Walked(v) => cycle.None? && State() == v && stack == before
      case Cycle(path) => cycle == Some(path)
    }

    method VisitParam(name: string) returns (cycle: Option<seq<string>>)
      requires WellNamed(params) && name in Names(params)
      modifies this
      ensures Shows(VisitName(params, name, old(State()), old(stack)), cycle, old(stack))
      decreases |Unmarked(params, State())|, 0
    {
      if name in marks && marks[name] == Done { return None; }
      if name in marks {
        return Some((if name in stack then stack[Position(stack, name)..] else []) + [name]);
      }
      ghost var v, before := State(), stack;
      marks := marks[name := Open];
      stack := stack + [name];
      Shrinks(params, v, State(), name);
      var p := Lookup(params, name);
      cycle := VisitNames(Controllers(p));
      if cycle.Some? { return; }
      ordered := ordered + [p];
      stack := stack[..|stack| - 1];
      marks := marks[name := Done];
      assert (before + [name])[..|before|] == before;
    }

    method VisitNames(names: seq<string>) returns (cycle: Option<seq<string>>)
      requires WellNamed(params) && forall n :: n in names ==> n in Names(params)
      modifies this
      ensures Shows(VisitEach(params, names, old(State()), old(stack)), cycle, old(stack))
      decreases |Unmarked(params, State())|, 1
    {
      ghost var v, before := State(), stack;
      for i := 0 to |names|
        invariant stack == before && v.marks.Keys <= marks.Keys
        invariant VisitEach(params, names, v, before) == VisitEach(params, names[i..], State(), before)
      {
        NoGrowth(params, v, State());
        assert names[i..][0] == names[i] && names[i..][1..] == names[i + 1..];
        cycle := VisitParam(names[i]);
        if cycle.Some? { return; }
      }
      assert names[|names|..] == [];
      cycle := None;
    }
  }

  // _ordered_parameters, which runs after validation.
  method OrderedParameters(params: seq<Param>) returns (order: seq<Param>)
    requires WellNamed(params) && Ordered(params).Walked?
    ensures order == Ordered(params).visit.ordered
    ensures Ordering(order, params)
  {
    OrderedPromise(params);
    var t := new Traversal(params);
    var cycle := t.VisitNames(AllNames(params));
    order := t.ordered;
  }

  // _validate_when_dependencies
  method ValidateWhenDependencies(params: seq<Param>) returns (error: Option<WhenError>)
    requires Distinct(params)
    ensures error.None? <==> KnownControllers(params) && !exists path :: IsCycle(params, path)
    ensures error.None? ==> Ordered(params).Walked?
    ensures match error
            case Some(DependencyCycle(path)) => KnownControllers(params) && IsCycle(params, path)
            case _ => true
  {
    for i := 0 to |params|
      invariant forall k, c :: 0 <= k < i && c in params[k].conditions
                  ==> c.controller in Names(params) && c.controller != params[k].name
    {
      var p := params[i];
      for k := 0 to |p.conditions|
        invariant forall c :: c in p.conditions[..k] ==> c.controller in Names(params) && c.controller != p.name
      {
        var c := p.conditions[k].controller;
        assert p in params && p.conditions[k] in p.conditions;
        if c !in Names(params) { return Some(UnknownController(p.name, c)); }
        if c == p.name { return Some(SelfControl(p.name)); }
      }
      assert p.conditions[..|p.conditions|] == p.conditions;
    }
    assert KnownControllers(params);
    CycleIffRaises(params);
    OrderedPromise(params);
    var t := new Traversal(params);
    var cycle := t.VisitNames(AllNames(params));
    error := if cycle.Some? then Some(DependencyCycle(cycle.value)) else None;
  }
}
