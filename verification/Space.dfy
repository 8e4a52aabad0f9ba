// Parameters, public points, and conditional activity (templates/_shared/search_space.py).
module Space {
  import opened Wrappers

  // A JSON scalar. Values are compared by their rendered text, which keeps 1, 1.0
  // and true apart, so equality of values is equality of renderings.
  datatype Value = Bool(b: bool) | Int(i: int) | Float(r: real) | Str(s: string)

  datatype Kind =
    | Categorical(choices: seq<Value>)
    | Boolean
    | Integer(lo: int, hi: int)
    | Continuous(low: real, high: real)

  const TOLERANCE: real := 0.000000000001

  // Finite numbers; booleans and strings are none.
  function Number(v: Value): Option<real> {
    match v
    case Int(i) => Some(i as real)
    case Float(r) => Some(r)
    case _ => None
  }

  // One entry of `when`: the parameter needs this controller at one of these values.
  datatype Condition = Condition(controller: string, allowed: seq<Value>)

  datatype Param = Param(name: string, kind: Kind, conditions: seq<Condition>)

  type Point = map<string, Value>

  function Names(params: seq<Param>): set<string> {
    set p | p in params :: p.name
  }

  predicate Distinct(params: seq<Param>) {
    forall i, j :: 0 <= i < j < |params| ==> params[i].name != params[j].name
  }

  // Every controller is declared and no parameter controls itself.
  predicate KnownControllers(params: seq<Param>) {
    forall p, c :: p in params && c in p.conditions ==> c.controller in Names(params) && c.controller != p.name
  }

  predicate Met(c: Condition, x: Point) {
    c.controller in x && x[c.controller] in c.allowed
  }

  // is_parameter_active.
  predicate Active(p: Param, x: Point) {
    forall c :: c in p.conditions ==> Met(c, x)
  }

  predicate InDomain(k: Kind, v: Value) {
    match k
    case Categorical(choices) => v in choices
    case Boolean => v.Bool?
    case Integer(lo, hi) => v.Int? && lo <= v.i <= hi
    case Continuous(low, high) => v.Float? && low <= v.r <= high
  }

  // A public point: exactly the active parameters, each with a value of its domain.
  predicate IsPoint(params: seq<Param>, x: Point) {
    && (forall p :: p in params ==> (p.name in x <==> Active(p, x)))
    && (forall p :: p in params && p.name in x ==> InDomain(p.kind, x[p.name]))
    && x.Keys <= Names(params)
  }

  // Every controller comes before the parameters it controls.
  predicate ControllersFirst(order: seq<Param>) {
    forall i, c :: 0 <= i < |order| && c in order[i].conditions ==> c.controller in Names(order[..i])
  }

  predicate Ordering(order: seq<Param>, params: seq<Param>) {
    && Distinct(order)
    && ControllersFirst(order)
    && (forall p :: p in order ==> p in params)
    && (forall p :: p in params ==> p in order)
  }

  lemma SameNames(order: seq<Param>, params: seq<Param>)
    requires forall p :: p in order <==> p in params
    ensures Names(order) == Names(params)
  {
  }

  lemma NextNotBefore(order: seq<Param>, i: nat)
    requires Distinct(order) && i < |order|
    ensures order[i].name !in Names(order[..i])
  {
  }

  // The part of a point that a prefix of the ordering decides.
  function Restrict(x: Point, names: set<string>): Point {
    map n | n in x && n in names :: x[n]
  }

  // Activity is decided by the parameters that come before.
  lemma ActivityIsDecided(order: seq<Param>, i: nat, x: Point)
    requires ControllersFirst(order) && i < |order|
    ensures Active(order[i], x) <==> Active(order[i], Restrict(x, Names(order[..i])))
  {
  }

  lemma RestrictNext(order: seq<Param>, i: nat, x: Point)
    requires i < |order|
    ensures Restrict(x, Names(order[..i + 1]))
         == if order[i].name in x then Restrict(x, Names(order[..i]))[order[i].name := x[order[i].name]]
            else Restrict(x, Names(order[..i]))
  {
    assert order[..i + 1] == order[..i] + [order[i]];
    assert Names(order[..i + 1]) == Names(order[..i]) + {order[i].name};
  }

  lemma RestrictAll(order: seq<Param>, x: Point)
    requires x.Keys <= Names(order)
    ensures Restrict(x, Names(order)) == x
  {
  }
}
