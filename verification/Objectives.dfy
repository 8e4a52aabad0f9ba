// Objective vectors, scalar scores and the rank key of templates/_shared/objectives.py.
module Objectives {
  import opened Wrappers

  datatype Direction = Minimize | Maximize
  datatype Objective = Objective(name: string, direction: Direction)

  datatype Policy =
    | PrimaryOnly
    | Lexicographic
    | WeightedSum(weights: map<string, real>)
    | WeightedTchebycheff(weights: map<string, real>, reference: Option<map<string, real>>)

  // objectives[0] is the primary objective.
  datatype Config = Config(objectives: seq<Objective>, policy: Policy, paretoReference: Option<map<string, real>>)

  type Vector = map<string, real>

  function Names(cfg: Config): set<string> {
    set o | o in cfg.objectives :: o.name
  }

  // What normalize_objective_schema guarantees of a configuration.
  predicate ValidConfig(cfg: Config) {
    && |cfg.objectives| > 0
    && (forall i, j :: 0 <= i < j < |cfg.objectives| ==> cfg.objectives[i].name != cfg.objectives[j].name)
    && (match cfg.policy
        case PrimaryOnly => true
        case Lexicographic => true
        case WeightedSum(w) => PositiveWeights(w, cfg)
        case WeightedTchebycheff(w, r) => PositiveWeights(w, cfg) && (r.Some? ==> r.value.Keys == Names(cfg)))
    && (cfg.paretoReference.Some? ==> cfg.paretoReference.value.Keys == Names(cfg))
  }

  predicate PositiveWeights(w: map<string, real>, cfg: Config) {
    w.Keys == Names(cfg) && forall n :: n in w ==> w[n] > 0.0
  }

  // canonical_objective_vector: exactly the configured names, or an error.
  function CanonicalVector(raw: Vector, cfg: Config): (r: Result<Vector>)
    ensures r.Ok? <==> raw.Keys == Names(cfg)
    ensures r.Ok? ==> r.value == raw
  {
    if !(Names(cfg) <= raw.Keys) then Err("objectives missing configured names")
    else if !(raw.Keys <= Names(cfg)) then Err("objectives include unknown names")
    else Ok(raw)
  }

  predicate Canonical(v: Vector, cfg: Config) {
    v.Keys == Names(cfg)
  }

  function Transformed(value: real, direction: Direction): real {
    if direction == Minimize then value else -value
  }

  // lexicographic_key: every objective turned into a quantity to minimize.
  function LexKey(v: Vector, cfg: Config): (r: seq<real>)
    requires Canonical(v, cfg)
    ensures |r| == |cfg.objectives|
    ensures forall i :: 0 <= i < |r| ==> r[i] == Transformed(v[cfg.objectives[i].name], cfg.objectives[i].direction)
  {
    seq(|cfg.objectives|, i requires 0 <= i < |cfg.objectives| =>
      assert cfg.objectives[i].name in Names(cfg);
      Transformed(v[cfg.objectives[i].name], cfg.objectives[i].direction))
  }

  function Weigh(weight: real, x: real): real {
    weight * x
  }

  function Dot(weights: seq<real>, xs: seq<real>): real
    requires |weights| == |xs|
  {
    if |xs| == 0 then 0.0 else Weigh(weights[0], xs[0]) + Dot(weights[1..], xs[1..])
  }

  function Abs(x: real): real {
    if x < 0.0 then -x else x
  }

  // max of the weighted distances to the reference.
  function Farthest(weights: seq<real>, xs: seq<real>, refs: seq<real>): real
    requires |weights| == |xs| == |refs| > 0
  {
    var here := Weigh(weights[0], Abs(xs[0] - refs[0]));
    if |xs| == 1 then here
    else
      var rest := Farthest(weights[1..], xs[1..], refs[1..]);
      if here >= rest then here else rest
  }

  function InOrder(m: map<string, real>, cfg: Config): (r: seq<real>)
    requires m.Keys == Names(cfg)
    ensures |r| == |cfg.objectives|
    ensures forall i :: 0 <= i < |r| ==> r[i] == m[cfg.objectives[i].name]
  {
    seq(|cfg.objectives|, i requires 0 <= i < |cfg.objectives| =>
      assert cfg.objectives[i].name in Names(cfg);
      m[cfg.objectives[i].name])
  }

  // The transformed reference point; a missing one is the origin.
  function References(reference: Option<map<string, real>>, cfg: Config): (r: seq<real>)
    requires reference.Some? ==> reference.value.Keys == Names(cfg)
    ensures |r| == |cfg.objectives|
  {
    if reference.Some? then LexKey(reference.value, cfg)
    else seq(|cfg.objectives|, i => 0.0)
  }

  // scalarize_objectives
  function Scalarize(v: Vector, cfg: Config): real
    requires ValidConfig(cfg) && Canonical(v, cfg)
  {
    assert cfg.objectives[0].name in Names(cfg);
    match cfg.policy
    case PrimaryOnly => v[cfg.objectives[0].name]
    case Lexicographic => v[cfg.objectives[0].name]
    case WeightedSum(w) => Dot(InOrder(w, cfg), LexKey(v, cfg))
    case WeightedTchebycheff(w, r) => Farthest(InOrder(w, cfg), LexKey(v, cfg), References(r, cfg))
  }

  // scalarized_direction
  function ScalarDirection(cfg: Config): Direction
    requires ValidConfig(cfg)
  {
    if cfg.policy.WeightedSum? || cfg.policy.WeightedTchebycheff? then Minimize
    else cfg.objectives[0].direction
  }

  datatype RankKey = RankKey(scalar: real, lex: seq<real>, trial: int)

  // best_rank_key: the tuple that ranks records, least first.
  function BestRankKey(v: Vector, cfg: Config, trial: int): RankKey
    requires ValidConfig(cfg) && Canonical(v, cfg)
  {
    var s := Scalarize(v, cfg);
    RankKey(if ScalarDirection(cfg) == Minimize then s else -s, LexKey(v, cfg), trial)
  }

  // ---- tuple comparison --------------------------------------------------------

  predicate LexLess(a: seq<real>, b: seq<real>) {
    if b == [] then false
    else if a == [] then true
    else a[0] < b[0] || (a[0] == b[0] && LexLess(a[1..], b[1..]))
  }

  predicate KeyLess(a: RankKey, b: RankKey) {
    || a.scalar < b.scalar
    || (a.scalar == b.scalar && (LexLess(a.lex, b.lex) || (a.lex == b.lex && a.trial < b.trial)))
  }

  predicate KeyAtMost(a: RankKey, b: RankKey) {
    !KeyLess(b, a)
  }

  lemma {:induction false} LexTotal(a: seq<real>, b: seq<real>)
    ensures !LexLess(a, a)
    ensures LexLess(a, b) || a == b || LexLess(b, a)
    ensures !(LexLess(a, b) && LexLess(b, a))
  {
    if a != [] && b != [] {
      LexTotal(a[1..], b[1..]);
      assert a == [a[0]] + a[1..] && b == [b[0]] + b[1..];
    } else if a != [] {
      LexTotal(a[1..], []);
    }
  }

  lemma {:induction false} LexTransitive(a: seq<real>, b: seq<real>, c: seq<real>)
    requires LexLess(a, b) && LexLess(b, c)
    ensures LexLess(a, c)
  {
    if a != [] && a[0] == b[0] == c[0] { LexTransitive(a[1..], b[1..], c[1..]); }
  }

  lemma KeysTotal(a: RankKey, b: RankKey)
    ensures KeyAtMost(a, b) || KeyAtMost(b, a)
  {
    LexTotal(a.lex, b.lex);
  }

  lemma KeysTransitive(a: RankKey, b: RankKey, c: RankKey)
    requires KeyAtMost(a, b) && KeyAtMost(b, c)
    ensures KeyAtMost(a, c)
  {
    LexTotal(a.lex, b.lex);
    LexTotal(b.lex, c.lex);
    LexTotal(a.lex, c.lex);
    if LexLess(a.lex, b.lex) && LexLess(b.lex, c.lex) { LexTransitive(a.lex, b.lex, c.lex); }
  }
}
