// What scores, rank keys and dominance mean, objective by objective and without
// the folds they are computed by.
module ScoreLaws {
  import opened Wrappers
  import opened Objectives
  import opened Pareto
  import R = Ranking

  // How far a value is from another in the direction that is worse.
  function Worse(o: Objective, from: real, to: real): real {
    match o.direction
    case Minimize => to - from
    case Maximize => from - to
  }

  lemma WeighIs(w: real, x: real, y: real)
    ensures Weigh(w, x) == Times(w, x)
    ensures Weigh(w, y) - Weigh(w, x) == Times(w, y - x)
  {
  }

  lemma {:induction false} DotDiffers(w: seq<real>, xs: seq<real>, ys: seq<real>, i: nat)
    requires |w| == |xs| == |ys| && i < |w|
    requires forall k :: 0 <= k < |w| && k != i ==> xs[k] == ys[k]
    ensures Dot(w, ys) - Dot(w, xs) == Weigh(w[i], ys[i]) - Weigh(w[i], xs[i])
    decreases |w|
  {
    hide Weigh;
    if i == 0 {
      assert xs[1..] == ys[1..];
    } else {
      DotDiffers(w[1..], xs[1..], ys[1..], i - 1);
    }
  }

  lemma {:induction false} DotOfZeros(w: seq<real>, xs: seq<real>)
    requires |w| == |xs| && forall k :: 0 <= k < |xs| ==> xs[k] == 0.0
    ensures Dot(w, xs) == 0.0
  {
    if xs != [] {
      WeighIs(w[0], 0.0, 0.0);
      hide Weigh;
      DotOfZeros(w[1..], xs[1..]);
    }
  }

  // From u to v the score grows by the weight of objective i times how much worse it gets.
  predicate GrowsWith(u: Vector, v: Vector, cfg: Config, i: nat)
    requires ValidConfig(cfg) && Canonical(u, cfg) && Canonical(v, cfg)
  {
    && i < |cfg.objectives| && cfg.policy.WeightedSum?
    && var o := cfg.objectives[i];
    && o.name in cfg.policy.weights && o.name in u && o.name in v
    && Scalarize(v, cfg) - Scalarize(u, cfg) == Times(cfg.policy.weights[o.name], Worse(o, u[o.name], v[o.name]))
  }

  // Main result: a weighted sum grows by the weight of an objective times how much
  // worse it gets, and is zero where every objective is. This decides every score.
  lemma WeightedSumIsLinear(u: Vector, v: Vector, cfg: Config, i: nat)
    requires ValidConfig(cfg) && cfg.policy.WeightedSum? && Canonical(u, cfg) && Canonical(v, cfg)
    requires i < |cfg.objectives| && cfg.objectives[i].name in v
    requires v == u[cfg.objectives[i].name := v[cfg.objectives[i].name]]
    ensures GrowsWith(u, v, cfg, i)
    ensures (forall n :: n in u ==> u[n] == 0.0) ==> Scalarize(u, cfg) == 0.0
  {
    hide *;
    SumScore(u, cfg);
    SumScore(v, cfg);
    var w, xs, ys := InOrder(cfg.policy.weights, cfg), LexKey(u, cfg), LexKey(v, cfg);
    KeyFacts(u, v, cfg, i);
    DotDiffers(w, xs, ys, i);
    WeighIs(w[i], xs[i], ys[i]);
    SumGrows(u, v, cfg, i);
    if forall n :: n in u ==> u[n] == 0.0 { DotOfZeros(w, xs); }
  }

  lemma SumScore(v: Vector, cfg: Config)
    requires ValidConfig(cfg) && cfg.policy.WeightedSum? && Canonical(v, cfg)
    ensures cfg.policy.weights.Keys == Names(cfg)
    ensures Scalarize(v, cfg) == Dot(InOrder(cfg.policy.weights, cfg), LexKey(v, cfg))
  {
    hide Dot, InOrder, LexKey, Names;
  }

  lemma SumGrows(u: Vector, v: Vector, cfg: Config, i: nat)
    requires ValidConfig(cfg) && cfg.policy.WeightedSum? && Canonical(u, cfg) && Canonical(v, cfg)
    requires i < |cfg.objectives| && cfg.objectives[i].name in u && cfg.objectives[i].name in v
    requires cfg.policy.weights.Keys == Names(cfg)
    requires Scalarize(v, cfg) - Scalarize(u, cfg)
          == Times(InOrder(cfg.policy.weights, cfg)[i],
                   Worse(cfg.objectives[i], u[cfg.objectives[i].name], v[cfg.objectives[i].name]))
    ensures GrowsWith(u, v, cfg, i)
  {
    hide Scalarize, LexKey, Times, Worse, ValidConfig, Canonical;
    assert cfg.objectives[i].name in Names(cfg);
  }

  lemma KeyFacts(u: Vector, v: Vector, cfg: Config, i: nat)
    requires ValidConfig(cfg) && Canonical(u, cfg) && Canonical(v, cfg) && i < |cfg.objectives|
    requires cfg.objectives[i].name in v && v == u[cfg.objectives[i].name := v[cfg.objectives[i].name]]
    ensures forall k :: 0 <= k < |cfg.objectives| && k != i ==> LexKey(u, cfg)[k] == LexKey(v, cfg)[k]
    ensures cfg.objectives[i].name in u
    ensures LexKey(v, cfg)[i] - LexKey(u, cfg)[i] == Worse(cfg.objectives[i], u[cfg.objectives[i].name], v[cfg.objectives[i].name])
    ensures (forall n :: n in u ==> u[n] == 0.0) ==> forall k :: 0 <= k < |cfg.objectives| ==> LexKey(u, cfg)[k] == 0.0
  {
    forall k | 0 <= k < |cfg.objectives| ensures cfg.objectives[k].name in u && cfg.objectives[k].name in v {
      assert cfg.objectives[k].name in Names(cfg);
    }
  }

  // The weighted distance of one objective from the reference, which is the origin
  // if none is given.
  function Distance(v: Vector, cfg: Config, o: Objective): real
    requires ValidConfig(cfg) && cfg.policy.WeightedTchebycheff? && Canonical(v, cfg) && o in cfg.objectives
  {
    assert o.name in Names(cfg);
    var r := if cfg.policy.reference.Some? then cfg.policy.reference.value[o.name] else 0.0;
    Times(cfg.policy.weights[o.name], if v[o.name] >= r then v[o.name] - r else r - v[o.name])
  }

  lemma {:induction false} FarthestIsGreatest(w: seq<real>, xs: seq<real>, refs: seq<real>) returns (k: nat)
    requires |w| == |xs| == |refs| > 0
    ensures k < |w| && Farthest(w, xs, refs) == Weigh(w[k], Abs(xs[k] - refs[k]))
    ensures forall i :: 0 <= i < |w| ==> Weigh(w[i], Abs(xs[i] - refs[i])) <= Farthest(w, xs, refs)
  {
    hide Weigh, Abs;
    k := 0;
    if |w| > 1 {
      var rest := FarthestIsGreatest(w[1..], xs[1..], refs[1..]);
      if Weigh(w[0], Abs(xs[0] - refs[0])) < Farthest(w[1..], xs[1..], refs[1..]) { k := rest + 1; }
      forall i | 0 <= i < |w| ensures Weigh(w[i], Abs(xs[i] - refs[i])) <= Farthest(w, xs, refs) {
        if i > 0 { assert w[1..][i - 1] == w[i] && xs[1..][i - 1] == xs[i] && refs[1..][i - 1] == refs[i]; }
      }
    }
  }

  ghost predicate IsGreatestDistance(score: real, v: Vector, cfg: Config)
    requires ValidConfig(cfg) && cfg.policy.WeightedTchebycheff? && Canonical(v, cfg)
  {
    && (forall o :: o in cfg.objectives ==> Distance(v, cfg, o) <= score)
    && exists o :: o in cfg.objectives && Distance(v, cfg, o) == score
  }

  // Main result: a Tchebycheff score is the greatest weighted distance.
  lemma TchebycheffIsGreatestDistance(v: Vector, cfg: Config)
    requires ValidConfig(cfg) && cfg.policy.WeightedTchebycheff? && Canonical(v, cfg)
    ensures IsGreatestDistance(Scalarize(v, cfg), v, cfg)
  {
    hide *;
    TchebycheffShape(cfg);
    var w, xs, refs := InOrder(cfg.policy.weights, cfg), LexKey(v, cfg), References(cfg.policy.reference, cfg);
    R.ScoreOf(v, cfg);
    var k := FarthestIsGreatest(w, xs, refs);
    forall i | 0 <= i < |cfg.objectives|
      ensures Distance(v, cfg, cfg.objectives[i]) == Weigh(w[i], Abs(xs[i] - refs[i]))
    {
      DistanceAt(v, cfg, i);
    }
    GreatestIs(Scalarize(v, cfg), v, cfg, k);
  }

  lemma TchebycheffShape(cfg: Config)
    requires ValidConfig(cfg) && cfg.policy.WeightedTchebycheff?
    ensures |cfg.objectives| > 0 && cfg.policy.weights.Keys == Names(cfg)
    ensures cfg.policy.reference.Some? ==> cfg.policy.reference.value.Keys == Names(cfg)
  {
    hide Names;
  }

  lemma GreatestIs(score: real, v: Vector, cfg: Config, k: nat)
    requires ValidConfig(cfg) && cfg.policy.WeightedTchebycheff? && Canonical(v, cfg) && k < |cfg.objectives|
    requires forall i :: 0 <= i < |cfg.objectives| ==> Distance(v, cfg, cfg.objectives[i]) <= score
    requires Distance(v, cfg, cfg.objectives[k]) == score
    ensures IsGreatestDistance(score, v, cfg)
  {
    hide Distance, ValidConfig, Canonical;
    assert cfg.objectives[k] in cfg.objectives;
    forall o | o in cfg.objectives ensures Distance(v, cfg, o) <= score {
      var i :| 0 <= i < |cfg.objectives| && cfg.objectives[i] == o;
    }
  }

  lemma DistanceAt(v: Vector, cfg: Config, i: nat)
    requires ValidConfig(cfg) && cfg.policy.WeightedTchebycheff? && Canonical(v, cfg) && i < |cfg.objectives|
    ensures Distance(v, cfg, cfg.objectives[i])
         == Weigh(InOrder(cfg.policy.weights, cfg)[i], Abs(LexKey(v, cfg)[i] - References(cfg.policy.reference, cfg)[i]))
  {
    var o := cfg.objectives[i];
    assert o.name in Names(cfg);
    ReferenceAt(cfg, i);
    var r := if cfg.policy.reference.Some? then cfg.policy.reference.value[o.name] else 0.0;
    var d := if v[o.name] >= r then v[o.name] - r else r - v[o.name];
    var x, ref := LexKey(v, cfg)[i], References(cfg.policy.reference, cfg)[i];
    assert Abs(x - ref) == d;
    WeighIs(InOrder(cfg.policy.weights, cfg)[i], d, d);
    hide Weigh, Times, References, LexKey, Abs;
  }

  lemma ReferenceAt(cfg: Config, i: nat)
    requires ValidConfig(cfg) && cfg.policy.WeightedTchebycheff? && i < |cfg.objectives|
    ensures cfg.objectives[i].name in Names(cfg)
    ensures References(cfg.policy.reference, cfg)[i] ==
            if cfg.policy.reference.None? then 0.0
            else Transformed(cfg.policy.reference.value[cfg.objectives[i].name], cfg.objectives[i].direction)
  {
  }

  // The other two policies score by the first objective alone.
  lemma PrimaryScore(v: Vector, cfg: Config)
    requires ValidConfig(cfg) && Canonical(v, cfg) && (cfg.policy.PrimaryOnly? || cfg.policy.Lexicographic?)
    ensures cfg.objectives[0].name in v && Scalarize(v, cfg) == v[cfg.objectives[0].name]
  {
    assert cfg.objectives[0].name in Names(cfg);
  }

  // ---- rank ---------------------------------------------------------------------------

  // The better score: lower, except where a single objective is maximized.
  predicate BetterScore(u: Vector, v: Vector, cfg: Config)
    requires ValidConfig(cfg) && Canonical(u, cfg) && Canonical(v, cfg)
  {
    if (cfg.policy.PrimaryOnly? || cfg.policy.Lexicographic?) && cfg.objectives[0].direction == Maximize
    then Scalarize(u, cfg) > Scalarize(v, cfg)
    else Scalarize(u, cfg) < Scalarize(v, cfg)
  }

  // Objective i is the first in which they differ, and u is better in it.
  predicate FirstBetter(u: Vector, v: Vector, cfg: Config, i: nat)
    requires Canonical(u, cfg) && Canonical(v, cfg)
  {
    && i < |cfg.objectives|
    && (forall o :: o in cfg.objectives ==> o.name in u && o.name in v)
    && (forall k :: 0 <= k < i ==> u[cfg.objectives[k].name] == v[cfg.objectives[k].name])
    && Worse(cfg.objectives[i], u[cfg.objectives[i].name], v[cfg.objectives[i].name]) > 0.0
  }

  lemma {:induction false} LexLessIsFirstDifference(a: seq<real>, b: seq<real>)
    requires |a| == |b|
    ensures LexLess(a, b) <==> exists i :: 0 <= i < |a| && a[..i] == b[..i] && a[i] < b[i]
  {
    if a != [] {
      LexLessIsFirstDifference(a[1..], b[1..]);
      if a[0] < b[0] { assert a[..0] == b[..0]; }
      if a[0] == b[0] && LexLess(a[1..], b[1..]) {
        var i :| 0 <= i < |a[1..]| && a[1..][..i] == b[1..][..i] && a[1..][i] < b[1..][i];
        assert a[..i + 1] == [a[0]] + a[1..][..i] && b[..i + 1] == [b[0]] + b[1..][..i];
        assert a[i + 1] < b[i + 1];
      }
      if i :| 0 <= i < |a| && a[..i] == b[..i] && a[i] < b[i] {
        if i > 0 {
          assert a[0] == a[..i][0] == b[..i][0] == b[0];
          assert a[1..][..i - 1] == a[..i][1..] && b[1..][..i - 1] == b[..i][1..];
          assert a[1..][i - 1] < b[1..][i - 1];
        }
      }
    }
  }

  // Main result: the better score ranks first; on equal scores the first objective
  // in which they differ decides, and on equal vectors the lower trial id.
  lemma RankIsByScoreThenObjectives(u: Vector, v: Vector, cfg: Config, s: int, t: int)
    requires ValidConfig(cfg) && Canonical(u, cfg) && Canonical(v, cfg)
    ensures KeyLess(BestRankKey(u, cfg, s), BestRankKey(v, cfg, t)) <==>
            || BetterScore(u, v, cfg)
            || (Scalarize(u, cfg) == Scalarize(v, cfg) && ((exists i :: FirstBetter(u, v, cfg, i)) || (u == v && s < t)))
  {
    var a, b := LexKey(u, cfg), LexKey(v, cfg);
    SameKeySameVector(u, v, cfg);
    FirstDifferenceDecides(u, v, cfg);
    ScoresDecide(u, v, cfg, s, t);
    hide *;
  }

  lemma ScoresDecide(u: Vector, v: Vector, cfg: Config, s: int, t: int)
    requires ValidConfig(cfg) && Canonical(u, cfg) && Canonical(v, cfg)
    ensures KeyLess(BestRankKey(u, cfg, s), BestRankKey(v, cfg, t)) <==>
            || BetterScore(u, v, cfg)
            || (Scalarize(u, cfg) == Scalarize(v, cfg)
                && (LexLess(LexKey(u, cfg), LexKey(v, cfg)) || (LexKey(u, cfg) == LexKey(v, cfg) && s < t)))
  {
    hide Scalarize, LexKey, LexLess;
  }

  lemma FirstDifferenceDecides(u: Vector, v: Vector, cfg: Config)
    requires Canonical(u, cfg) && Canonical(v, cfg)
    ensures LexLess(LexKey(u, cfg), LexKey(v, cfg)) <==> exists i :: FirstBetter(u, v, cfg, i)
  {
    var a, b := LexKey(u, cfg), LexKey(v, cfg);
    hide *;
    LexLessIsFirstDifference(a, b);
    if LexLess(a, b) {
      var i :| 0 <= i < |a| && a[..i] == b[..i] && a[i] < b[i];
      KeysDiffer(u, v, cfg, i);
    }
    if i :| FirstBetter(u, v, cfg, i) {
      FirstIsObjective(u, v, cfg, i);
      KeysDiffer(u, v, cfg, i);
    }
  }

  lemma FirstIsObjective(u: Vector, v: Vector, cfg: Config, i: nat)
    requires Canonical(u, cfg) && Canonical(v, cfg) && FirstBetter(u, v, cfg, i)
    ensures i < |cfg.objectives|
  {
  }

  lemma KeysDiffer(u: Vector, v: Vector, cfg: Config, i: nat)
    requires Canonical(u, cfg) && Canonical(v, cfg) && i < |cfg.objectives|
    ensures LexKey(u, cfg)[..i] == LexKey(v, cfg)[..i] && LexKey(u, cfg)[i] < LexKey(v, cfg)[i] <==> FirstBetter(u, v, cfg, i)
  {
    var a, b := LexKey(u, cfg), LexKey(v, cfg);
    forall o | o in cfg.objectives ensures o.name in u && o.name in v { assert o.name in Names(cfg); }
    forall k | 0 <= k < |cfg.objectives| ensures a[k] == b[k] <==> u[cfg.objectives[k].name] == v[cfg.objectives[k].name] {}
    if a[..i] == b[..i] {
      forall k | 0 <= k < i ensures a[k] == b[k] { assert a[..i][k] == b[..i][k]; }
    }
  }

  lemma SameKeySameVector(u: Vector, v: Vector, cfg: Config)
    requires Canonical(u, cfg) && Canonical(v, cfg)
    ensures LexKey(u, cfg) == LexKey(v, cfg) <==> u == v
  {
    if LexKey(u, cfg) == LexKey(v, cfg) {
      forall n | n in u ensures u[n] == v[n] {
        var o :| o in cfg.objectives && o.name == n;
        var i :| 0 <= i < |cfg.objectives| && cfg.objectives[i] == o;
        assert LexKey(u, cfg)[i] == LexKey(v, cfg)[i];
      }
    }
  }

  // ---- dominance -----------------------------------------------------------------------

  predicate NowhereWorse(u: Vector, v: Vector, cfg: Config) {
    forall o :: o in cfg.objectives ==> o.name in u && o.name in v && Worse(o, u[o.name], v[o.name]) >= 0.0
  }

  predicate SomewhereBetter(u: Vector, v: Vector, cfg: Config) {
    exists o :: o in cfg.objectives && o.name in u && o.name in v && Worse(o, u[o.name], v[o.name]) > 0.0
  }

  // Main result: a vector dominates another exactly if it is worse in no objective
  // and better in one.
  lemma DominatesMeansNowhereWorse(u: Vector, v: Vector, cfg: Config)
    requires Canonical(u, cfg) && Canonical(v, cfg)
    ensures Dominates(u, v, cfg) <==> NowhereWorse(u, v, cfg) && SomewhereBetter(u, v, cfg)
  {
    var a, b := LexKey(u, cfg), LexKey(v, cfg);
    NamesOfAll(u, v, cfg);
    forall i | 0 <= i < |cfg.objectives|
      ensures b[i] - a[i] == Worse(cfg.objectives[i], u[cfg.objectives[i].name], v[cfg.objectives[i].name])
    {
    }
    hide LexKey, Worse, Canonical;
    if Dominates(u, v, cfg) {
      forall o | o in cfg.objectives ensures Worse(o, u[o.name], v[o.name]) >= 0.0 {
        var i :| 0 <= i < |cfg.objectives| && cfg.objectives[i] == o;
        assert a[i] <= b[i];
      }
      var i :| 0 <= i < |a| && a[i] < b[i];
      assert cfg.objectives[i] in cfg.objectives;
    }
    if NowhereWorse(u, v, cfg) && SomewhereBetter(u, v, cfg) {
      forall i | 0 <= i < |a| ensures a[i] <= b[i] { assert cfg.objectives[i] in cfg.objectives; }
      var o :| o in cfg.objectives && o.name in u && o.name in v && Worse(o, u[o.name], v[o.name]) > 0.0;
      var i :| 0 <= i < |cfg.objectives| && cfg.objectives[i] == o;
      assert a[i] < b[i];
    }
  }

  lemma NamesOfAll(u: Vector, v: Vector, cfg: Config)
    requires Canonical(u, cfg) && Canonical(v, cfg)
    ensures forall o :: o in cfg.objectives ==> o.name in u && o.name in v
    ensures forall i :: 0 <= i < |cfg.objectives| ==> cfg.objectives[i].name in u && cfg.objectives[i].name in v
  {
    forall o | o in cfg.objectives ensures o.name in u && o.name in v { assert o.name in Names(cfg); }
  }
}
