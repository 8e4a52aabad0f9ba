// The best feasible record against the Pareto front, policy by policy.
module Ranking {
  import opened Wrappers
  import opened Objectives
  import opened Sorting
  import opened Pareto

  // ---- policies whose score never contradicts dominance -------------------------

  lemma {:induction false} DominatingKeyIsLexLess(a: seq<real>, b: seq<real>)
    requires |a| == |b| && LeqEverywhere(a, b) && exists i :: 0 <= i < |a| && a[i] < b[i]
    ensures LexLess(a, b)
  {
    if a[0] == b[0] {
      var i :| 0 <= i < |a| && a[i] < b[i];
      assert a[1..][i - 1] < b[1..][i - 1];
      DominatingKeyIsLexLess(a[1..], b[1..]);
    }
  }

  lemma {:induction false} DotMonotone(w: seq<real>, a: seq<real>, b: seq<real>)
    requires |w| == |a| == |b| && (forall i :: 0 <= i < |w| ==> w[i] > 0.0)
    requires LeqEverywhere(a, b)
    ensures Dot(w, a) <= Dot(w, b)
  {
    hide Weigh;
    if |a| > 0 {
      DotMonotone(w[1..], a[1..], b[1..]);
      WeighMonotone(w[0], a[0], b[0]);
    }
  }

  lemma WeighMonotone(w: real, x: real, y: real)
    requires w > 0.0
    ensures x <= y <==> Weigh(w, x) <= Weigh(w, y)
  {
    if x < y { assert w * (y - x) > 0.0; } else if y < x { assert w * (x - y) > 0.0; }
  }

  lemma WeightsPositive(w: map<string, real>, cfg: Config)
    requires PositiveWeights(w, cfg)
    ensures forall i :: 0 <= i < |cfg.objectives| ==> InOrder(w, cfg)[i] > 0.0
  {
    forall i | 0 <= i < |cfg.objectives| ensures InOrder(w, cfg)[i] > 0.0 {
      assert cfg.objectives[i].name in Names(cfg);
    }
  }

  // A dominating record outranks the dominated one whatever the trial ids are.
  lemma DominanceDecidesRank(a: Vector, b: Vector, cfg: Config, s: int, t: int)
    requires ValidConfig(cfg) && Canonical(a, cfg) && Canonical(b, cfg)
    requires Dominates(a, b, cfg)
    requires BestRankKey(a, cfg, s).scalar <= BestRankKey(b, cfg, t).scalar
    ensures KeyLess(BestRankKey(a, cfg, s), BestRankKey(b, cfg, t))
  {
    DominatingKeyIsLexLess(LexKey(a, cfg), LexKey(b, cfg));
  }

  lemma ScalarFollowsDominance(a: Vector, b: Vector, cfg: Config, s: int, t: int)
    requires ValidConfig(cfg) && Canonical(a, cfg) && Canonical(b, cfg)
    requires Dominates(a, b, cfg) && !cfg.policy.WeightedTchebycheff?
    ensures BestRankKey(a, cfg, s).scalar <= BestRankKey(b, cfg, t).scalar
    ensures KeyLess(BestRankKey(a, cfg, s), BestRankKey(b, cfg, t))
  {
    ScalarKeepsOrder(a, b, cfg);
    DominanceDecidesRank(a, b, cfg, s, t);
  }

  lemma ScalarKeepsOrder(a: Vector, b: Vector, cfg: Config)
    requires ValidConfig(cfg) && Canonical(a, cfg) && Canonical(b, cfg)
    requires Dominates(a, b, cfg) && !cfg.policy.WeightedTchebycheff?
    ensures forall s, t :: BestRankKey(a, cfg, s).scalar <= BestRankKey(b, cfg, t).scalar
  {
    if cfg.policy.WeightedSum? {
      WeightsPositive(cfg.policy.weights, cfg);
      DotMonotone(InOrder(cfg.policy.weights, cfg), LexKey(a, cfg), LexKey(b, cfg));
    } else {
      assert LexKey(a, cfg)[0] <= LexKey(b, cfg)[0];
    }
  }

  // ---- Tchebycheff: exactly when the score agrees with dominance -----------------

  function Behind(x: real, ref: real): real {
    if x > ref then x - ref else 0.0
  }

  // The farthest weighted distance, counting only objectives behind the reference.
  function FarthestBehind(weights: seq<real>, xs: seq<real>, refs: seq<real>): real
    requires |weights| == |xs| == |refs| > 0
  {
    var here := Weigh(weights[0], Behind(xs[0], refs[0]));
    if |xs| == 1 then here
    else
      var rest := FarthestBehind(weights[1..], xs[1..], refs[1..]);
      if here >= rest then here else rest
  }

  // Every weighted lead over the reference is at most some weighted lag behind it.
  ghost predicate LagsLead(w: seq<real>, xs: seq<real>, refs: seq<real>)
    requires |w| == |xs| == |refs|
  {
    forall i :: 0 <= i < |w| ==>
      exists j :: 0 <= j < |w| && Weigh(w[i], Behind(refs[i], xs[i])) <= Weigh(w[j], Behind(xs[j], refs[j]))
  }

  // No objective leads the reference by more than some objective lags behind it.
  ghost predicate Anchored(v: Vector, cfg: Config)
    requires ValidConfig(cfg) && Canonical(v, cfg) && cfg.policy.WeightedTchebycheff?
  {
    LagsLead(InOrder(cfg.policy.weights, cfg), LexKey(v, cfg), References(cfg.policy.reference, cfg))
  }

  // That is when the score is set by an objective that lags.
  lemma AnchoredScore(v: Vector, cfg: Config)
    requires ValidConfig(cfg) && Canonical(v, cfg) && cfg.policy.WeightedTchebycheff?
    ensures Anchored(v, cfg) <==>
            Scalarize(v, cfg) ==
            FarthestBehind(InOrder(cfg.policy.weights, cfg), LexKey(v, cfg), References(cfg.policy.reference, cfg))
  {
    var w, xs, refs := InOrder(cfg.policy.weights, cfg), LexKey(v, cfg), References(cfg.policy.reference, cfg);
    WeightsPositive(cfg.policy.weights, cfg);
    ScoreOf(v, cfg);
    hide *;
    LeadsAgainstLags(w, xs, refs);
    AnchoredIs(v, cfg);
  }

  lemma AnchoredIs(v: Vector, cfg: Config)
    requires ValidConfig(cfg) && Canonical(v, cfg) && cfg.policy.WeightedTchebycheff?
    ensures Anchored(v, cfg) <==>
            LagsLead(InOrder(cfg.policy.weights, cfg), LexKey(v, cfg), References(cfg.policy.reference, cfg))
  {
    hide LagsLead, InOrder, LexKey, References;
  }

  lemma ScoreOf(v: Vector, cfg: Config)
    requires ValidConfig(cfg) && Canonical(v, cfg) && cfg.policy.WeightedTchebycheff?
    ensures Scalarize(v, cfg) == Farthest(InOrder(cfg.policy.weights, cfg), LexKey(v, cfg), References(cfg.policy.reference, cfg))
  {
    hide Farthest, InOrder, LexKey, References;
  }

  lemma LeadsAgainstLags(w: seq<real>, xs: seq<real>, refs: seq<real>)
    requires |w| == |xs| == |refs| > 0 && (forall i :: 0 <= i < |w| ==> w[i] > 0.0)
    ensures LagsLead(w, xs, refs) <==> Farthest(w, xs, refs) == FarthestBehind(w, xs, refs)
  {
    BehindIsLower(w, xs, refs);
    var far := FarthestIsOne(w, xs, refs);
    var most := MostBehind(w, xs, refs);
    hide Farthest, FarthestBehind, Weigh, Behind;
    if LagsLead(w, xs, refs) {
      var j :| 0 <= j < |w| && Weigh(w[far], Behind(refs[far], xs[far])) <= Weigh(w[j], Behind(xs[j], refs[j]));
    }
  }

  lemma LeadOrLag(w: real, x: real, ref: real)
    requires w > 0.0
    ensures Weigh(w, Behind(ref, x)) <= Weigh(w, Abs(x - ref)) && Weigh(w, Behind(x, ref)) <= Weigh(w, Abs(x - ref))
    ensures Weigh(w, Abs(x - ref)) == Weigh(w, Behind(ref, x)) || Weigh(w, Abs(x - ref)) == Weigh(w, Behind(x, ref))
  {
    WeighMonotone(w, Behind(ref, x), Abs(x - ref));
    WeighMonotone(w, Behind(x, ref), Abs(x - ref));
    hide Weigh;
  }

  // The score is some objective's lead or lag, and none is greater.
  lemma {:induction false} FarthestIsOne(w: seq<real>, xs: seq<real>, refs: seq<real>) returns (k: nat)
    requires |w| == |xs| == |refs| > 0 && (forall i :: 0 <= i < |w| ==> w[i] > 0.0)
    ensures k < |w|
    ensures Farthest(w, xs, refs) == Weigh(w[k], Behind(refs[k], xs[k])) || Farthest(w, xs, refs) == Weigh(w[k], Behind(xs[k], refs[k]))
    ensures forall i :: 0 <= i < |w| ==> Weigh(w[i], Behind(refs[i], xs[i])) <= Farthest(w, xs, refs)
  {
    LeadOrLag(w[0], xs[0], refs[0]);
    hide Weigh, Behind, Abs;
    k := 0;
    if |w| > 1 {
      var rest := FarthestIsOne(w[1..], xs[1..], refs[1..]);
      if Weigh(w[0], Abs(xs[0] - refs[0])) < Farthest(w[1..], xs[1..], refs[1..]) { k := rest + 1; }
      forall i | 0 <= i < |w| ensures Weigh(w[i], Behind(refs[i], xs[i])) <= Farthest(w, xs, refs) {
        if i > 0 { assert w[1..][i - 1] == w[i] && xs[1..][i - 1] == xs[i] && refs[1..][i - 1] == refs[i]; }
      }
    }
  }

  lemma {:induction false} MostBehind(w: seq<real>, xs: seq<real>, refs: seq<real>) returns (k: nat)
    requires |w| == |xs| == |refs| > 0
    ensures k < |w| && FarthestBehind(w, xs, refs) == Weigh(w[k], Behind(xs[k], refs[k]))
    ensures forall i :: 0 <= i < |w| ==> Weigh(w[i], Behind(xs[i], refs[i])) <= FarthestBehind(w, xs, refs)
  {
    hide Weigh, Behind;
    k := 0;
    if |w| > 1 {
      var rest := MostBehind(w[1..], xs[1..], refs[1..]);
      if Weigh(w[0], Behind(xs[0], refs[0])) < FarthestBehind(w[1..], xs[1..], refs[1..]) { k := rest + 1; }
      forall i | 0 <= i < |w| ensures Weigh(w[i], Behind(xs[i], refs[i])) <= FarthestBehind(w, xs, refs) {
        if i > 0 { assert w[1..][i - 1] == w[i] && xs[1..][i - 1] == xs[i] && refs[1..][i - 1] == refs[i]; }
      }
    }
  }

  lemma {:induction false} BehindIsLower(w: seq<real>, xs: seq<real>, refs: seq<real>)
    requires |w| == |xs| == |refs| > 0 && (forall i :: 0 <= i < |w| ==> w[i] > 0.0)
    ensures FarthestBehind(w, xs, refs) <= Farthest(w, xs, refs)
  {
    hide Weigh;
    WeighMonotone(w[0], Behind(xs[0], refs[0]), Abs(xs[0] - refs[0]));
    if |xs| > 1 { BehindIsLower(w[1..], xs[1..], refs[1..]); }
  }

  lemma {:induction false} BehindMonotone(w: seq<real>, xs: seq<real>, ys: seq<real>, refs: seq<real>)
    requires |w| == |xs| == |ys| == |refs| > 0 && (forall i :: 0 <= i < |w| ==> w[i] > 0.0)
    requires LeqEverywhere(xs, ys)
    ensures FarthestBehind(w, xs, refs) <= FarthestBehind(w, ys, refs)
  {
    hide Weigh;
    WeighMonotone(w[0], Behind(xs[0], refs[0]), Behind(ys[0], refs[0]));
    if |xs| > 1 { BehindMonotone(w[1..], xs[1..], ys[1..], refs[1..]); }
  }

  // The record pulled back to the reference wherever it beats it.
  function Retreat(xs: seq<real>, refs: seq<real>): (r: seq<real>)
    requires |xs| == |refs|
    ensures |r| == |xs|
    ensures forall i :: 0 <= i < |r| ==> r[i] == if xs[i] < refs[i] then refs[i] else xs[i]
  {
    if |xs| == 0 then []
    else [if xs[0] < refs[0] then refs[0] else xs[0]] + Retreat(xs[1..], refs[1..])
  }

  lemma {:induction false} RetreatScore(w: seq<real>, xs: seq<real>, refs: seq<real>)
    requires |w| == |xs| == |refs| > 0
    ensures Farthest(w, Retreat(xs, refs), refs) == FarthestBehind(w, xs, refs)
  {
    hide Weigh;
    assert Abs(Retreat(xs, refs)[0] - refs[0]) == Behind(xs[0], refs[0]);
    if |xs| > 1 { RetreatScore(w[1..], xs[1..], refs[1..]); }
  }

  lemma {:induction false} NoneAheadIsBehind(w: seq<real>, xs: seq<real>, refs: seq<real>)
    requires |w| == |xs| == |refs| > 0
    requires forall i :: 0 <= i < |xs| ==> refs[i] <= xs[i]
    ensures Farthest(w, xs, refs) == FarthestBehind(w, xs, refs)
  {
    hide Weigh;
    assert Abs(xs[0] - refs[0]) == Behind(xs[0], refs[0]);
    if |xs| > 1 { NoneAheadIsBehind(w[1..], xs[1..], refs[1..]); }
  }

  // The vector with a given key: the objective transformation undone.
  ghost function VectorOf(key: seq<real>, cfg: Config): (v: Vector)
    requires |key| == |cfg.objectives|
    requires forall i, j :: 0 <= i < j < |cfg.objectives| ==> cfg.objectives[i].name != cfg.objectives[j].name
    ensures Canonical(v, cfg) && LexKey(v, cfg) == key
  {
    var v := map n | n in Names(cfg) :: Transformed(key[Place(cfg, n)], cfg.objectives[Place(cfg, n)].direction);
    KeyAgain(key, cfg, v);
    v
  }

  ghost function Place(cfg: Config, n: string): (i: nat)
    requires n in Names(cfg)
    ensures i < |cfg.objectives| && cfg.objectives[i].name == n
  {
    var i :| 0 <= i < |cfg.objectives| && cfg.objectives[i].name == n;
    i
  }

  lemma KeyAgain(key: seq<real>, cfg: Config, v: Vector)
    requires |key| == |cfg.objectives| && Canonical(v, cfg)
    requires forall i, j :: 0 <= i < j < |cfg.objectives| ==> cfg.objectives[i].name != cfg.objectives[j].name
    requires forall n :: n in v ==> v[n] == Transformed(key[Place(cfg, n)], cfg.objectives[Place(cfg, n)].direction)
    ensures LexKey(v, cfg) == key
  {
    forall i | 0 <= i < |key| ensures LexKey(v, cfg)[i] == key[i] {
      var n := cfg.objectives[i].name;
      assert n in Names(cfg) && Place(cfg, n) == i;
    }
  }

  ghost predicate OutranksDominated(v: Vector, cfg: Config)
    requires ValidConfig(cfg) && Canonical(v, cfg)
  {
    forall u, s, t :: Canonical(u, cfg) && Dominates(v, u, cfg)
      ==> KeyLess(BestRankKey(v, cfg, s), BestRankKey(u, cfg, t))
  }

  // Under Tchebycheff a record outranks everything it dominates if and only if
  // it is anchored.
  lemma TchebycheffExact(v: Vector, cfg: Config)
    requires ValidConfig(cfg) && Canonical(v, cfg) && cfg.policy.WeightedTchebycheff?
    ensures OutranksDominated(v, cfg) <==> Anchored(v, cfg)
  {
    if Anchored(v, cfg) {
      forall u, s, t | Canonical(u, cfg) && Dominates(v, u, cfg)
        ensures KeyLess(BestRankKey(v, cfg, s), BestRankKey(u, cfg, t))
      {
        AnchoredOutranks(v, u, cfg, s, t);
      }
    } else {
      var u := UnanchoredLoses(v, cfg);
      assert !KeyLess(BestRankKey(v, cfg, 0), BestRankKey(u, cfg, 0));
    }
  }

  lemma AnchoredOutranks(v: Vector, u: Vector, cfg: Config, s: int, t: int)
    requires ValidConfig(cfg) && Canonical(v, cfg) && Canonical(u, cfg) && cfg.policy.WeightedTchebycheff?
    requires Anchored(v, cfg) && Dominates(v, u, cfg)
    ensures KeyLess(BestRankKey(v, cfg, s), BestRankKey(u, cfg, t))
  {
    var w, refs := InOrder(cfg.policy.weights, cfg), References(cfg.policy.reference, cfg);
    WeightsPositive(cfg.policy.weights, cfg);
    AnchoredScore(v, cfg);
    BehindMonotone(w, LexKey(v, cfg), LexKey(u, cfg), refs);
    BehindIsLower(w, LexKey(u, cfg), refs);
    DominanceDecidesRank(v, u, cfg, s, t);
  }

  // A record whose score comes from beating the reference is outranked by a
  // record it dominates.
  lemma UnanchoredLoses(v: Vector, cfg: Config) returns (u: Vector)
    requires ValidConfig(cfg) && Canonical(v, cfg) && cfg.policy.WeightedTchebycheff?
    requires !Anchored(v, cfg)
    ensures Canonical(u, cfg) && Dominates(v, u, cfg)
    ensures forall s, t :: KeyLess(BestRankKey(u, cfg, t), BestRankKey(v, cfg, s))
    ensures !KeyLess(BestRankKey(v, cfg, 0), BestRankKey(u, cfg, 0))
  {
    hide Dominates, Retreat;
    var refs := References(cfg.policy.reference, cfg);
    u := VectorOf(Retreat(LexKey(v, cfg), refs), cfg);
    RetreatLowersScore(v, cfg, u);
    RetreatIsDominated(v, cfg, u);
  }

  lemma RetreatLowersScore(v: Vector, cfg: Config, u: Vector)
    requires ValidConfig(cfg) && Canonical(v, cfg) && cfg.policy.WeightedTchebycheff?
    requires !Anchored(v, cfg)
    requires Canonical(u, cfg) && LexKey(u, cfg) == Retreat(LexKey(v, cfg), References(cfg.policy.reference, cfg))
    ensures Scalarize(u, cfg) < Scalarize(v, cfg)
  {
    var w, xs, refs := InOrder(cfg.policy.weights, cfg), LexKey(v, cfg), References(cfg.policy.reference, cfg);
    WeightsPositive(cfg.policy.weights, cfg);
    AnchoredScore(v, cfg);
    BehindIsLower(w, xs, refs);
    RetreatScore(w, xs, refs);
  }

  lemma RetreatIsDominated(v: Vector, cfg: Config, u: Vector)
    requires ValidConfig(cfg) && Canonical(v, cfg) && cfg.policy.WeightedTchebycheff?
    requires !Anchored(v, cfg)
    requires Canonical(u, cfg) && LexKey(u, cfg) == Retreat(LexKey(v, cfg), References(cfg.policy.reference, cfg))
    ensures Dominates(v, u, cfg)
  {
    var i := SomeObjectiveAhead(v, cfg);
    hide *;
    RetreatAhead(LexKey(v, cfg), References(cfg.policy.reference, cfg), i);
    KeysDominate(v, u, cfg, i);
  }

  lemma RetreatAhead(xs: seq<real>, refs: seq<real>, i: nat)
    requires |xs| == |refs| && i < |xs| && xs[i] < refs[i]
    ensures LeqEverywhere(xs, Retreat(xs, refs)) && xs[i] < Retreat(xs, refs)[i]
  {
  }

  lemma KeysDominate(a: Vector, b: Vector, cfg: Config, i: nat)
    requires Canonical(a, cfg) && Canonical(b, cfg) && i < |cfg.objectives|
    requires LeqEverywhere(LexKey(a, cfg), LexKey(b, cfg)) && LexKey(a, cfg)[i] < LexKey(b, cfg)[i]
    ensures Dominates(a, b, cfg)
  {
  }

  lemma SomeObjectiveAhead(v: Vector, cfg: Config) returns (i: nat)
    requires ValidConfig(cfg) && Canonical(v, cfg) && cfg.policy.WeightedTchebycheff?
    requires !Anchored(v, cfg)
    ensures i < |cfg.objectives| && LexKey(v, cfg)[i] < References(cfg.policy.reference, cfg)[i]
  {
    AnchoredScore(v, cfg);
    hide Farthest, FarthestBehind, LexKey, Anchored;
    var xs, refs := LexKey(v, cfg), References(cfg.policy.reference, cfg);
    if forall k :: 0 <= k < |xs| ==> refs[k] <= xs[k] {
      NoneAheadIsBehind(InOrder(cfg.policy.weights, cfg), xs, refs);
      assert false;
    }
    i :| 0 <= i < |xs| && xs[i] < refs[i];
  }

  // ---- the best record heads the front --------------------------------------------

  // The record cannot be outranked by anything it dominates.
  ghost predicate Steady(r: Record, cfg: Config)
    requires ValidConfig(cfg) && Canonical(r.objectives, cfg)
  {
    !cfg.policy.WeightedTchebycheff? || Anchored(r.objectives, cfg)
  }

  lemma SteadyOutranks(a: Record, b: Record, cfg: Config)
    requires ValidConfig(cfg) && Canonical(a.objectives, cfg) && Steady(a, cfg) && Beats(a, b, cfg)
    ensures !RankAtMost(b, a, cfg)
  {
    if cfg.policy.WeightedTchebycheff? {
      AnchoredOutranks(a.objectives, b.objectives, cfg, a.trialId, b.trialId);
    } else {
      ScalarFollowsDominance(a.objectives, b.objectives, cfg, a.trialId, b.trialId);
    }
  }

  // Main result: when every record is steady - always, except under Tchebycheff -
  // the record min() picks is nondominated and heads the sorted front.
  lemma BestHeadsFront(records: seq<Record>, cfg: Config)
    requires ValidConfig(cfg) && AllCanonical(records, cfg) && records != []
    requires forall r :: r in records ==> Steady(r, cfg)
    ensures Nondominated(FirstMin(records, Rank(cfg)), records, cfg)
    ensures Front(records, cfg) != [] && Front(records, cfg)[0] == FirstMin(records, Rank(cfg))
  {
    var best := FirstMin(records, Rank(cfg));
    RankIsTotalPreorder(cfg);
    FirstMinIsLeast(records, Rank(cfg));
    forall o | o in records ensures !Beats(o, best, cfg) {
      assert RankAtMost(best, o, cfg) by { assert Rank(cfg)(best, o); }
      if Beats(o, best, cfg) { SteadyOutranks(o, best, cfg); }
    }
    FirstMinOfFilter(records, Rank(cfg), Keeps(records, cfg));
    HeadIsFirstMin(Filter(records, Keeps(records, cfg)), Rank(cfg));
  }

  // Under Tchebycheff the front's head and the best record really do part: any
  // unanchored record loses the front to a record it dominates.
  lemma UnanchoredPartsBestFromFront(v: Vector, cfg: Config) returns (u: Vector)
    requires ValidConfig(cfg) && Canonical(v, cfg) && cfg.policy.WeightedTchebycheff?
    requires !Anchored(v, cfg)
    ensures var records := [Record(1, v), Record(2, u)];
            && AllCanonical(records, cfg)
            && FirstMin(records, Rank(cfg)) == Record(2, u)
            && Record(2, u) !in Front(records, cfg)
            && Record(1, v) in Front(records, cfg)
  {
    u := UnanchoredLoses(v, cfg);
    PairFront(Record(1, v), Record(2, u), cfg);
  }

  lemma PairFront(a: Record, b: Record, cfg: Config)
    requires ValidConfig(cfg) && Canonical(a.objectives, cfg) && Canonical(b.objectives, cfg)
    requires Dominates(a.objectives, b.objectives, cfg) && !RankAtMost(a, b, cfg)
    ensures FirstMin([a, b], Rank(cfg)) == b
    ensures b !in Front([a, b], cfg) && a in Front([a, b], cfg)
  {
    hide Dominates, RankAtMost, Front, Canonical;
    var records := [a, b];
    assert records[1..] == [b] && a in records && b in records;
    FrontIsExact(records, cfg);
    DominanceIsStrictOrder(a.objectives, a.objectives, a.objectives, cfg);
    DominanceIsStrictOrder(a.objectives, b.objectives, a.objectives, cfg);
    assert Beats(a, b, cfg) && !Beats(a, a, cfg) && !Beats(b, a, cfg);
  }

  // One loss, compared with the default reference of zero.
  const ONE_LOSS := Config([Objective("loss", Minimize)], WeightedTchebycheff(map["loss" := 1.0], None), None)

  // Unanchored vectors exist: a negative loss is ahead of the reference, and the
  // smaller loss of two scores worse.
  lemma NegativeLossIsUnanchored()
    ensures var v, u: Vector := map["loss" := -1.0], map["loss" := -0.5];
            && ValidConfig(ONE_LOSS) && Canonical(v, ONE_LOSS) && Canonical(u, ONE_LOSS) && !Anchored(v, ONE_LOSS)
            && Dominates(v, u, ONE_LOSS) && Scalarize(u, ONE_LOSS) < Scalarize(v, ONE_LOSS)
  {
    var v, u: Vector := map["loss" := -1.0], map["loss" := -0.5];
    OneLoss(v);
    OneLoss(u);
    hide Scalarize, Anchored, LexKey, ValidConfig, Names;
    assert LexKey(v, ONE_LOSS)[0] < LexKey(u, ONE_LOSS)[0];
  }

  lemma OneLoss(v: Vector)
    requires v.Keys == {"loss"} && v["loss"] < 0.0
    ensures ValidConfig(ONE_LOSS) && Canonical(v, ONE_LOSS) && LexKey(v, ONE_LOSS) == [v["loss"]]
    ensures Scalarize(v, ONE_LOSS) == -v["loss"] && !Anchored(v, ONE_LOSS)
  {
    var cfg := ONE_LOSS;
    assert cfg.objectives[0] in cfg.objectives && Names(cfg) == {"loss"};
    assert LexKey(v, cfg) == [v["loss"]] && References(None, cfg) == [0.0] && InOrder(cfg.policy.weights, cfg) == [1.0];
    hide LexKey, References, InOrder, Names;
    OneScore(v["loss"]);
  }

  lemma OneScore(x: real)
    requires x < 0.0
    ensures Farthest([1.0], [x], [0.0]) == -x && !LagsLead([1.0], [x], [0.0])
  {
    assert Weigh(1.0, Behind(0.0, x)) == -x && Weigh(1.0, Behind(x, 0.0)) == 0.0 && Weigh(1.0, Abs(x - 0.0)) == -x;
    hide Weigh, Behind;
  }
}
