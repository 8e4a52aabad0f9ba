// Dominance and the Pareto front of templates/_shared/objectives.py.
module Pareto {
  import opened Wrappers
  import opened Objectives
  import opened Sorting
  import opened RealSets
  import opened Hypervolume
  import opened BoxAlgebra

  datatype Record = Record(trialId: int, objectives: Vector)

  predicate AllCanonical(records: seq<Record>, cfg: Config) {
    forall r :: r in records ==> Canonical(r.objectives, cfg)
  }

  // ---- dominance: a finite strict order --------------------------------------

  predicate LeqEverywhere(a: seq<real>, b: seq<real>)
    requires |a| == |b|
  {
    forall i :: 0 <= i < |a| ==> a[i] <= b[i]
  }

  // _dominates
  predicate Dominates(l: Vector, r: Vector, cfg: Config)
    requires Canonical(l, cfg) && Canonical(r, cfg)
  {
    && LeqEverywhere(LexKey(l, cfg), LexKey(r, cfg))
    && exists i :: 0 <= i < |LexKey(l, cfg)| && LexKey(l, cfg)[i] < LexKey(r, cfg)[i]
  }

  lemma DominanceIsStrictOrder(a: Vector, b: Vector, c: Vector, cfg: Config)
    requires Canonical(a, cfg) && Canonical(b, cfg) && Canonical(c, cfg)
    ensures !Dominates(a, a, cfg)
    ensures Dominates(a, b, cfg) && Dominates(b, c, cfg) ==> Dominates(a, c, cfg)
  {
    if Dominates(a, b, cfg) && Dominates(b, c, cfg) {
      var i :| 0 <= i < |LexKey(a, cfg)| && LexKey(a, cfg)[i] < LexKey(b, cfg)[i];
      assert LexKey(a, cfg)[i] < LexKey(c, cfg)[i];
    }
  }

  predicate Beats(o: Record, r: Record, cfg: Config) {
    Canonical(o.objectives, cfg) && Canonical(r.objectives, cfg) && Dominates(o.objectives, r.objectives, cfg)
  }

  predicate Nondominated(r: Record, records: seq<Record>, cfg: Config) {
    forall o :: o in records ==> !Beats(o, r, cfg)
  }

  ghost function Dominators(r: Record, records: seq<Record>, cfg: Config): set<Record> {
    set o | o in records && Beats(o, r, cfg)
  }

  // Every record is itself on the front or beaten by a record that is.
  lemma {:induction false} FrontDominator(r: Record, records: seq<Record>, cfg: Config) returns (f: Record)
    requires r in records && AllCanonical(records, cfg)
    ensures f in records && Nondominated(f, records, cfg)
    ensures f == r || Beats(f, r, cfg)
    decreases Dominators(r, records, cfg)
  {
    if Nondominated(r, records, cfg) {
      f := r;
    } else {
      var o :| o in records && Beats(o, r, cfg);
      forall x | x in Dominators(o, records, cfg) ensures x in Dominators(r, records, cfg) && x != o {
        DominanceIsStrictOrder(x.objectives, o.objectives, r.objectives, cfg);
        DominanceIsStrictOrder(o.objectives, o.objectives, o.objectives, cfg);
      }
      assert o in Dominators(r, records, cfg) && o !in Dominators(o, records, cfg);
      assert Dominators(o, records, cfg) < Dominators(r, records, cfg);
      f := FrontDominator(o, records, cfg);
      DominanceIsStrictOrder(f.objectives, o.objectives, r.objectives, cfg);
    }
  }

  // ---- rank order and the front ------------------------------------------------

  // Rank order on records; a record without a canonical vector ranks last.
  predicate RankAtMost(a: Record, b: Record, cfg: Config)
    requires ValidConfig(cfg)
  {
    !Canonical(b.objectives, cfg) ||
    (Canonical(a.objectives, cfg) &&
     KeyAtMost(BestRankKey(a.objectives, cfg, a.trialId), BestRankKey(b.objectives, cfg, b.trialId)))
  }

  function Rank(cfg: Config): (Record, Record) -> bool
    requires ValidConfig(cfg)
  {
    (a, b) => RankAtMost(a, b, cfg)
  }

  lemma RankIsTotalPreorder(cfg: Config)
    requires ValidConfig(cfg)
    ensures TotalPreorder(Rank(cfg))
  {
    forall a: Record, b: Record ensures Rank(cfg)(a, b) || Rank(cfg)(b, a) {
      if Canonical(a.objectives, cfg) && Canonical(b.objectives, cfg) {
        KeysTotal(BestRankKey(a.objectives, cfg, a.trialId), BestRankKey(b.objectives, cfg, b.trialId));
      }
    }
    forall a: Record, b: Record, c: Record | Rank(cfg)(a, b) && Rank(cfg)(b, c) ensures Rank(cfg)(a, c) {
      if Canonical(c.objectives, cfg) {
        KeysTransitive(BestRankKey(a.objectives, cfg, a.trialId), BestRankKey(b.objectives, cfg, b.trialId),
                       BestRankKey(c.objectives, cfg, c.trialId));
      }
    }
  }

  function Keeps(records: seq<Record>, cfg: Config): Record -> bool {
    r => Nondominated(r, records, cfg)
  }

  // pareto_front_records as a function of its input.
  function Front(records: seq<Record>, cfg: Config): seq<Record>
    requires ValidConfig(cfg)
  {
    Sort(Filter(records, Keeps(records, cfg)), Rank(cfg))
  }

  // Main result: the front is exactly the nondominated records, each as often as
  // it was observed, in rank order.
  lemma FrontIsExact(records: seq<Record>, cfg: Config)
    requires ValidConfig(cfg)
    ensures multiset(Front(records, cfg)) == multiset(Filter(records, Keeps(records, cfg)))
    ensures forall r :: r in Front(records, cfg) <==> r in records && Nondominated(r, records, cfg)
    ensures SortedBy(Front(records, cfg), Rank(cfg))
  {
    var kept := Filter(records, Keeps(records, cfg));
    FilterMembers(records, Keeps(records, cfg));
    SortPermutes(kept, Rank(cfg));
    SameMembers(Front(records, cfg), kept);
    RankIsTotalPreorder(cfg);
    SortSorts(kept, Rank(cfg));
  }

  // The validation loop of pareto_front_records.
  method CheckVectors(records: seq<Record>, cfg: Config) returns (checked: Result<()>)
    ensures checked.Ok? <==> AllCanonical(records, cfg)
  {
    for i := 0 to |records|
      invariant AllCanonical(records[..i], cfg)
    {
      var vector := CanonicalVector(records[i].objectives, cfg);
      if vector.Err? {
        assert records[i] in records;
        return Err(vector.error);
      }
    }
    assert records[..|records|] == records;
    checked := Ok(());
  }

  // any(_dominates(other, vector) for every other index)
  method IsDominated(records: seq<Record>, index: nat, cfg: Config) returns (dominated: bool)
    requires AllCanonical(records, cfg) && index < |records|
    ensures dominated <==> !Nondominated(records[index], records, cfg)
  {
    var vector := records[index].objectives;
    DominanceIsStrictOrder(vector, vector, vector, cfg);
    dominated := false;
    for j := 0 to |records|
      invariant dominated <==> exists k :: 0 <= k < j && Beats(records[k], records[index], cfg)
    {
      if j != index && Dominates(records[j].objectives, vector, cfg) {
        dominated := true;
      }
    }
  }

  // pareto_front_records
  method ParetoFrontRecords(records: seq<Record>, cfg: Config) returns (front: Result<seq<Record>>)
    requires ValidConfig(cfg)
    ensures front.Ok? <==> AllCanonical(records, cfg)
    ensures front.Ok? ==> front.value == Front(records, cfg)
  {
    var checked := CheckVectors(records, cfg);
    if checked.Err? {
      return Err(checked.error);
    }
    var frontier: seq<Record> := [];
    for i := 0 to |records|
      invariant frontier == Filter(records[..i], Keeps(records, cfg))
    {
      var dominated := IsDominated(records, i, cfg);
      FilterStep(records, i, Keeps(records, cfg));
      if !dominated {
        frontier := frontier + [records[i]];
      }
    }
    assert records[..|records|] == records;
    front := Ok(Sort(frontier, Rank(cfg)));
  }
}
