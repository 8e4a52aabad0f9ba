// feasible_hypervolume and outcome_summary of objectives.py.
module Outcomes {
  import opened Wrappers
  import opened Objectives
  import opened Sorting
  import opened RealSets
  import opened Hypervolume
  import opened BoxAlgebra
  import opened Pareto
  import opened Ranking

  // The box widths of one vector: how far it lies inside the reference.
  function Widths(v: Vector, reference: Vector, cfg: Config): (r: Box)
    requires Canonical(v, cfg) && Canonical(reference, cfg)
    ensures |r| == |cfg.objectives|
  {
    seq(|cfg.objectives|, i requires 0 <= i < |cfg.objectives| =>
      var o := cfg.objectives[i];
      assert o.name in Names(cfg);
      if o.direction == Minimize then reference[o.name] - v[o.name] else v[o.name] - reference[o.name])
  }

  predicate Positive(b: Box) {
    forall i :: 0 <= i < |b| ==> b[i] > 0.0
  }

  function WidthBoxes(records: seq<Record>, reference: Vector, cfg: Config): (boxes: set<Box>)
    requires AllCanonical(records, cfg) && Canonical(reference, cfg)
    ensures WellFormed(boxes, |cfg.objectives|)
  {
    set r | r in records && Positive(Widths(r.objectives, reference, cfg)) :: Widths(r.objectives, reference, cfg)
  }

  // feasible_hypervolume as a function of its input.
  function HypervolumeOf(records: seq<Record>, cfg: Config): Option<real>
    requires ValidConfig(cfg) && AllCanonical(records, cfg)
  {
    if cfg.paretoReference.None? then None
    else Some(Union(WidthBoxes(records, cfg.paretoReference.value, cfg), |cfg.objectives|))
  }

  // feasible_hypervolume: fill the set of boxes, then measure their union.
  method FeasibleHypervolume(records: seq<Record>, cfg: Config) returns (volume: Result<Option<real>>)
    requires ValidConfig(cfg)
    ensures volume.Ok? <==> (cfg.paretoReference.None? || AllCanonical(records, cfg))
    ensures volume.Ok? && AllCanonical(records, cfg) ==> volume.value == HypervolumeOf(records, cfg)
    ensures volume.Ok? && cfg.paretoReference.None? ==> volume.value == None
  {
    if cfg.paretoReference.None? {
      return Ok(None);
    }
    var reference := cfg.paretoReference.value;
    var points: set<Box> := {};
    for i := 0 to |records|
      invariant AllCanonical(records[..i], cfg)
      invariant points == WidthBoxes(records[..i], reference, cfg)
    {
      var vector := CanonicalVector(records[i].objectives, cfg);
      if vector.Err? {
        assert records[i] in records;
        return Err(vector.error);
      }
      var widths := Widths(vector.value, reference, cfg);
      assert records[..i + 1] == records[..i] + [records[i]];
      if Positive(widths) {
        points := points + {widths};
      }
    }
    assert records[..|records|] == records;
    volume := Ok(Some(Union(points, |cfg.objectives|)));
  }

  lemma DominatorIsWider(a: Record, b: Record, reference: Vector, cfg: Config)
    requires Canonical(reference, cfg) && Beats(a, b, cfg)
    ensures Within(Widths(b.objectives, reference, cfg), Widths(a.objectives, reference, cfg))
  {
    forall i | 0 <= i < |cfg.objectives|
      ensures Widths(b.objectives, reference, cfg)[i] <= Widths(a.objectives, reference, cfg)[i]
    {
      assert LexKey(a.objectives, cfg)[i] <= LexKey(b.objectives, cfg)[i];
    }
  }

  lemma FrontCovers(records: seq<Record>, r: Record, reference: Vector, cfg: Config)
    requires ValidConfig(cfg) && AllCanonical(records, cfg) && Canonical(reference, cfg)
    requires AllCanonical(Front(records, cfg), cfg)
    requires r in records && Positive(Widths(r.objectives, reference, cfg))
    ensures CoveredBy(Widths(r.objectives, reference, cfg), WidthBoxes(Front(records, cfg), reference, cfg))
  {
    hide LexKey, Dominates, Front;
    FrontIsExact(records, cfg);
    var f := FrontDominator(r, records, cfg);
    if f != r { DominatorIsWider(f, r, reference, cfg); }
    var w := Widths(f.objectives, reference, cfg);
    assert f in Front(records, cfg) && Within(Widths(r.objectives, reference, cfg), w);
  }

  // Main result: the front alone has the hypervolume of all the records, with
  // duplicate vectors and records outside the reference included.
  lemma FrontKeepsHypervolume(records: seq<Record>, cfg: Config)
    requires ValidConfig(cfg) && AllCanonical(records, cfg)
    ensures AllCanonical(Front(records, cfg), cfg)
    ensures HypervolumeOf(Front(records, cfg), cfg) == HypervolumeOf(records, cfg)
  {
    hide Front, Widths, Union;
    FrontIsExact(records, cfg);
    if cfg.paretoReference.Some? {
      var reference := cfg.paretoReference.value;
      var all, kept := WidthBoxes(records, reference, cfg), WidthBoxes(Front(records, cfg), reference, cfg);
      forall b | b in all ensures CoveredBy(b, kept) {
        var r :| r in records && Positive(Widths(r.objectives, reference, cfg)) && b == Widths(r.objectives, reference, cfg);
        FrontCovers(records, r, reference, cfg);
      }
      assert kept <= all;
      CoveringSubset(all, kept, |cfg.objectives|);
    }
  }

  // ---- outcome_summary ----------------------------------------------------------

  datatype Constraint = Constraint(metric: string, atMost: bool, bound: real)

  // A trial row: measured says that normalize_measurements accepts its fields.
  datatype Row = Row(record: Record, status: string, measured: bool, measurements: map<string, real>)

  predicate Known(row: Row, cfg: Config) {
    row.status == "ok" && row.measured && Canonical(row.record.objectives, cfg)
  }

  predicate Satisfied(row: Row, c: Constraint) {
    c.metric in row.measurements &&
    if c.atMost then row.measurements[c.metric] <= c.bound else row.measurements[c.metric] >= c.bound
  }

  // Whether an outcome is feasible; a failed or malformed one is neither.
  predicate Feasible(row: Row, constraints: seq<Constraint>, cfg: Config) {
    Known(row, cfg) && forall c :: c in constraints ==> Satisfied(row, c)
  }

  function Eligible(rows: seq<Row>, constraints: seq<Constraint>, cfg: Config): seq<Record> {
    if rows == [] then []
    else (if Feasible(rows[0], constraints, cfg) then [rows[0].record] else [])
         + Eligible(rows[1..], constraints, cfg)
  }

  lemma {:induction false} EligibleAppends(a: seq<Row>, b: seq<Row>, constraints: seq<Constraint>, cfg: Config)
    ensures Eligible(a + b, constraints, cfg) == Eligible(a, constraints, cfg) + Eligible(b, constraints, cfg)
  {
    if a == [] {
      assert a + b == b;
    } else {
      EligibleAppends(a[1..], b, constraints, cfg);
      assert (a + b)[0] == a[0] && (a + b)[1..] == a[1..] + b;
      var h := if Feasible(a[0], constraints, cfg) then [a[0].record] else [];
      Associative(h, Eligible(a[1..], constraints, cfg), Eligible(b, constraints, cfg));
    }
  }

  lemma {:induction false} EligibleCanonical(rows: seq<Row>, constraints: seq<Constraint>, cfg: Config)
    ensures AllCanonical(Eligible(rows, constraints, cfg), cfg)
  {
    if rows != [] { EligibleCanonical(rows[1..], constraints, cfg); }
  }

  // One constraint of one row; None where the metric is not known.
  datatype Check = Check(measurement: Option<real>, satisfied: Option<bool>, violation: Option<real>)

  // The reported status of one row.
  datatype RowStatus = RowStatus(trialId: int, status: string, feasible: Option<bool>, checks: seq<Check>)

  function CheckOf(row: Row, c: Constraint, known: bool): Check {
    if !known || c.metric !in row.measurements then Check(None, None, None)
    else
      var value := row.measurements[c.metric];
      var excess := if c.atMost then value - c.bound else c.bound - value;
      Check(Some(value), Some(if c.atMost then value <= c.bound else value >= c.bound),
            Some(if excess > 0.0 then excess else 0.0))
  }

  function ChecksOf(row: Row, constraints: seq<Constraint>, known: bool): (r: seq<Check>)
    ensures |r| == |constraints| && forall i :: 0 <= i < |r| ==> r[i] == CheckOf(row, constraints[i], known)
  {
    seq(|constraints|, i requires 0 <= i < |constraints| => CheckOf(row, constraints[i], known))
  }

  predicate StatusIs(s: RowStatus, row: Row, constraints: seq<Constraint>, cfg: Config) {
    && s.trialId == row.record.trialId && s.status == row.status
    && s.feasible == (if Known(row, cfg) then Some(Feasible(row, constraints, cfg)) else None)
    && s.checks == ChecksOf(row, constraints, Known(row, cfg))
  }

  // Main result: a row is reported feasible exactly if it is known and no reported
  // violation is missing or positive, and infeasible exactly if it is known and one is.
  lemma FeasibleMeansNoViolation(s: RowStatus, row: Row, constraints: seq<Constraint>, cfg: Config)
    requires StatusIs(s, row, constraints, cfg)
    ensures s.feasible == Some(true) <==> Known(row, cfg) && forall c :: c in s.checks ==> c.violation == Some(0.0)
    ensures s.feasible == Some(false) <==> Known(row, cfg) && exists c :: c in s.checks && c.violation != Some(0.0)
  {
    hide Known;
    if Known(row, cfg) {
      forall i | 0 <= i < |constraints|
        ensures s.checks[i].violation == Some(0.0) <==> Satisfied(row, constraints[i])
      {
      }
      if Feasible(row, constraints, cfg) {
        forall c | c in s.checks ensures c.violation == Some(0.0) {
          var i :| 0 <= i < |s.checks| && s.checks[i] == c;
        }
      } else {
        var c :| c in constraints && !Satisfied(row, c);
        var i :| 0 <= i < |constraints| && constraints[i] == c;
        assert s.checks[i] in s.checks;
      }
    }
  }

  datatype Summary = Summary(
    best: Option<Record>, feasible: nat, infeasible: nat, unknown: nat,
    statuses: seq<RowStatus>, front: seq<Record>, hypervolume: Option<real>)

  // The status of one row: feasible holds only when every check does.
  method Classify(row: Row, constraints: seq<Constraint>, cfg: Config) returns (s: RowStatus)
    ensures StatusIs(s, row, constraints, cfg)
  {
    var known := Known(row, cfg);
    var checks: seq<Check> := [];
    var all := true;
    for i := 0 to |constraints|
      invariant |checks| == i && forall k :: 0 <= k < i ==> checks[k] == CheckOf(row, constraints[k], known)
      invariant all <==> forall k :: 0 <= k < i ==> checks[k].satisfied == Some(true)
    {
      var check := CheckOf(row, constraints[i], known);
      all := all && check.satisfied == Some(true);
      checks := checks + [check];
    }
    assert known ==> forall k :: 0 <= k < |constraints| ==>
      (Satisfied(row, constraints[k]) <==> checks[k].satisfied == Some(true));
    s := RowStatus(row.record.trialId, row.status, if known then Some(all) else None, checks);
  }

  // Main result: the report is consistent. Every row is counted once, the front
  // and its hypervolume are those of all feasible records, and the best record
  // heads the front whenever every feasible record is steady.
  method OutcomeSummary(rows: seq<Row>, constraints: seq<Constraint>, cfg: Config) returns (s: Summary)
    requires ValidConfig(cfg)
    ensures s.feasible + s.infeasible + s.unknown == |rows| == |s.statuses|
    ensures forall i :: 0 <= i < |rows| ==> StatusIs(s.statuses[i], rows[i], constraints, cfg)
    ensures s.feasible == |Eligible(rows, constraints, cfg)|
    ensures s.unknown == |Filter(rows, (r: Row) => !Known(r, cfg))|
    ensures s.front == Front(Eligible(rows, constraints, cfg), cfg)
    ensures AllCanonical(Eligible(rows, constraints, cfg), cfg)
    ensures s.hypervolume == HypervolumeOf(Eligible(rows, constraints, cfg), cfg)
    ensures s.best.None? <==> Eligible(rows, constraints, cfg) == []
    ensures s.best.Some? ==> s.best.value == FirstMin(Eligible(rows, constraints, cfg), Rank(cfg))
    ensures (s.best.Some? && forall r :: r in Eligible(rows, constraints, cfg) ==> Steady(r, cfg))
            ==> s.front != [] && s.front[0] == s.best.value
  {
    ghost var unseen := (r: Row) => !Known(r, cfg);
    var eligible: seq<Record> := [];
    var feasible, infeasible, unknown := 0, 0, 0;
    var statuses: seq<RowStatus> := [];
    for i := 0 to |rows|
      invariant eligible == Eligible(rows[..i], constraints, cfg)
      invariant feasible == |eligible| && feasible + infeasible + unknown == i
      invariant infeasible >= 0 && unknown == |Filter(rows[..i], unseen)|
      invariant |statuses| == i && forall k :: 0 <= k < i ==> StatusIs(statuses[k], rows[k], constraints, cfg)
    {
      var status := Classify(rows[i], constraints, cfg);
      var verdict := status.feasible;
      statuses := statuses + [status];
      EligibleAppends(rows[..i], [rows[i]], constraints, cfg);
      assert Eligible([rows[i]], constraints, cfg) == if verdict == Some(true) then [rows[i].record] else [];
      assert rows[..i + 1] == rows[..i] + [rows[i]];
      FilterStep(rows, i, unseen);
      match verdict {
        case None => unknown := unknown + 1;
        case Some(ok) => if ok { feasible := feasible + 1; } else { infeasible := infeasible + 1; }
      }
      if verdict == Some(true) {
        eligible := eligible + [rows[i].record];
      }
    }
    assert rows[..|rows|] == rows;
    EligibleCanonical(rows, constraints, cfg);
    s := Summarize(eligible, feasible, infeasible, unknown, statuses, cfg);
  }

  method Summarize(eligible: seq<Record>, feasible: nat, infeasible: nat, unknown: nat,
                   statuses: seq<RowStatus>, cfg: Config) returns (s: Summary)
    requires ValidConfig(cfg) && AllCanonical(eligible, cfg)
    ensures s.feasible == feasible && s.infeasible == infeasible && s.unknown == unknown && s.statuses == statuses
    ensures s.front == Front(eligible, cfg)
    ensures s.hypervolume == HypervolumeOf(eligible, cfg)
    ensures s.best == if eligible == [] then None else Some(FirstMin(eligible, Rank(cfg)))
    ensures (s.best.Some? && forall r :: r in eligible ==> Steady(r, cfg))
            ==> s.front != [] && s.front[0] == s.best.value
  {
    var best := if eligible == [] then None else Some(FirstMin(eligible, Rank(cfg)));
    var front := ParetoFrontRecords(eligible, cfg);
    FrontKeepsHypervolume(eligible, cfg);
    var volume := FeasibleHypervolume(front.value, cfg);
    if eligible != [] && forall r :: r in eligible ==> Steady(r, cfg) {
      BestHeadsFront(eligible, cfg);
    }
    s := Summary(best, feasible, infeasible, unknown, statuses, front.value, volume.value);
  }

  // A row counts as known exactly if its trial ended well, its measurements were
  // accepted, and its objectives are the configured ones; otherwise it is neither
  // feasible nor infeasible.
  lemma UnknownExactly(s: RowStatus, row: Row, constraints: seq<Constraint>, cfg: Config)
    requires StatusIs(s, row, constraints, cfg)
    ensures s.feasible == None <==>
            || row.status != "ok" || !row.measured
            || row.record.objectives.Keys != set o | o in cfg.objectives :: o.name
  {
    hide Feasible;
  }

  // What is reported of one constraint: the measured value, whether it is within the
  // bound, and by how much it is not.
  lemma CheckMeansExcess(row: Row, c: Constraint)
    ensures CheckOf(row, c, false) == Check(None, None, None)
    ensures c.metric !in row.measurements ==> CheckOf(row, c, true) == Check(None, None, None)
    ensures c.metric in row.measurements ==>
              var v, check := row.measurements[c.metric], CheckOf(row, c, true);
              && check.measurement == Some(v)
              && (c.atMost ==> check.satisfied == Some(v <= c.bound)
                               && check.violation == Some(if v <= c.bound then 0.0 else v - c.bound))
              && (!c.atMost ==> check.satisfied == Some(v >= c.bound)
                                && check.violation == Some(if v >= c.bound then 0.0 else c.bound - v))
  {
  }
}
