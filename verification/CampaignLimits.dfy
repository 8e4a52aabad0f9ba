// What no run undoes, and the two places where a guarantee ends: an import that
// overtakes a prepared journal, and a suggestion that lowers the format.
module CampaignLimits {
  import opened Wrappers
  import opened CampaignData
  import opened CampaignLogs
  import opened Campaign
  import opened CampaignInvariant
  import opened CampaignIds
  import opened CampaignRecovery
  import opened CampaignRuns
  import opened CampaignAtomic

  // ---- terminal results stay terminal -------------------------------------------------------

  lemma {:induction false} AtomicAppends(l: Ledger, ops: seq<Op>)
    ensures l.state.observations <= AtomicRun(l, ops).state.observations
    ensures l.commits <= AtomicRun(l, ops).commits
    decreases |ops|
  {
    if ops != [] {
      hide NextSnapshot, NewJournal, IndexOf, NewTrials;
      assert l.state.observations <= Atomic(l, ops[0]).state.observations;
      assert l.commits <= Atomic(l, ops[0]).commits;
      hide Atomic;
      AtomicAppends(Atomic(l, ops[0]), ops[1..]);
    }
  }

  // Main result: over any run with crashes and recoveries an observation is never
  // lost, changed or moved, and its trial is never pending again.
  lemma ObservedStaysObserved(sys: Sys, steps: seq<Step>)
    requires Inv(sys.disk, sys.history) && FreshRun(sys, steps)
    ensures sys.disk.state.observations <= Run(sys, steps).disk.state.observations
    ensures sys.history.commits <= Run(sys, steps).history.commits
    ensures forall o, t :: o in sys.disk.state.observations && t in Run(sys, steps).disk.state.pending ==> o.id != t.id
  {
    hide Run, FreshRun, Inv, AtomicRun, RunOps;
    var later := Run(sys, steps);
    RunRefines(sys, steps);
    AtomicAppends(Outside(sys), RunOps(sys, steps));
    RunKeepsInv(sys, steps);
    var s := later.disk.state;
    assert Cleared(s).observations == s.observations;
    assert Numbered(s) by { InvNumbers(later); }
    forall o, t | o in sys.disk.state.observations && t in s.pending ensures o.id != t.id {
      assert o in s.observations;
      if o.id == t.id { SplitIds(s, t, o); }
    }
  }

  lemma InvNumbers(sys: Sys)
    requires Inv(sys.disk, sys.history)
    ensures Numbered(sys.disk.state)
  {
  }

  lemma SplitIds(s: State, t: Trial, o: Trial)
    requires Numbered(s) && t in s.pending && o in s.observations
    ensures t.id != o.id
  {
    IdsAppend(s.pending, s.observations);
    IdOfRow(s.pending, t);
    IdOfRow(s.observations, o);
    RangeCounts(1, s.nextTrialId - 1, t.id);
    assert multiset(Ids(s.pending))[t.id] >= 1 && multiset(Ids(s.observations))[o.id] >= 1;
    assert multiset(Ids(Rows(s)))[t.id] <= 1;
  }

  // ---- lineage and generation ---------------------------------------------------------------------

  lemma {:induction false} AtomicLineage(l: Ledger, ops: seq<Op>)
    requires Pointer(l.state).Some?
    requires forall i :: |l.commits| <= i < |AtomicRun(l, ops).commits| ==> AtomicRun(l, ops).commits[i].Allocated?
    ensures |AtomicRun(l, ops).commits| >= |l.commits|
    ensures Pointer(AtomicRun(l, ops).state).Some?
    ensures var p, q := Pointer(l.state).value, Pointer(AtomicRun(l, ops).state).value;
            q.lineage == p.lineage && q.generation == p.generation + |AtomicRun(l, ops).commits| - |l.commits|
    decreases |ops|
  {
    AtomicAppends(l, ops);
    if ops != [] {
      var next := Atomic(l, ops[0]);
      AtomicAppends(next, ops[1..]);
      hide AtomicRun, IndexOf, NewTrials;
      StepLineage(l, ops[0]);
      hide Atomic;
      if |next.commits| > |l.commits| { assert next.commits[|l.commits|] == AtomicRun(next, ops[1..]).commits[|l.commits|]; }
      RunUnfolds(l, ops);
      AtomicLineage(next, ops[1..]);
    }
  }

  lemma RunUnfolds(l: Ledger, ops: seq<Op>)
    requires ops != []
    ensures AtomicRun(l, ops) == AtomicRun(Atomic(l, ops[0]), ops[1..])
  {
    hide Atomic;
  }

  lemma StepLineage(l: Ledger, op: Op)
    requires Pointer(l.state).Some?
    ensures var next := Atomic(l, op);
            && |l.commits| <= |next.commits| <= |l.commits| + 1
            && ((|next.commits| > |l.commits| && next.commits[|l.commits|].Rebuilt?)
                || (Pointer(next.state).Some?
                    && Pointer(next.state).value.lineage == Pointer(l.state).value.lineage
                    && Pointer(next.state).value.generation
                       == Pointer(l.state).value.generation + |next.commits| - |l.commits|))
  {
    hide IndexOf, NewTrials;
  }

  // Main result: between rebuilds the lineage stays, and the generation grows by
  // one for each committed batch, whatever crashed in between.
  lemma GenerationCountsBatches(sys: Sys, steps: seq<Step>)
    requires Pointer(sys.disk.state).Some?
    requires var from, to := |sys.history.commits|, |Run(sys, steps).history.commits|;
             forall i :: from <= i < to ==> Run(sys, steps).history.commits[i].Allocated?
    ensures Pointer(Run(sys, steps).disk.state).Some?
    ensures var p, q := Pointer(sys.disk.state).value, Pointer(Run(sys, steps).disk.state).value;
            && q.lineage == p.lineage
            && q.generation == p.generation + |Run(sys, steps).history.commits| - |sys.history.commits|
  {
    var later := Run(sys, steps);
    PointerIsVisible(sys);
    PointerIsVisible(later);
    hide *;
    RunRefines(sys, steps);
    AtomicLineage(Outside(sys), RunOps(sys, steps));
  }

  lemma PointerIsVisible(sys: Sys)
    ensures Pointer(Outside(sys).state) == Pointer(sys.disk.state) && Outside(sys).commits == sys.history.commits
  {
  }

  // ---- a rebuild does not touch the trials ------------------------------------------------------

  predicate SameTrials(e: Disk, d: Disk) {
    && e.state.pending == d.state.pending
    && e.state.observations == d.state.observations
    && e.state.nextTrialId == d.state.nextTrialId
    && e.journal == d.journal && e.manifests == d.manifests && e.decisions == d.decisions
  }

  predicate RebuildWrite(w: Write, d: Disk) {
    || w.PutEvents?
    || (w.PutState? && w.state.pending == d.state.pending && w.state.observations == d.state.observations
        && w.state.nextTrialId == d.state.nextTrialId)
  }

  lemma {:induction false} RebuildWritesKeep(e: Disk, d: Disk, ws: seq<Write>)
    requires SameTrials(e, d) && forall w :: w in ws ==> RebuildWrite(w, d)
    ensures SameTrials(ApplyAll(e, ws), d)
    decreases |ws|
  {
    if ws != [] {
      assert RebuildWrite(ws[0], d);
      RebuildWritesKeep(Apply(e, ws[0]), d, ws[1..]);
    }
  }

  lemma RecoverRebuildWrites(d: Disk, w: Write)
    requires w in RecoverRebuild(d).writes
    ensures RebuildWrite(w, d)
  {
    hide Publish;
  }

  lemma RebuildWrites(d: Disk, r: RebuildRequest, w: Write)
    requires w in RebuildOptimizer(d, r).writes
    ensures RebuildWrite(w, d)
  {
    if Rebuildable(d, r) {
      RebuildPlan(d, History([], {}, false), r, 1);
      var s := RebuiltState(d.state, r);
      hide RebuildOptimizer, RecoverRebuild;
      if w in RecoverRebuild(d.(state := s)).writes { RecoverRebuildWrites(d.(state := s), w); }
    } else {
      RebuildOtherwise(d, History([], {}, false), r, 1);
      hide RebuildOptimizer, RecoverRebuild, Rebuildable;
      RecoverRebuildWrites(d, w);
    }
  }

  // Main result: a rebuild, cut off anywhere, and the completion of one, keep
  // pending, observations and the counter.
  lemma RebuildKeepsTrials(d: Disk, r: RebuildRequest, limit: nat)
    ensures SameTrials(Crash(d, DoRebuild(r), limit), d)
    ensures SameTrials(Crash(d, DoRecoverRebuild, limit), d)
  {
    CrashIsStopped(d, DoRebuild(r), limit);
    CrashIsStopped(d, DoRecoverRebuild, limit);
    var p, q := RebuildOptimizer(d, r), RecoverRebuild(d);
    assert SameTrials(d, d);
    hide RebuildOptimizer, RecoverRebuild, RebuildWrite, SameTrials, Crash;
    forall w | w in p.writes ensures RebuildWrite(w, d) { RebuildWrites(d, r, w); }
    forall w | w in q.writes ensures RebuildWrite(w, d) { RecoverRebuildWrites(d, w); }
    RebuildWritesKeep(d, d, p.writes[..if limit < |p.writes| then limit else |p.writes|]);
    RebuildWritesKeep(d, d, q.writes[..if limit < |q.writes| then limit else |q.writes|]);
  }

  // ---- the optimizer format -------------------------------------------------------------------

  function FormatOf(s: State): nat {
    if s.optimizer.Some? then s.optimizer.value.format else 0
  }

  // A suggestion under contract 1 on a campaign that a contract-2 import has
  // marked as format 2 and that has no snapshot yet.
  predicate LowersFormat(d: Disk, b: Batch) {
    Allocatable(d, b) && b.contract != 2 && d.state.optimizer.Some?
    && d.state.optimizer.value.format == 2 && d.state.optimizer.value.snapshot.None?
  }

  lemma AllocationFormat(d: Disk, h: History, b: Batch)
    requires Inv(d, h) && Allocatable(d, b)
    ensures FormatOf(Atomic(View(d, h.commits), Allocate(b)).state) < FormatOf(d.state) <==> LowersFormat(d, b)
  {
    assert OptimizerOK(d.state);
    assert Cleared(d.state) == d.state;
    hide Inv, NewJournal, Owned;
    var j := JournalFor(d, b);
    assert j == NewJournal(d.state, b, NextSnapshot(d.state, b).value);
    assert j.snapshot == NextSnapshot(d.state, b).value by { JournalSnapshot(d, b); }
  }

  lemma JournalSnapshot(d: Disk, b: Batch)
    requires Allocatable(d, b)
    ensures JournalFor(d, b).snapshot == NextSnapshot(d.state, b).value
  {
    hide NextSnapshot;
  }

  lemma RebuildFormat(d: Disk, r: RebuildRequest, commits: seq<Commit>)
    requires Rebuildable(d, r) && OptimizerOK(d.state)
    ensures FormatOf(Atomic(View(d, commits), Reset(r)).state) >= FormatOf(d.state)
  {
    hide Owned;
  }

  lemma OtherFormat(l: Ledger, op: Op)
    requires !op.Allocate? && !op.Reset?
    ensures FormatOf(Atomic(l, op).state) >= FormatOf(l.state)
  {
    hide IndexOf, NewTrials;
  }

  lemma {:induction false} OtherFormats(l: Ledger, ops: seq<Op>)
    requires forall op :: op in ops ==> !op.Allocate? && !op.Reset?
    ensures FormatOf(AtomicRun(l, ops).state) >= FormatOf(l.state)
    decreases |ops|
  {
    hide Atomic, FormatOf;
    if ops != [] {
      OtherFormat(l, ops[0]);
      OtherFormats(Atomic(l, ops[0]), ops[1..]);
    }
  }

  lemma OtherCommandsOps(d: Disk, c: Command, limit: nat)
    requires !c.DoCommitAllocation? && !c.DoRebuild?
    ensures forall op :: op in OpsOf(d, c, limit) ==> !op.Allocate? && !op.Reset?
  {
    hide IndexOf, ImportObservations, Unowned;
  }

  predicate Lowers(d: Disk, c: Command, limit: nat) {
    c.DoCommitAllocation? && limit >= 2 && LowersFormat(d, c.batch)
  }

  lemma FormatIsVisible(s: State)
    ensures FormatOf(Cleared(s)) == FormatOf(s)
  {
  }

  // Main result: exactly that suggestion lowers the optimizer format, whatever
  // else runs or crashes.
  lemma OnlyOneCommandLowers(sys: Sys, c: Command, limit: nat)
    requires Inv(sys.disk, sys.history)
    ensures FormatOf(After(sys, c, limit).disk.state) < FormatOf(sys.disk.state) <==> Lowers(sys.disk, c, limit)
  {
    var d, h, l := sys.disk, sys.history, Outside(sys);
    var after := After(sys, c, limit);
    assert OptimizerOK(d.state);
    FormatIsVisible(d.state);
    FormatIsVisible(after.disk.state);
    assert l.state == Cleared(d.state) && Outside(after).state == Cleared(after.disk.state);
    hide Inv, After, Outside, Cleared, FormatOf, Atomic, AtomicRun, OptimizerOK, LowersFormat, Allocatable, Rebuildable;
    StepRefines(sys, c, limit);
    if c.DoCommitAllocation? {
      OneOp(l, Allocate(c.batch));
      if Allocatable(d, c.batch) { CommitFormat(sys, c.batch); }
      NotAllocatable(d, c.batch);
    } else if c.DoRebuild? {
      OneOp(l, Reset(c.request));
      if Rebuildable(d, c.request) { RebuildFormatOf(sys, c.request); }
    } else {
      OtherCommandsOps(d, c, limit);
      OtherFormats(l, OpsOf(d, c, limit));
    }
  }

  lemma NotAllocatable(d: Disk, b: Batch)
    ensures LowersFormat(d, b) ==> Allocatable(d, b)
  {
  }

  lemma CommitFormat(sys: Sys, b: Batch)
    requires Inv(sys.disk, sys.history) && Allocatable(sys.disk, b)
    ensures FormatOf(Atomic(Outside(sys), Allocate(b)).state) < FormatOf(sys.disk.state) <==> LowersFormat(sys.disk, b)
  {
    hide Inv, Allocatable, View, Atomic, LowersFormat, FormatOf;
    AllocationFormat(sys.disk, sys.history, b);
  }

  lemma RebuildFormatOf(sys: Sys, r: RebuildRequest)
    requires OptimizerOK(sys.disk.state) && Rebuildable(sys.disk, r)
    ensures FormatOf(Atomic(Outside(sys), Reset(r)).state) >= FormatOf(sys.disk.state)
  {
    hide Rebuildable, View, Atomic, FormatOf, OptimizerOK;
    RebuildFormat(sys.disk, r, sys.history.commits);
  }

  ghost predicate NeverLowers(sys: Sys, steps: seq<Step>)
    decreases |steps|
  {
    steps != [] ==>
      !Lowers(sys.disk, steps[0].command, steps[0].limit) &&
      NeverLowers(After(sys, steps[0].command, steps[0].limit), steps[1..])
  }

  lemma {:induction false} FormatNeverDrops(sys: Sys, steps: seq<Step>)
    requires Inv(sys.disk, sys.history) && FreshRun(sys, steps) && NeverLowers(sys, steps)
    ensures FormatOf(Run(sys, steps).disk.state) >= FormatOf(sys.disk.state)
    decreases |steps|
  {
    hide Inv, After, FreshIds, Lowers, FormatOf;
    if steps != [] {
      var next := After(sys, steps[0].command, steps[0].limit);
      StepKeepsInv(sys, steps[0].command, steps[0].limit);
      OnlyOneCommandLowers(sys, steps[0].command, steps[0].limit);
      FormatNeverDrops(next, steps[1..]);
    }
  }

  // The input that shows it: import history under contract 2, then suggest under
  // contract 1.
  const SAMPLE := Core("x", 1.0, None)
  const OLD_CONTRACT := Batch("batch", "lineage", 1, "cfg", "objective", [SAMPLE], ["why"], "payload")

  lemma FormatCanDrop()
    ensures var imported := Complete(START, DoImport([SAMPLE], 2, "cfg"));
            && Lowers(imported, DoCommitAllocation(OLD_CONTRACT), 2)
            && FormatOf(imported.state) == 2
            && FormatOf(Complete(imported, DoCommitAllocation(OLD_CONTRACT)).state) == 1
  {
    ImportedSample();
    var imported := Complete(START, DoImport([SAMPLE], 2, "cfg"));
    assert Allocatable(imported, OLD_CONTRACT);
    var h := History([], {}, false);
    CompleteCommit(imported, OLD_CONTRACT);
  }

  lemma ImportedSample()
    ensures Complete(START, DoImport([SAMPLE], 2, "cfg")).state
         == State([], [Trial(1, SAMPLE, "new")], 2, Some(Optimizer(2, None, Some(Contract2("cfg")), None, None)))
    ensures Complete(START, DoImport([SAMPLE], 2, "cfg")).journal.None?
  {
    var p := ImportObservations(START, [SAMPLE], 2, "cfg");
    var m := TerminalManifests(NewTrials(1, [SAMPLE]));
    var rest := [PutState(ImportedState(START.state, [SAMPLE], 2, "cfg")),
                 PutEvents(START.events + [Unowned(0, "observations_imported")])];
    assert p.writes == m + rest;
    TerminalManifestsAreManifests(NewTrials(1, [SAMPLE]));
    ManifestsAreSilent(START, m, []);
    ApplyConcat(START, m, rest);
    TwoWrites(ApplyAll(START, m), rest[0], rest[1]);
    assert Complete(START, DoImport([SAMPLE], 2, "cfg")) == ApplyAll(START, p.writes);
    assert NewTrials(1, [SAMPLE]) == [Trial(1, SAMPLE, "new")];
  }

  lemma CompleteCommit(d: Disk, b: Batch)
    requires Allocatable(d, b)
    ensures FormatOf(Complete(d, DoCommitAllocation(b)).state) == FormatOf(AllocatedState(d.state, JournalFor(d, b)))
  {
    var sys := Sys(d, History([], {}, false));
    var c := DoCommitAllocation(b);
    var n := |PlanOf(d, c).writes|;
    CommitShape(d, sys.history, b, 2);
    assert n >= 2;
    var e := Complete(d, c);
    assert After(sys, c, n).disk == e by { assert PlanOf(d, c).writes[..n] == PlanOf(d, c).writes; }
    CommitRefines(sys, b, n);
    OneOp(Outside(sys), Allocate(b));
    CommitView(d, b, []);
    FormatIsVisible(e.state);
    FormatIsVisible(AllocatedState(d.state, JournalFor(d, b)));
    hide PlanOf, Complete, AllocatedState, JournalFor, FormatOf, Cleared;
  }

  // ---- an import that overtakes a prepared journal ---------------------------------------------

  // import-observations accepts the rows and gets past its state write.
  predicate Overtakes(d: Disk, c: Command, limit: nat) {
    c.DoImport? && limit > |c.cores| && d.journal.Some? && Importable(d.state, c.cores, c.contract)
  }

  lemma ImportableMeansWrites(d: Disk, cores: seq<Core>, contract: nat, config: string)
    ensures Importable(d.state, cores, contract) <==> ImportObservations(d, cores, contract, config).writes != []
  {
    hide ImportedState, TerminalManifests, NewTrials;
  }

  // Main result: recovery reports "a different canonical history" in exactly the
  // runs in which an import overtook a prepared journal.
  lemma DifferentHistoryExactly(sys: Sys, c: Command, limit: nat)
    requires Inv(sys.disk, sys.history) && FreshIds(c, sys.history)
    requires sys.disk.journal.Some? ==> AllocationStatus(sys.disk.journal.value, sys.disk.state) != DifferentHistory
    ensures var e := After(sys, c, limit).disk;
            (e.journal.Some? && ValidJournal(e.journal.value)
             && AllocationStatus(e.journal.value, e.state) == DifferentHistory)
            <==> Overtakes(sys.disk, c, limit)
                 && AllocationStatus(sys.disk.journal.value, sys.disk.state) == Prepared
  {
    StepKeepsInv(sys, c, limit);
    var d, h := sys.disk, sys.history;
    var next := After(sys, c, limit);
    NoOverrunYet(d, h);
    OverrunFrom(d, h, c, limit);
    if d.journal.Some? { ClassificationIsExact(d, h); }
    if next.disk.journal.Some? { ClassificationIsExact(next.disk, next.history); }
    OverrunHasJournal(next.disk, next.history);
    hide Inv, After, InPublication, InPreparation, AllocationStatus, ValidJournal, Overtakes, HistoryAfter;
    assert next.history.overrun == HistoryAfter(d, h, c, limit).overrun by { AfterHistory(sys, c, limit); }
  }

  lemma AfterHistory(sys: Sys, c: Command, limit: nat)
    ensures After(sys, c, limit).history == HistoryAfter(sys.disk, sys.history, c, limit)
  {
    hide HistoryAfter, Crash;
  }

  lemma NoOverrunYet(d: Disk, h: History)
    requires Inv(d, h)
    requires d.journal.Some? ==> AllocationStatus(d.journal.value, d.state) != DifferentHistory
    ensures !h.overrun
  {
    if d.journal.Some? { ClassificationIsExact(d, h); }
    hide BlockForm, Numbered, Kept, HistoryOK, OptimizerOK, AllocationStatus, ValidJournal;
  }

  lemma OverrunHasJournal(d: Disk, h: History)
    requires Inv(d, h)
    ensures h.overrun ==> d.journal.Some? && InPreparation(d, h)
    ensures d.journal.Some? && InPublication(d, h) ==> !h.overrun
  {
    hide BlockForm, Numbered, Kept, HistoryOK, OptimizerOK, ValidJournal;
  }

  lemma OverrunFrom(d: Disk, h: History, c: Command, limit: nat)
    requires Inv(d, h) && !h.overrun
    ensures HistoryAfter(d, h, c, limit).overrun
        <==> Overtakes(d, c, limit) && AllocationStatus(d.journal.value, d.state) == Prepared
  {
    if c.DoImport? { ImportableMeansWrites(d, c.cores, c.contract, c.config); }
    if Overtakes(d, c, limit) {
      ClassificationIsExact(d, h);
      PointerTells(d, h);
    }
    hide Importable, Inv, ImportObservations, AllocationStatus, CommitAllocation, RebuildOptimizer, InPublication, InPreparation;
  }

  lemma PointerTells(d: Disk, h: History)
    requires Inv(d, h) && d.journal.Some?
    ensures InPublication(d, h) <==> Pointer(d.state) == Some(d.journal.value.snapshot)
  {
    hide BlockForm, Numbered, Kept, HistoryOK, OptimizerOK, ValidJournal;
  }

  // From then on nothing can be allocated, rebuilt or recovered.
  lemma OverrunIsFinal(sys: Sys, c: Command, limit: nat)
    requires Inv(sys.disk, sys.history) && sys.history.overrun && FreshIds(c, sys.history)
    ensures c.DoRecoverAllocation? || c.DoCommitAllocation? || c.DoRebuild? ==>
              PlanOf(sys.disk, c) == REFUSED
    ensures After(sys, c, limit).history.overrun
  {
    var d, h := sys.disk, sys.history;
    OverrunHasJournal(d, h);
    ClassificationIsExact(d, h);
    hide Inv, InPreparation, InPublication, AllocationStatus, NextSnapshot, RecoverRebuild, RebuildAllowed,
         ImportObservations;
  }

  lemma {:induction false} OverrunForEver(sys: Sys, steps: seq<Step>)
    requires Inv(sys.disk, sys.history) && sys.history.overrun && FreshRun(sys, steps)
    ensures Run(sys, steps).history.overrun
    decreases |steps|
  {
    hide Inv, After, FreshIds;
    if steps != [] {
      StepKeepsInv(sys, steps[0].command, steps[0].limit);
      OverrunIsFinal(sys, steps[0].command, steps[0].limit);
      OverrunForEver(After(sys, steps[0].command, steps[0].limit), steps[1..]);
    }
  }

  // The input that shows it: a batch cut off after its journal, then an import.
  lemma ImportCanStrandAJournal(cfg: string)
    ensures var steps := [Step(DoCommitAllocation(OLD_CONTRACT), 1), Step(DoImport([SAMPLE], 1, "cfg"), 3)];
            && FreshRun(INITIAL, steps)
            && var d := Run(INITIAL, steps).disk;
            && d.journal.Some? && ValidJournal(d.journal.value)
            && AllocationStatus(d.journal.value, d.state) == DifferentHistory
            && RecoverAllocation(d, cfg) == REFUSED
  {
    var steps := [Step(DoCommitAllocation(OLD_CONTRACT), 1), Step(DoImport([SAMPLE], 1, "cfg"), 3)];
    StrandingRun();
    hide *;
    EveryRunKeepsInv(steps);
    OverrunShows(Run(INITIAL, steps), cfg);
  }

  lemma OverrunShows(sys: Sys, cfg: string)
    requires Inv(sys.disk, sys.history) && sys.history.overrun
    ensures var d := sys.disk;
            && d.journal.Some? && ValidJournal(d.journal.value)
            && AllocationStatus(d.journal.value, d.state) == DifferentHistory && RecoverAllocation(d, cfg) == REFUSED
  {
    OverrunHasJournal(sys.disk, sys.history);
    ClassificationIsExact(sys.disk, sys.history);
    OverrunIsFinal(sys, DoRecoverAllocation(cfg), 0);
    hide Inv, InPublication, InPreparation, AllocationStatus, ValidJournal, RecoverAllocation, After;
  }

  lemma StrandingRun()
    ensures var steps := [Step(DoCommitAllocation(OLD_CONTRACT), 1), Step(DoImport([SAMPLE], 1, "cfg"), 3)];
            FreshRun(INITIAL, steps) && Run(INITIAL, steps).history.overrun
  {
    var a, b := Step(DoCommitAllocation(OLD_CONTRACT), 1), Step(DoImport([SAMPLE], 1, "cfg"), 3);
    InitialInv();
    assert Allocatable(START, OLD_CONTRACT);
    var one := After(INITIAL, a.command, 1);
    CutBatch();
    assert ImportObservations(one.disk, [SAMPLE], 1, "cfg").writes != [];
    assert After(one, b.command, 3).history.overrun;
    assert [a, b][1..] == [b] && [b][1..] == [];
    hide After, FreshIds;
    assert FreshIds(a.command, INITIAL.history) && FreshIds(b.command, one.history);
    assert FreshRun(After(one, b.command, 3), []);
    assert FreshRun(one, [b]);
    assert Run(one, [b]) == Run(After(one, b.command, 3), []);
  }

  lemma CutBatch()
    ensures Allocatable(START, OLD_CONTRACT)
    ensures After(INITIAL, DoCommitAllocation(OLD_CONTRACT), 1).disk
         == START.(journal := Some(JournalFor(START, OLD_CONTRACT)))
  {
    CommitShape(START, INITIAL.history, OLD_CONTRACT, 1);
    var p := CommitAllocation(START, OLD_CONTRACT);
    var j := JournalFor(START, OLD_CONTRACT);
    var d2 := START.(journal := Some(j), state := AllocatedState(START.state, j));
    var rest := [PutState(d2.state)] + RecoverAllocation(d2, OLD_CONTRACT.objectiveConfig).writes;
    StoppedAfterOne(START, p, PutJournal(j), rest, 1);
    StoppedAtOnce(Apply(START, PutJournal(j)), Plan(rest, false));
  }
}
