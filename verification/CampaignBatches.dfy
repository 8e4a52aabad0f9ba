// What a batch and a rebuild leave behind, row by row and in terms of the request:
// each trial with its own point, decision and event.
module CampaignBatches {
  import opened Wrappers
  import opened CampaignData
  import opened CampaignLogs
  import opened Campaign
  import opened CampaignInvariant
  import opened CampaignRecovery
  import opened CampaignRuns
  import opened CampaignAtomic
  import opened CampaignTheorems
  import opened CampaignGuarantees

  // ---- a batch ----------------------------------------------------------------------------

  // Row i of a batch whose first trial is `first`: the decision and the event of the
  // i-th chosen point, under the batch's own identifier.
  predicate DecisionAt(log: Log, b: Batch, first: nat, i: nat) {
    i < |log| && i < |b.decisions| && log[i] == LogRow(Allocation(b.allocationId), first + i, Decision(b.decisions[i]))
  }

  predicate EventAt(log: Log, b: Batch, first: nat, i: nat) {
    i < |log| && i < |b.cores| && log[i] == LogRow(Allocation(b.allocationId), first + i, SuggestionCreated(b.cores[i].suggestedAt))
  }

  predicate TrialAt(rows: seq<Trial>, b: Batch, first: nat, i: nat) {
    i < |rows| && i < |b.cores| && rows[i].id == first + i && rows[i].core == b.cores[i]
  }

  // The rows of a whole batch.
  predicate BatchRows(decisions: Log, events: Log, b: Batch, first: nat) {
    && |decisions| == |events| == |b.cores| == |b.decisions|
    && forall i :: 0 <= i < |b.cores| ==> DecisionAt(decisions, b, first, i) && EventAt(events, b, first, i)
  }

  // The snapshot of a batch: its own payload under its contract and configuration.
  predicate BatchSnapshot(p: Snapshot, b: Batch) {
    && p.payload == b.payload
    && (b.contract == 2 ==> p.format == 2 && p.fingerprint == Contract2(b.config))
    && (b.contract != 2 ==> p.format == 1 && p.fingerprint == Contract1(b.config))
  }

  predicate CarriesBatch(j: Journal, b: Batch, first: nat) {
    && j.allocationId == b.allocationId && j.objectiveConfig == b.objectiveConfig
    && BatchRows(j.decisions, j.events, b, first) && |j.suggestions| == |b.cores|
    && (forall i :: 0 <= i < |b.cores| ==> TrialAt(j.suggestions, b, first, i))
    && BatchSnapshot(j.snapshot, b)
  }

  lemma JournalCarriesBatch(d: Disk, b: Batch)
    requires Allocatable(d, b)
    ensures CarriesBatch(JournalFor(d, b), b, d.state.nextTrialId)
    ensures JournalFor(d, b).previousSnapshot == Pointer(d.state)
  {
  }

  // A fresh batch continues the lineage and counts one generation.
  lemma BatchContinuesLineage(d: Disk, b: Batch)
    requires Allocatable(d, b)
    ensures var p := JournalFor(d, b).snapshot;
            match Pointer(d.state)
            case Some(q) => p.lineage == q.lineage && p.generation == q.generation + 1 && p.lastRebuild == q.lastRebuild
            case None => p.lineage == b.freshLineage && p.generation == 1 && p.lastRebuild == None
  {
  }

  // What the disk holds once a batch is complete.
  predicate BatchDone(d: Disk, b: Batch, e: Disk) {
    var first := d.state.nextTrialId;
    && BatchRows(Owned(e.decisions, Allocation(b.allocationId)), Owned(e.events, Allocation(b.allocationId)), b, first)
    && |e.state.pending| == |d.state.pending| + |b.cores| && e.state.pending[..|d.state.pending|] == d.state.pending
    && (forall i :: 0 <= i < |b.cores| ==> TrialAt(e.state.pending[|d.state.pending|..], b, first, i))
    && e.state.observations == d.state.observations && e.state.nextTrialId == first + |b.cores|
    && Pointer(e.state).Some? && BatchSnapshot(Pointer(e.state).value, b)
    && e.journal.None?
  }

  // Main result: a complete commit leaves every trial of the batch pending with its own
  // point, and its own decision and event in the logs under the batch's identifier.
  lemma CompletedBatch(d: Disk, h: History, b: Batch)
    requires Inv(d, h) && Quiet(d, h) && Allocatable(d, b) && b.allocationId !in h.used
    ensures BatchDone(d, b, Complete(d, DoCommitAllocation(b)))
  {
    var j := JournalFor(d, b);
    var d2 := d.(journal := Some(j), state := AllocatedState(d.state, j));
    var h2 := h.(used := h.used + {b.allocationId}, commits := h.commits + [Allocated(j)]);
    JournalCarriesBatch(d, b);
    AllocatedIs(d.state, j);
    assert d2.state.pending[|d.state.pending|..] == j.suggestions;
    assert Latest(h2) == Allocated(j) && h2.commits[|h.commits|] == Allocated(j);
    assert CommitOwner(Allocated(j)) == Allocation(b.allocationId);
    assert DecisionRows(Allocated(j)) == j.decisions && EventRows(Allocated(j)) == j.events;
    hide *;
    CommittedInv(d, h, b);
    CommittedRun(d, b, 2);
    var e := Complete(d2, DoRecoverAllocation(b.objectiveConfig));
    PublishedInv(d2, h2, b.objectiveConfig);
    QuietLogsAreExact(e, h2);
    BatchIsDone(d, b, j, e);
  }

  lemma AllocatedIs(s: State, j: Journal)
    ensures var n := AllocatedState(s, j);
            && n.pending == s.pending + j.suggestions && n.observations == s.observations
            && n.nextTrialId == s.nextTrialId + |j.suggestions| && Pointer(n) == Some(j.snapshot)
  {
  }

  lemma PublishedInv(d: Disk, h: History, cfg: string)
    requires Inv(d, h) && InPublication(d, h) && d.journal.Some? && cfg == d.journal.value.objectiveConfig
    ensures var e := Complete(d, DoRecoverAllocation(cfg));
            Inv(e, h) && Quiet(e, h) && e.state == d.state && e.journal.None?
  {
    assert ConfigMatches(d, h, cfg);
    hide *;
    AllocationRecovered(d, h, cfg);
    RecoverCommitted(d, h, cfg);
    CompleteRecovery(d, cfg);
  }

  lemma BatchIsDone(d: Disk, b: Batch, j: Journal, e: Disk)
    requires CarriesBatch(j, b, d.state.nextTrialId) && e.journal.None?
    requires e.state.pending == d.state.pending + j.suggestions && e.state.observations == d.state.observations
    requires e.state.nextTrialId == d.state.nextTrialId + |j.suggestions| && Pointer(e.state) == Some(j.snapshot)
    requires Owned(e.decisions, Allocation(b.allocationId)) == j.decisions
    requires Owned(e.events, Allocation(b.allocationId)) == j.events
    ensures BatchDone(d, b, e)
  {
    hide BatchRows, TrialAt, BatchSnapshot, Owned, Pointer;
    assert e.state.pending[|d.state.pending|..] == j.suggestions;
  }

  // ---- over runs --------------------------------------------------------------------------

  // The command that made a commit, and where its trial ids start.
  predicate MadeBy(c: Commit, command: Command) {
    match c
    case Allocated(j) =>
      command.DoCommitAllocation? && j.suggestions != [] && CarriesBatch(j, command.batch, j.suggestions[0].id)
    case Rebuilt(e) => command.DoRebuild? && CarriesRebuild(e, command.request)
  }

  predicate MadeByOne(c: Commit, steps: seq<Step>) {
    exists k :: 0 <= k < |steps| && MadeBy(c, steps[k].command)
  }

  // What a rebuild commits: its own identifier, lineage, payload and configuration, and
  // a generation that starts anew.
  predicate CarriesRebuild(e: RebuildEvent, r: RebuildRequest) {
    && e.recovery.rebuildId == r.rebuildId && e.recovery.lineage == r.lineage
    && e.snapshot.lineage == r.lineage && e.snapshot.generation == 0 && e.snapshot.payload == r.payload
    && e.snapshot.lastRebuild == Some(e.recovery)
    && (r.target == 2 ==> e.recovery.targetFormat == 2 && e.snapshot.format == 2 && e.snapshot.fingerprint == Contract2(r.config))
    && (r.target != 2 ==> e.recovery.targetFormat == 1 && e.snapshot.format == 1 && e.snapshot.fingerprint == Contract1(r.config))
  }

  lemma StepCommits(sys: Sys, c: Command, limit: nat)
    ensures sys.history.commits <= After(sys, c, limit).history.commits
    ensures forall x :: x in After(sys, c, limit).history.commits && x !in sys.history.commits ==> MadeBy(x, c)
  {
    var d, h := sys.disk, sys.history;
    match c
    case DoCommitAllocation(b) =>
      if Allocatable(d, b) {
        JournalCarriesBatch(d, b);
        CommitShape(d, h, b, limit);
        hide JournalFor, CarriesBatch, Allocatable, CommitAllocation, RecoverAllocation, Crash;
        FirstId(JournalFor(d, b), b, d.state.nextTrialId);
      } else {
        assert CommitAllocation(d, b) == REFUSED;
      }
    case DoRebuild(r) =>
      if Rebuildable(d, r) {
        RebuildPlan(d, h, r, limit);
        RebuildCarries(d.state, r);
        hide RebuildOptimizer, RebuiltState, RebuildAllowed, CarriesRebuild, Crash, RecoverRebuild;
      } else {
        RebuildOtherwise(d, h, r, limit);
      }
    case _ =>
  }

  lemma FirstId(j: Journal, b: Batch, first: nat)
    requires CarriesBatch(j, b, first) && |b.cores| > 0
    ensures j.suggestions != [] && j.suggestions[0].id == first
  {
    assert TrialAt(j.suggestions, b, first, 0);
  }

  lemma RebuildCarries(s: State, r: RebuildRequest)
    requires s.optimizer.Some?
    ensures PendingRebuild(RebuiltState(s, r)).Some?
    ensures CarriesRebuild(PendingRebuild(RebuiltState(s, r)).value, r)
  {
  }

  lemma {:induction false} RunCommits(sys: Sys, steps: seq<Step>)
    ensures forall c :: c in Run(sys, steps).history.commits ==> c in sys.history.commits || MadeByOne(c, steps)
    decreases |steps|
  {
    hide After, MadeBy;
    if steps != [] {
      var next := After(sys, steps[0].command, steps[0].limit);
      StepCommits(sys, steps[0].command, steps[0].limit);
      RunCommits(next, steps[1..]);
      forall c | c in Run(sys, steps).history.commits && c !in sys.history.commits ensures MadeByOne(c, steps) {
        if c !in next.history.commits {
          var k :| 0 <= k < |steps[1..]| && MadeBy(c, steps[1..][k].command);
          assert steps[k + 1] == steps[1..][k];
        } else {
          assert MadeBy(c, steps[0].command);
        }
      }
    }
  }

  // What the logs and the canonical rows hold of a commit, in terms of its command.
  ghost predicate Published(e: Disk, command: Command) {
    match command
    case DoCommitAllocation(b) =>
      exists first: nat ::
        && BatchRows(Owned(e.decisions, Allocation(b.allocationId)), Owned(e.events, Allocation(b.allocationId)), b, first)
        && forall i :: 0 <= i < |b.cores| ==> HasTrial(e.state, first + i, b.cores[i])
    case DoRebuild(r) =>
      && Owned(e.decisions, Rebuild(r.rebuildId)) == []
      && |Owned(e.events, Rebuild(r.rebuildId))| == 1
      && var row := Owned(e.events, Rebuild(r.rebuildId))[0];
      && row.body.OptimizerRebuilt? && CarriesRebuild(row.body.event, r)
    case _ => false
  }

  // A canonical row with this id and point.
  predicate HasTrial(s: State, id: nat, core: Core) {
    exists r :: r in Rows(s) && r.id == id && r.core == core
  }

  lemma CommitIsPublished(e: Disk, h: History, c: Commit, command: Command)
    requires Inv(e, h) && c in h.commits && MadeBy(c, command)
    requires Owned(e.events, CommitOwner(c)) == EventRows(c) && Owned(e.decisions, CommitOwner(c)) == DecisionRows(c)
    ensures Published(e, command)
  {
    match c
    case Allocated(j) =>
      var b, first := command.batch, j.suggestions[0].id;
      assert Kept(h.commits, e.state);
      hide Inv, BatchRows, BatchSnapshot, Owned;
      forall i | 0 <= i < |b.cores| ensures HasTrial(e.state, first + i, b.cores[i]) {
        assert TrialAt(j.suggestions, b, first, i);
        assert j.suggestions[i] in j.suggestions && Has(Rows(e.state), j.suggestions[i]);
      }
    case Rebuilt(event) =>
      hide Inv, Owned, CarriesRebuild;
  }

  // Main result: over every run, after both recoveries, each commit was made by one
  // command of the run, and that command's own rows are in the logs, once and complete.
  lemma EveryRunPublishesBatches(steps: seq<Step>, cfg: string, c: Commit)
    requires FreshRun(INITIAL, steps)
    requires ConfigMatches(Run(INITIAL, steps).disk, Run(INITIAL, steps).history, cfg)
    requires c in Run(INITIAL, steps).history.commits
    ensures exists k :: 0 <= k < |steps| && MadeBy(c, steps[k].command)
                        && Published(BothRecovered(Run(INITIAL, steps).disk, cfg), steps[k].command)
  {
    var h := Run(INITIAL, steps).history;
    var e := BothRecovered(Run(INITIAL, steps).disk, cfg);
    assert c !in INITIAL.history.commits;
    hide Run, FreshRun, ConfigMatches, BothRecovered, Published, MadeBy, Inv, Owned, CommitOwner;
    EveryRunRecovers(steps, cfg);
    EveryRunKeepsInv(steps);
    RecoveredCampaign(Run(INITIAL, steps).disk, h, cfg);
    RunCommits(INITIAL, steps);
    var k :| 0 <= k < |steps| && MadeBy(c, steps[k].command);
    CommitIsPublished(e, h, c, steps[k].command);
  }

  // Main result: conversely, a commit command that gets past its state write on a disk
  // that can take it makes a commit that carries its batch.
  lemma CommandMakesCommit(sys: Sys, b: Batch, limit: nat)
    requires Allocatable(sys.disk, b) && limit >= 2
    ensures var commits := After(sys, DoCommitAllocation(b), limit).history.commits;
            && |commits| == |sys.history.commits| + 1 && sys.history.commits <= commits
            && commits[|sys.history.commits|].Allocated?
            && CarriesBatch(commits[|sys.history.commits|].journal, b, sys.disk.state.nextTrialId)
  {
    JournalCarriesBatch(sys.disk, b);
    CommitShape(sys.disk, sys.history, b, limit);
    hide JournalFor, CarriesBatch, Allocatable, CommitAllocation, RecoverAllocation, Crash;
  }

  // ---- when a batch is taken ----------------------------------------------------------------

  // Main result: a batch is taken exactly if it is complete, nothing is outstanding, a
  // first batch finds no pending trial - and under contract 2 no observation -, and an
  // existing optimizer has the contract's format, if that is 2, and the same configuration.
  lemma AllocatableMeans(d: Disk, b: Batch)
    requires OptimizerOK(d.state)
    ensures Allocatable(d, b) <==>
            && b.allocationId != "" && |b.decisions| == |b.cores| && b.cores != []
            && d.journal == None && PendingRebuild(d.state) == None
            && match d.state.optimizer
               case None => d.state.pending == [] && (b.contract == 2 ==> d.state.observations == [])
               case Some(o) =>
                 var config := if b.contract == 2 then Contract2(b.config) else Contract1(b.config);
                 && (b.contract == 2 ==> o.format == 2 && (o.fingerprint == None || o.fingerprint == Some(config)))
                 && (o.snapshot.Some? ==> o.snapshot.value.fingerprint == config)
  {
  }

  // ---- what recovery accepts, on any disk -----------------------------------------------------

  // The last row of a list with an id.
  lemma {:induction false} FoundIsLast(rows: seq<Trial>, id: nat)
    ensures Find(rows, id) == None <==> forall t :: t in rows ==> t.id != id
    ensures Find(rows, id).Some? ==>
              exists i :: 0 <= i < |rows| && rows[i] == Find(rows, id).value && rows[i].id == id
                          && forall k :: i < k < |rows| ==> rows[k].id != id
  {
    if rows != [] {
      var n := |rows| - 1;
      FoundIsLast(rows[..n], id);
      if rows[n].id != id {
        assert rows == rows[..n] + [rows[n]];
        if Find(rows[..n], id).Some? {
          var i :| 0 <= i < n && rows[..n][i] == Find(rows[..n], id).value && rows[..n][i].id == id
                   && forall k :: i < k < n ==> rows[..n][k].id != id;
          assert rows[i] == rows[..n][i];
          forall k | i < k < |rows| ensures rows[k].id != id { assert k < n ==> rows[k] == rows[..n][k]; }
        }
      }
    }
  }

  // Main result: a journal is accepted exactly if it has an identifier, suggestions
  // with consecutive positive ids, and one decision and one event for each, with its id
  // and under its own identifier.
  lemma JournalAcceptedMeans(j: Journal)
    ensures ValidJournal(j) <==>
            && j.allocationId != "" && j.suggestions != [] && j.suggestions[0].id > 0
            && |j.decisions| == |j.suggestions| == |j.events|
            && forall i :: 0 <= i < |j.suggestions| ==> JournalRow(j, i)
  {
    if ValidJournal(j) {
      forall i | 0 <= i < |j.suggestions| ensures JournalRow(j, i) {}
    }
    if |j.decisions| == |j.suggestions| == |j.events| && forall i :: 0 <= i < |j.suggestions| ==> JournalRow(j, i) {
      forall i | 0 <= i < |j.suggestions|
        ensures j.suggestions[i].id == j.suggestions[0].id + i
        ensures j.decisions[i].trialId == j.suggestions[i].id && j.decisions[i].owner == Allocation(j.allocationId)
        ensures j.events[i].trialId == j.suggestions[i].id && j.events[i].owner == Allocation(j.allocationId)
      {
        assert JournalRow(j, i);
      }
    }
  }

  predicate JournalRow(j: Journal, i: nat) {
    && i < |j.suggestions| && i < |j.decisions| && i < |j.events|
    && var id := j.suggestions[0].id + i;
    && j.suggestions[i].id == id
    && j.decisions[i].trialId == id && j.decisions[i].owner == Allocation(j.allocationId)
    && j.events[i].trialId == id && j.events[i].owner == Allocation(j.allocationId)
  }

  // Main result: on any disk a journal is committed exactly if its snapshot is the
  // campaign's, each suggestion is the last row with its id - with the same point -, and
  // the counter has passed them; prepared exactly if the campaign still has the snapshot
  // before it, the counter stands at its first trial, and none of its trials exists.
  lemma StatusMeans(j: Journal, s: State)
    requires j.suggestions != []
    ensures AllocationStatus(j, s) == Committed <==>
            && Pointer(s) == Some(j.snapshot)
            && (forall t :: t in j.suggestions ==> Find(Rows(s), t.id).Some? && Find(Rows(s), t.id).value.core == t.core)
            && s.nextTrialId > j.suggestions[|j.suggestions| - 1].id
    ensures AllocationStatus(j, s) == Prepared <==>
            && Pointer(s) != Some(j.snapshot) && Pointer(s) == j.previousSnapshot
            && s.nextTrialId == j.suggestions[0].id
            && forall t, r :: t in j.suggestions && r in Rows(s) ==> r.id != t.id
  {
    hide Rows, Pointer, Find;
    forall t | t in j.suggestions ensures Find(Rows(s), t.id) == None <==> forall r :: r in Rows(s) ==> r.id != t.id {
      FoundIsLast(Rows(s), t.id);
    }
  }

  // Main result: on any disk, recovery writes nothing and raises exactly if there is a
  // journal that is malformed, of neither status, or committed under another objective
  // configuration. A committed journal with a log in conflict raises after the manifests.
  lemma RecoveryRefusesExactly(d: Disk, cfg: string)
    ensures d.journal == None ==> RecoverAllocation(d, cfg) == Plan([], false)
    ensures d.journal.Some? && !ValidJournal(d.journal.value) ==> RecoverAllocation(d, cfg) == Plan([], true)
    ensures d.journal.Some? && ValidJournal(d.journal.value) ==>
              match AllocationStatus(d.journal.value, d.state)
              case Prepared => RecoverAllocation(d, cfg) == Plan([DropJournal], false)
              case Committed =>
                && (cfg != d.journal.value.objectiveConfig ==> RecoverAllocation(d, cfg) == Plan([], true))
                && (cfg == d.journal.value.objectiveConfig ==>
                      (RecoverAllocation(d, cfg).failed <==>
                         Conflict(d.decisions, d.journal.value.decisions) || Conflict(d.events, d.journal.value.events)))
              case _ => RecoverAllocation(d, cfg) == Plan([], true)
  {
    hide ManifestWrites, PublishWrites, AllocationStatus, ValidJournal, Owned;
    if d.journal.Some? && ValidJournal(d.journal.value) { RowsThere(d.journal.value); }
  }

  // The log has rows under this identifier, and they are not these.
  predicate Conflict(log: Log, rows: Log) {
    rows != [] && Owned(log, rows[0].owner) != [] && Owned(log, rows[0].owner) != rows
  }

  lemma RowsThere(j: Journal)
    requires ValidJournal(j)
    ensures j.decisions != [] && j.events != []
  {
  }

  // A rebuild event is published exactly if it agrees with what the optimizer records.
  lemma RebuildAuditChecks(d: Disk)
    requires PendingRebuild(d.state).Some?
    ensures var o, e := d.state.optimizer.value, PendingRebuild(d.state).value;
            RecoverRebuild(d).failed <==>
            || o.lastRebuild != Some(e.recovery) || o.snapshot != Some(e.snapshot) || Conflict(d.events, [RebuildRow(e)])
  {
    hide PublishWrites, Owned;
  }
}
