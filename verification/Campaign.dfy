// The controller's commands as sequences of atomic writes
// (templates/_shared/optimizer_ax.py and the lifecycle commands of run_bo.py).
module Campaign {
  import opened Wrappers
  import opened CampaignData
  import opened CampaignLogs

  datatype Journal = Journal(
    allocationId: string, previousSnapshot: Option<Snapshot>, snapshot: Snapshot, objectiveConfig: string,
    suggestions: seq<Trial>, decisions: Log, events: Log)

  datatype Manifest = Manifest(row: Trial, pending: bool)

  datatype Disk = Disk(
    journal: Option<Journal>, state: State, manifests: map<nat, Manifest>, decisions: Log, events: Log)

  // One atomic replacement or unlink.
  datatype Write =
    | PutJournal(journal: Journal)
    | DropJournal
    | PutState(state: State)
    | PutManifest(id: nat, manifest: Manifest)
    | PutDecisions(log: Log)
    | PutEvents(log: Log)

  function Apply(d: Disk, w: Write): Disk {
    match w
    case PutJournal(j) => d.(journal := Some(j))
    case DropJournal => d.(journal := None)
    case PutState(s) => d.(state := s)
    case PutManifest(id, m) => d.(manifests := d.manifests[id := m])
    case PutDecisions(log) => d.(decisions := log)
    case PutEvents(log) => d.(events := log)
  }

  function ApplyAll(d: Disk, ws: seq<Write>): Disk
    decreases |ws|
  {
    if ws == [] then d else ApplyAll(Apply(d, ws[0]), ws[1..])
  }

  // What a command does: its writes in order, and whether it then raises.
  datatype Plan = Plan(writes: seq<Write>, failed: bool)

  const NOTHING := Plan([], false)
  const REFUSED := Plan([], true)

  // ---- _load_allocation and _allocation_status -----------------------------------

  predicate RowsFor(rows: Log, j: Journal) {
    |rows| == |j.suggestions| &&
    forall i :: 0 <= i < |rows| ==>
      rows[i].trialId == j.suggestions[i].id && rows[i].owner == Allocation(j.allocationId)
  }

  predicate ValidJournal(j: Journal) {
    && j.allocationId != ""
    && j.suggestions != []
    && j.suggestions[0].id >= 1
    && (forall i :: 0 <= i < |j.suggestions| ==> j.suggestions[i].id == j.suggestions[0].id + i)
    && RowsFor(j.decisions, j)
    && RowsFor(j.events, j)
  }

  datatype Status = Prepared | Committed | TrialsDisagree | CounterDisagrees | DifferentHistory

  predicate Matches(s: State, suggestion: Trial) {
    var current := Find(Rows(s), suggestion.id);
    current.Some? && current.value.core == suggestion.core
  }

  function AllocationStatus(j: Journal, s: State): Status
    requires j.suggestions != []
  {
    if Pointer(s) == Some(j.snapshot) then
      if exists t :: t in j.suggestions && !Matches(s, t) then TrialsDisagree
      else if s.nextTrialId <= j.suggestions[|j.suggestions| - 1].id then CounterDisagrees
      else Committed
    else if Pointer(s) == j.previousSnapshot && s.nextTrialId == j.suggestions[0].id
            && !(exists t :: t in j.suggestions && Find(Rows(s), t.id).Some?) then Prepared
    else DifferentHistory
  }

  // ---- recover_allocation ---------------------------------------------------------

  // pending.get(id) or observed[id], written as a pending or a terminal manifest.
  function CurrentManifest(s: State, t: Trial): Manifest {
    var pending := Find(s.pending, t.id);
    if pending.Some? then Manifest(pending.value, true)
    else
      var observed := Find(s.observations, t.id);
      if observed.Some? then Manifest(observed.value, false) else Manifest(t, false)
  }

  function ManifestWrites(s: State, suggestions: seq<Trial>): seq<Write> {
    if suggestions == [] then []
    else [PutManifest(suggestions[0].id, CurrentManifest(s, suggestions[0]))] + ManifestWrites(s, suggestions[1..])
  }

  // Nothing is written when the rows are there already.
  function PublishWrites(before: Log, log: Log, put: Write): seq<Write> {
    if log == before then [] else [put]
  }

  function RecoverAllocation(d: Disk, objectiveConfig: string): Plan {
    if d.journal.None? then NOTHING
    else
      var j := d.journal.value;
      if !ValidJournal(j) then REFUSED
      else
        match AllocationStatus(j, d.state)
        case Prepared => Plan([DropJournal], false)
        case Committed =>
          if objectiveConfig != j.objectiveConfig then REFUSED
          else
            var manifests := ManifestWrites(d.state, j.suggestions);
            var decisions := Publish(d.decisions, j.decisions);
            if decisions.None? then Plan(manifests, true)
            else
              var published := manifests + PublishWrites(d.decisions, decisions.value, PutDecisions(decisions.value));
              var events := Publish(d.events, j.events);
              if events.None? then Plan(published, true)
              else
                Plan(published + PublishWrites(d.events, events.value, PutEvents(events.value)) + [DropJournal], false)
        case _ => REFUSED
  }

  // ---- commit_allocation, with the part of prepare_batch that decides its snapshot --

  // A batch: fresh identifiers, the chosen points, and the running configuration.
  datatype Batch = Batch(
    allocationId: string, freshLineage: string, contract: nat, config: string, objectiveConfig: string,
    cores: seq<Core>, decisions: seq<string>, payload: string)

  function Digest(contract: nat, config: string): Fingerprint {
    if contract == 2 then Contract2(config) else Contract1(config)
  }

  // The snapshot _prepare_projection would install, or None when it raises.
  function NextSnapshot(s: State, b: Batch): Option<Snapshot> {
    var digest := Digest(b.contract, b.config);
    var previous := Pointer(s);
    if s.optimizer.None? && s.pending != [] then None
    else if b.contract == 2 && s.optimizer.None? && s.observations != [] then None
    else if b.contract == 2 && s.optimizer.Some?
            && (s.optimizer.value.format != 2
                || (s.optimizer.value.fingerprint != None && s.optimizer.value.fingerprint != Some(digest))) then None
    else if previous.Some? && previous.value.fingerprint != digest then None
    else
      Some(Snapshot(if b.contract == 2 then 2 else 1, digest,
                    if previous.Some? then previous.value.lineage else b.freshLineage,
                    if previous.Some? then previous.value.generation + 1 else 1,
                    if previous.Some? then previous.value.lastRebuild else None,
                    b.payload))
  }

  function NewTrials(next: nat, cores: seq<Core>): (r: seq<Trial>)
    ensures |r| == |cores| && forall i :: 0 <= i < |r| ==> r[i] == Trial(next + i, cores[i], "new")
  {
    seq(|cores|, i requires 0 <= i < |cores| => Trial(next + i, cores[i], "new"))
  }

  function NewJournal(s: State, b: Batch, snapshot: Snapshot): (j: Journal)
    requires |b.decisions| == |b.cores|
    ensures |j.decisions| == |j.events| == |j.suggestions| == |b.cores|
  {
    var owner := Allocation(b.allocationId);
    Journal(b.allocationId, Pointer(s), snapshot, b.objectiveConfig, NewTrials(s.nextTrialId, b.cores),
      seq(|b.cores|, i requires 0 <= i < |b.cores| => LogRow(owner, s.nextTrialId + i, Decision(b.decisions[i]))),
      seq(|b.cores|, i requires 0 <= i < |b.cores| => LogRow(owner, s.nextTrialId + i, SuggestionCreated(b.cores[i].suggestedAt))))
  }

  function AllocatedState(s: State, j: Journal): State {
    State(s.pending + j.suggestions, s.observations, s.nextTrialId + |j.suggestions|,
          Some(Optimizer(j.snapshot.format, Some(j.snapshot), Some(j.snapshot.fingerprint), j.snapshot.lastRebuild, None)))
  }

  function CommitAllocation(d: Disk, b: Batch): Plan {
    if |b.cores| == 0 || |b.decisions| != |b.cores| || b.allocationId == "" || PendingRebuild(d.state).Some? then REFUSED
    else
      var snapshot := NextSnapshot(d.state, b);
      if snapshot.None? || d.journal.Some? then REFUSED
      else
        var j := NewJournal(d.state, b, snapshot.value);
        var committed := d.(journal := Some(j), state := AllocatedState(d.state, j));
        var publication := RecoverAllocation(committed, b.objectiveConfig);
        Plan([PutJournal(j), PutState(committed.state)] + publication.writes, publication.failed)
  }

  // ---- recover_rebuild_event and rebuild_optimizer ----------------------------------

  function RebuildRow(e: RebuildEvent): LogRow {
    LogRow(Rebuild(e.recovery.rebuildId), 0, OptimizerRebuilt(e))
  }

  predicate ValidRebuildEvent(o: Optimizer, e: RebuildEvent) {
    o.lastRebuild == Some(e.recovery) && o.snapshot == Some(e.snapshot)
  }

  function Cleared(s: State): State {
    if s.optimizer.Some? then s.(optimizer := Some(s.optimizer.value.(pendingRebuild := None))) else s
  }

  function RecoverRebuild(d: Disk): Plan {
    if PendingRebuild(d.state).None? then NOTHING
    else
      var e := PendingRebuild(d.state).value;
      if !ValidRebuildEvent(d.state.optimizer.value, e) then REFUSED
      else
        var events := Publish(d.events, [RebuildRow(e)]);
        if events.None? then REFUSED
        else
          Plan(PublishWrites(d.events, events.value, PutEvents(events.value)) + [PutState(Cleared(d.state))], false)
  }

  // A rebuild request: fresh identifiers, the target configuration, and what the
  // old snapshot file and its recorded configuration look like.
  datatype RebuildRequest = RebuildRequest(
    rebuildId: string, lineage: string, target: nat, config: string, legacyConfig: string,
    snapshotReadable: bool, sourceVerified: bool, payload: string)

  predicate RebuildAllowed(s: State, r: RebuildRequest)
    requires s.optimizer.Some?
  {
    var o := s.optimizer.value;
    var prior := if r.snapshotReadable then o.snapshot else None;
    var known := if o.fingerprint.Some? then o.fingerprint
                 else if prior.Some? then Some(prior.value.fingerprint) else None;
    var digest := Digest(r.target, r.config);
    var upgrading := o.format == 1 && r.target == 2;
    var changed := known.Some? && known.value != digest;
    && (o.format == 2 ==> r.target == 2)
    && (o.format == 2 ==> known.Some?)
    && (r.target == 2 && (upgrading || changed) ==> s.pending == [])
    && (if upgrading then known == Some(Contract1(r.legacyConfig))
        else if r.target != 2 then !changed
        else if prior.Some? then r.sourceVerified
        else !changed)
  }

  function RebuiltState(s: State, r: RebuildRequest): State
    requires s.optimizer.Some?
  {
    var format := if r.target == 2 then 2 else 1;
    var recovery := Recovery(r.rebuildId, r.lineage, s.optimizer.value.format, format, |s.observations|, |s.pending|);
    var snapshot := Snapshot(format, Digest(r.target, r.config), r.lineage, 0, Some(recovery), r.payload);
    s.(optimizer := Some(Optimizer(format, Some(snapshot), Some(snapshot.fingerprint), Some(recovery),
                                   Some(RebuildEvent(recovery, snapshot)))))
  }

  function RebuildOptimizer(d: Disk, r: RebuildRequest): Plan {
    if d.state.optimizer.None? || d.journal.Some? || r.rebuildId == "" then REFUSED
    else if PendingRebuild(d.state).Some? then RecoverRebuild(d)
    else if !RebuildAllowed(d.state, r) then REFUSED
    else
      var committed := d.(state := RebuiltState(d.state, r));
      var publication := RecoverRebuild(committed);
      Plan([PutState(committed.state)] + publication.writes, publication.failed)
  }

  // ---- lifecycle commands -------------------------------------------------------------

  function IndexOf(rows: seq<Trial>, id: nat): (r: Option<nat>)
    ensures r.Some? ==> r.value < |rows| && rows[r.value].id == id
    ensures r.None? <==> forall t :: t in rows ==> t.id != id
  {
    if rows == [] then None
    else if rows[0].id == id then Some(0)
    else
      var rest := IndexOf(rows[1..], id);
      if rest.Some? then Some(rest.value + 1) else None
  }

  function FinishedState(s: State, i: nat, detail: string): State
    requires i < |s.pending|
  {
    s.(pending := s.pending[..i] + s.pending[i + 1..],
       observations := s.observations + [s.pending[i].(detail := detail)])
  }

  function Unowned(id: nat, text: string): LogRow {
    LogRow(Nobody, id, Lifecycle(text))
  }

  // ingest, cancel and retire: a pending trial becomes an observation. The event
  // is appended after the state is saved, except by retire.
  function FinishTrial(d: Disk, id: nat, detail: string, eventFirst: bool): Plan {
    var i := IndexOf(d.state.pending, id);
    if i.None? then REFUSED
    else
      var s := FinishedState(d.state, i.value, detail);
      var manifest := PutManifest(id, Manifest(s.observations[|s.observations| - 1], false));
      var event := PutEvents(d.events + [Unowned(id, detail)]);
      Plan(if eventFirst then [manifest, event, PutState(s)] else [manifest, PutState(s), event], false)
  }

  // The automatic retirement of stale trials by a suggestion: all end in one state
  // write, and their manifests and events follow.
  function RetiredState(s: State, ids: seq<nat>, detail: string): State
    decreases |ids|
  {
    if ids == [] then s
    else
      var i := IndexOf(s.pending, ids[0]);
      RetiredState(if i.None? then s else FinishedState(s, i.value, detail), ids[1..], detail)
  }

  function RetiredRows(s: State, ids: seq<nat>, detail: string): seq<Trial>
    decreases |ids|
  {
    if ids == [] then []
    else
      var i := IndexOf(s.pending, ids[0]);
      if i.None? then RetiredRows(s, ids[1..], detail)
      else [s.pending[i.value].(detail := detail)] + RetiredRows(FinishedState(s, i.value, detail), ids[1..], detail)
  }

  function RetirementWrites(events: Log, rows: seq<Trial>, detail: string): seq<Write>
    decreases |rows|
  {
    if rows == [] then []
    else
      var more := events + [Unowned(rows[0].id, detail)];
      [PutManifest(rows[0].id, Manifest(rows[0], false))] + ([PutEvents(more)] + RetirementWrites(more, rows[1..], detail))
  }

  function RetireStale(d: Disk, ids: seq<nat>, detail: string): Plan {
    var rows := RetiredRows(d.state, ids, detail);
    if rows == [] then NOTHING
    else Plan([PutState(RetiredState(d.state, ids, detail))] + RetirementWrites(d.events, rows, detail), false)
  }

  function BeatState(s: State, i: nat, detail: string): State
    requires i < |s.pending|
  {
    s.(pending := s.pending[i := s.pending[i].(detail := detail)])
  }

  function Heartbeat(d: Disk, id: nat, detail: string): Plan {
    var i := IndexOf(d.state.pending, id);
    if i.None? then REFUSED
    else
      var s := BeatState(d.state, i.value, detail);
      Plan([PutManifest(id, Manifest(s.pending[i.value], true)), PutState(s),
            PutEvents(d.events + [Unowned(id, "heartbeat")])], false)
  }

  // import-observations: historical rows take the next trial ids. It checks that
  // nothing is pending and that the contract matches, and never reads the journal.
  function ImportedState(s: State, cores: seq<Core>, contract: nat, config: string): State {
    var optimizer := if contract == 2 && s.optimizer.None?
                     then Some(Optimizer(2, None, Some(Contract2(config)), None, None)) else s.optimizer;
    State(s.pending, s.observations + NewTrials(s.nextTrialId, cores), s.nextTrialId + |cores|, optimizer)
  }

  function TerminalManifests(rows: seq<Trial>): seq<Write> {
    if rows == [] then []
    else [PutManifest(rows[0].id, Manifest(rows[0], false))] + TerminalManifests(rows[1..])
  }

  // There are rows, nothing is pending, the format is the contract's, and contract 2
  // does not start on top of observations.
  predicate Importable(s: State, cores: seq<Core>, contract: nat) {
    && s.pending == [] && cores != []
    && (s.optimizer.Some? ==> s.optimizer.value.format == if contract == 2 then 2 else 1)
    && (s.optimizer.None? && contract == 2 ==> s.observations == [])
  }

  function ImportObservations(d: Disk, cores: seq<Core>, contract: nat, config: string): Plan {
    var s := d.state;
    if !Importable(s, cores, contract) then REFUSED
    else
      Plan(TerminalManifests(NewTrials(s.nextTrialId, cores))
           + [PutState(ImportedState(s, cores, contract, config)),
              PutEvents(d.events + [Unowned(0, "observations_imported")])], false)
  }

  // Any other event or decision row: append_jsonl.
  function AppendEvent(d: Disk, text: string): Plan {
    Plan([PutEvents(d.events + [Unowned(0, text)])], false)
  }

  function AppendDecision(d: Disk, text: string): Plan {
    Plan([PutDecisions(d.decisions + [Unowned(0, text)])], false)
  }

  // ---- commands, crashes and runs ---------------------------------------------------------

  datatype Command =
    | DoRecoverAllocation(objectiveConfig: string)
    | DoCommitAllocation(batch: Batch)
    | DoRecoverRebuild
    | DoRebuild(request: RebuildRequest)
    | DoFinish(id: nat, detail: string, eventFirst: bool)
    | DoRetireStale(stale: seq<nat>, why: string)
    | DoHeartbeat(beat: nat, note: string)
    | DoImport(cores: seq<Core>, contract: nat, config: string)
    | DoAppendEvent(event: string)
    | DoAppendDecision(decision: string)

  function PlanOf(d: Disk, c: Command): Plan {
    match c
    case DoRecoverAllocation(cfg) => RecoverAllocation(d, cfg)
    case DoCommitAllocation(b) => CommitAllocation(d, b)
    case DoRecoverRebuild => RecoverRebuild(d)
    case DoRebuild(r) => RebuildOptimizer(d, r)
    case DoFinish(id, detail, eventFirst) => FinishTrial(d, id, detail, eventFirst)
    case DoRetireStale(ids, why) => RetireStale(d, ids, why)
    case DoHeartbeat(id, note) => Heartbeat(d, id, note)
    case DoImport(cores, contract, config) => ImportObservations(d, cores, contract, config)
    case DoAppendEvent(text) => AppendEvent(d, text)
    case DoAppendDecision(text) => AppendDecision(d, text)
  }

  // The process exits after at most `limit` of the plan's atomic writes.
  function Stopped(d: Disk, p: Plan, limit: nat): Disk {
    ApplyAll(d, p.writes[..if limit < |p.writes| then limit else |p.writes|])
  }

  // A command run under the campaign lock, cut off by a crash.
  function Crash(d: Disk, c: Command, limit: nat): Disk {
    Stopped(d, PlanOf(d, c), limit)
  }

  function Complete(d: Disk, c: Command): Disk {
    ApplyAll(d, PlanOf(d, c).writes)
  }

  const START := Disk(None, State([], [], 1, None), map[], [], [])
}
