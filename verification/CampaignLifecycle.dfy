// What the lifecycle commands do to the records, in terms of the trials they name.
module CampaignLifecycle {
  import opened Wrappers
  import opened CampaignData
  import opened CampaignLogs
  import opened Campaign
  import opened CampaignInvariant
  import opened CampaignIds
  import opened CampaignRecovery
  import opened CampaignRuns
  import opened CampaignAtomic

  // Nothing but the trials, the manifests and the events changed.
  predicate OnlyTrials(d: Disk, e: Disk) {
    && e.journal == d.journal && e.decisions == d.decisions && e.state.optimizer == d.state.optimizer
  }

  predicate NoneHas(rows: seq<Trial>, id: nat) {
    forall t :: t in rows ==> t.id != id
  }

  lemma ThreeComplete(d: Disk, c: Command)
    requires |PlanOf(d, c).writes| == 3
    ensures var ws := PlanOf(d, c).writes;
            Complete(d, c) == Apply(Apply(Apply(d, ws[0]), ws[1]), ws[2])
  {
    var ws := PlanOf(d, c).writes;
    hide PlanOf, Apply;
    StoppedThree(d, Plan(ws, false), 3);
    assert ws[..3] == ws;
  }

  // Main result: a terminal result moves exactly the trial it names from the pending
  // trials to the end of the observations, keeping its id and its point, writes its
  // terminal manifest, and appends one event; without such a trial it does nothing.
  lemma ResultMovesItsTrial(d: Disk, id: nat, detail: string, eventFirst: bool) returns (i: nat)
    ensures var e := Complete(d, DoFinish(id, detail, eventFirst));
            if NoneHas(d.state.pending, id) then e == d
            else
              && i < |d.state.pending| && d.state.pending[i].id == id
              && var row := Trial(id, d.state.pending[i].core, detail);
              && e.state.pending == d.state.pending[..i] + d.state.pending[i + 1..]
              && e.state.observations == d.state.observations + [row]
              && e.state.nextTrialId == d.state.nextTrialId && OnlyTrials(d, e)
              && e.manifests == d.manifests[id := Manifest(row, false)]
              && e.events == d.events + [LogRow(Nobody, id, Lifecycle(detail))]
  {
    var found := IndexOf(d.state.pending, id);
    i := if found.Some? then found.value else 0;
    if found.Some? {
      assert d.state.pending[i] in d.state.pending;
      ThreeComplete(d, DoFinish(id, detail, eventFirst));
      hide IndexOf, Complete;
    } else {
      assert NoneHas(d.state.pending, id);
      hide IndexOf;
    }
  }

  // A heartbeat changes only the details of the pending trial it names.
  lemma HeartbeatKeepsTrials(d: Disk, id: nat, note: string) returns (i: nat)
    ensures var e := Complete(d, DoHeartbeat(id, note));
            if NoneHas(d.state.pending, id) then e == d
            else
              && i < |d.state.pending| && d.state.pending[i].id == id
              && var row := Trial(id, d.state.pending[i].core, note);
              && e.state.pending == d.state.pending[i := row]
              && e.state.observations == d.state.observations
              && e.state.nextTrialId == d.state.nextTrialId && OnlyTrials(d, e)
              && e.manifests == d.manifests[id := Manifest(row, true)]
              && e.events == d.events + [LogRow(Nobody, id, Lifecycle("heartbeat"))]
  {
    var found := IndexOf(d.state.pending, id);
    i := if found.Some? then found.value else 0;
    if found.Some? {
      assert d.state.pending[i] in d.state.pending;
      ThreeComplete(d, DoHeartbeat(id, note));
      hide IndexOf, Complete;
    } else {
      assert NoneHas(d.state.pending, id);
      hide IndexOf;
    }
  }

  // ---- retirement ---------------------------------------------------------------------------

  function Without(rows: seq<Trial>, ids: seq<nat>): seq<Trial> {
    if rows == [] then []
    else Without(rows[..|rows| - 1], ids) + if rows[|rows| - 1].id in ids then [] else [rows[|rows| - 1]]
  }

  predicate DistinctTrials(rows: seq<Trial>) {
    forall i, j :: 0 <= i < j < |rows| ==> rows[i].id != rows[j].id
  }

  lemma {:induction false} WithoutNone(rows: seq<Trial>)
    ensures Without(rows, []) == rows
  {
    if rows != [] { WithoutNone(rows[..|rows| - 1]); }
  }

  lemma {:induction false} WithoutConcat(a: seq<Trial>, b: seq<Trial>, ids: seq<nat>)
    ensures Without(a + b, ids) == Without(a, ids) + Without(b, ids)
  {
    if b == [] {
      assert a + b == a;
    } else {
      var n := |b| - 1;
      WithoutConcat(a, b[..n], ids);
      assert (a + b)[..|a + b| - 1] == a + b[..n];
    }
  }

  lemma {:induction false} WithoutMissing(rows: seq<Trial>, id: nat, ids: seq<nat>)
    requires NoneHas(rows, id)
    ensures Without(rows, [id] + ids) == Without(rows, ids)
  {
    if rows != [] {
      assert rows[|rows| - 1] in rows;
      WithoutMissing(rows[..|rows| - 1], id, ids);
    }
  }

  lemma WithoutOne(rows: seq<Trial>, i: nat, ids: seq<nat>)
    requires DistinctTrials(rows) && i < |rows|
    ensures Without(rows, [rows[i].id] + ids) == Without(rows[..i] + rows[i + 1..], ids)
  {
    var a, x, b, id := rows[..i], rows[i], rows[i + 1..], rows[i].id;
    assert rows == (a + [x]) + b;
    OthersDiffer(rows, i);
    WithoutSelf(x, ids);
    hide Without, NoneHas, DistinctTrials;
    WithoutConcat(a + [x], b, [id] + ids);
    WithoutConcat(a, [x], [id] + ids);
    WithoutMissing(a, id, ids);
    WithoutMissing(b, id, ids);
    WithoutConcat(a, b, ids);
  }

  lemma OthersDiffer(rows: seq<Trial>, i: nat)
    requires DistinctTrials(rows) && i < |rows|
    ensures NoneHas(rows[..i], rows[i].id) && NoneHas(rows[i + 1..], rows[i].id)
  {
  }

  lemma WithoutSelf(x: Trial, ids: seq<nat>)
    ensures Without([x], [x.id] + ids) == []
  {
    assert [x][..0] == [];
  }

  // A pending trial of this id, ended with this detail.
  predicate Ended(rows: seq<Trial>, t: Trial, detail: string) {
    exists p :: p in rows && p.id == t.id && p.core == t.core && t.detail == detail
  }

  // The rows appended: each is a named pending trial, and each of those is appended.
  predicate RowsOfStale(rows: seq<Trial>, s: State, ids: seq<nat>, detail: string) {
    && (forall t :: t in rows ==> t.id in ids && Ended(s.pending, t, detail))
    && (forall p :: p in s.pending && p.id in ids ==> Trial(p.id, p.core, detail) in rows)
  }

  // Main result: the automatic retirement leaves pending exactly the trials it does not
  // name, in order, and appends to the observations each pending trial it names, with
  // its id and point, and nothing else.
  lemma {:induction false} RetirementMovesTheStale(s: State, ids: seq<nat>, detail: string)
    requires DistinctTrials(s.pending)
    ensures var r := RetiredState(s, ids, detail);
            && r.pending == Without(s.pending, ids)
            && r.observations == s.observations + RetiredRows(s, ids, detail)
            && r.nextTrialId == s.nextTrialId && r.optimizer == s.optimizer
    ensures RowsOfStale(RetiredRows(s, ids, detail), s, ids, detail)
    decreases |ids|
  {
    if ids == [] {
      WithoutNone(s.pending);
    } else {
      var found := IndexOf(s.pending, ids[0]);
      assert ids == [ids[0]] + ids[1..];
      if found.None? {
        assert NoneHas(s.pending, ids[0]);
        hide Without, IndexOf, DistinctTrials, RowsOfStale;
        WithoutMissing(s.pending, ids[0], ids[1..]);
        RetirementMovesTheStale(s, ids[1..], detail);
        MissingIsNoRow(RetiredRows(s, ids[1..], detail), s, ids, detail);
      } else {
        var i := found.value;
        var rest := FinishedState(s, i, detail);
        var row := s.pending[i].(detail := detail);
        assert s.observations + ([row] + RetiredRows(rest, ids[1..], detail))
            == s.observations + [row] + RetiredRows(rest, ids[1..], detail);
        OthersStay(s, i, detail);
        hide Without, IndexOf, DistinctTrials, RowsOfStale;
        WithoutOne(s.pending, i, ids[1..]);
        RetirementMovesTheStale(rest, ids[1..], detail);
        OneMoreRow(RetiredRows(rest, ids[1..], detail), s, i, ids, detail);
      }
    }
  }

  lemma MissingIsNoRow(rows: seq<Trial>, s: State, ids: seq<nat>, detail: string)
    requires ids != [] && NoneHas(s.pending, ids[0]) && RowsOfStale(rows, s, ids[1..], detail)
    ensures RowsOfStale(rows, s, ids, detail)
  {
    hide Ended;
  }

  lemma OneMoreRow(rows: seq<Trial>, s: State, i: nat, ids: seq<nat>, detail: string)
    requires DistinctTrials(s.pending) && i < |s.pending| && ids != [] && s.pending[i].id == ids[0]
    requires RowsOfStale(rows, FinishedState(s, i, detail), ids[1..], detail)
    ensures RowsOfStale([s.pending[i].(detail := detail)] + rows, s, ids, detail)
  {
    var rest, all := FinishedState(s, i, detail), [s.pending[i].(detail := detail)] + rows;
    OthersStay(s, i, detail);
    hide FinishedState, DistinctTrials;
    forall t | t in all ensures t.id in ids && Ended(s.pending, t, detail) {
      if t in rows {
        var p :| p in rest.pending && p.id == t.id && p.core == t.core && t.detail == detail;
        assert p in s.pending;
      } else {
        assert s.pending[i] in s.pending;
      }
    }
    forall p | p in s.pending && p.id in ids ensures Trial(p.id, p.core, detail) in all {
      if p.id == ids[0] { SameTrial(s.pending, i, p); } else { assert p in rest.pending; }
    }
  }

  lemma SameTrial(rows: seq<Trial>, i: nat, p: Trial)
    requires DistinctTrials(rows) && i < |rows| && p in rows && p.id == rows[i].id
    ensures p == rows[i]
  {
    var k :| 0 <= k < |rows| && rows[k] == p;
  }

  lemma OthersStay(s: State, i: nat, detail: string)
    requires i < |s.pending| && DistinctTrials(s.pending)
    ensures DistinctTrials(FinishedState(s, i, detail).pending)
    ensures forall p :: p in FinishedState(s, i, detail).pending <==> p in s.pending && p.id != s.pending[i].id
  {
    var rest := FinishedState(s, i, detail).pending;
    forall p | p in s.pending && p.id != s.pending[i].id ensures p in rest {
      var k :| 0 <= k < |s.pending| && s.pending[k] == p;
      assert k < i ==> rest[k] == p;
      assert k > i ==> rest[k - 1] == p;
    }
  }

  // ---- import ---------------------------------------------------------------------------------

  predicate ImportedRows(rows: seq<Trial>, cores: seq<Core>, first: nat) {
    |rows| == |cores| && forall i :: 0 <= i < |rows| ==> rows[i].id == first + i && rows[i].core == cores[i]
  }

  // Main result: an import is refused exactly if it has no rows, a trial is pending, the
  // optimizer's format is not the contract's, or contract 2 would start on observations.
  lemma ImportRefusedExactly(d: Disk, cores: seq<Core>, contract: nat, config: string)
    ensures ImportObservations(d, cores, contract, config).failed <==>
            || |cores| == 0 || |d.state.pending| > 0
            || match d.state.optimizer
               case Some(o) => (contract == 2 && o.format != 2) || (contract != 2 && o.format != 1)
               case None => contract == 2 && |d.state.observations| > 0
    ensures ImportObservations(d, cores, contract, config).failed ==> ImportObservations(d, cores, contract, config).writes == []
  {
    hide TerminalManifests, ImportedState, NewTrials;
  }

  // Main result: an import that is taken appends its rows to the observations under the
  // next ids, and under contract 2 marks a campaign without an optimizer with its
  // configuration.
  lemma ImportAppendsItsRows(s: State, cores: seq<Core>, contract: nat, config: string)
    ensures var r := ImportedState(s, cores, contract, config);
            && r.pending == s.pending && |r.observations| == |s.observations| + |cores|
            && s.observations <= r.observations && r.nextTrialId == s.nextTrialId + |cores|
            && ImportedRows(r.observations[|s.observations|..], cores, s.nextTrialId)
            && (if contract == 2 && s.optimizer == None
                then r.optimizer.Some? && r.optimizer.value.format == 2 && r.optimizer.value.snapshot == None
                     && r.optimizer.value.fingerprint == Some(Contract2(config)) && r.optimizer.value.pendingRebuild == None
                else r.optimizer == s.optimizer)
  {
    var rows := NewTrials(s.nextTrialId, cores);
    assert (s.observations + rows)[|s.observations|..] == rows;
  }

  // ---- rebuild --------------------------------------------------------------------------------

  // Main result: a rebuild never goes from contract 2 back to 1. From 1 to 2 it needs the
  // legacy configuration it started with and nothing outstanding. Within contract 1 the
  // configuration must be unchanged. Within contract 2 it needs a recorded configuration,
  // which may change only with nothing outstanding and with a readable snapshot, and a
  // readable snapshot must match it.
  lemma RebuildAllowedMeans(s: State, r: RebuildRequest)
    requires s.optimizer.Some? && (s.optimizer.value.format == 1 || s.optimizer.value.format == 2)
    ensures var o := s.optimizer.value;
            var readable := r.snapshotReadable && o.snapshot.Some?;
            var recorded := if o.fingerprint.Some? then o.fingerprint
                            else if readable then Some(o.snapshot.value.fingerprint) else None;
            RebuildAllowed(s, r) <==>
              if o.format == 2 then
                && r.target == 2 && recorded.Some?
                && (recorded != Some(Contract2(r.config)) ==> s.pending == [] && readable)
                && (readable ==> r.sourceVerified)
              else if r.target == 2 then recorded == Some(Contract1(r.legacyConfig)) && s.pending == []
              else recorded.Some? ==> recorded == Some(Contract1(r.config))
  {
  }

  // What a rebuild records of the state it started from.
  lemma RebuildRecordsItsSource(s: State, r: RebuildRequest)
    requires s.optimizer.Some?
    ensures var n := RebuiltState(s, r);
            && n.pending == s.pending && n.observations == s.observations && n.nextTrialId == s.nextTrialId
            && PendingRebuild(n).Some?
            && var e := PendingRebuild(n).value;
            && Pointer(n) == Some(e.snapshot) && n.optimizer.value.format == e.snapshot.format
            && n.optimizer.value.fingerprint == Some(e.snapshot.fingerprint)
            && n.optimizer.value.lastRebuild == Some(e.recovery)
            && e.recovery.sourceFormat == s.optimizer.value.format
            && e.recovery.observations == |s.observations| && e.recovery.pending == |s.pending|
  {
  }

  predicate TerminalAt(manifests: map<nat, Manifest>, id: nat, core: Core) {
    id in manifests && manifests[id].row.id == id && manifests[id].row.core == core && !manifests[id].pending
  }

  lemma {:induction false} TerminalManifestsApply(d: Disk, rows: seq<Trial>)
    requires DistinctTrials(rows)
    ensures var m := ApplyAll(d, TerminalManifests(rows)).manifests;
            && (forall i :: 0 <= i < |rows| ==> TerminalAt(m, rows[i].id, rows[i].core))
            && (forall id :: NoneHas(rows, id) ==> (id in m <==> id in d.manifests) && (id in m ==> m[id] == d.manifests[id]))
    decreases |rows|
  {
    if rows != [] {
      var w := PutManifest(rows[0].id, Manifest(rows[0], false));
      ManifestsOfRest(d, w, rows);
      TerminalManifestsApply(Apply(d, w), rows[1..]);
      hide TerminalManifests, ApplyAll;
      assert NoneHas(rows[1..], rows[0].id);
      forall i | 0 <= i < |rows|
        ensures TerminalAt(ApplyAll(Apply(d, w), TerminalManifests(rows[1..])).manifests, rows[i].id, rows[i].core)
      {
        if i > 0 { assert rows[1..][i - 1] == rows[i]; }
      }
    }
  }

  lemma ManifestsOfRest(d: Disk, w: Write, rows: seq<Trial>)
    requires rows != [] && w == PutManifest(rows[0].id, Manifest(rows[0], false))
    ensures ApplyAll(d, TerminalManifests(rows)) == ApplyAll(Apply(d, w), TerminalManifests(rows[1..]))
  {
    assert ([w] + TerminalManifests(rows[1..]))[1..] == TerminalManifests(rows[1..]);
    hide Apply;
  }

  // Imported rows get terminal manifests.
  lemma ImportWritesTerminalManifests(d: Disk, cores: seq<Core>)
    ensures var m := ApplyAll(d, TerminalManifests(NewTrials(d.state.nextTrialId, cores))).manifests;
            forall i :: 0 <= i < |cores| ==> TerminalAt(m, NewTrials(d.state.nextTrialId, cores)[i].id, cores[i])
  {
    TerminalManifestsApply(d, NewTrials(d.state.nextTrialId, cores));
  }

  // A result and a heartbeat fail exactly without their trial, a retirement and a log
  // row never.
  lemma FailsWithoutItsTrial(d: Disk, id: nat, text: string, eventFirst: bool, ids: seq<nat>)
    ensures FinishTrial(d, id, text, eventFirst).failed <==> NoneHas(d.state.pending, id)
    ensures Heartbeat(d, id, text).failed <==> NoneHas(d.state.pending, id)
    ensures !RetireStale(d, ids, text).failed && !AppendEvent(d, text).failed && !AppendDecision(d, text).failed
  {
    var found := IndexOf(d.state.pending, id);
    if found.Some? { assert d.state.pending[found.value] in d.state.pending; }
    hide IndexOf, FinishedState, BeatState, RetiredState, RetiredRows, RetirementWrites;
  }

  // ---- the order of the writes -----------------------------------------------------------------

  // Where a write of a batch comes: the journal, the state, then publication.
  function BatchStage(w: Write): nat {
    match w
    case PutJournal(_) => 0
    case PutState(_) => 1
    case PutManifest(_, _) => 2
    case PutDecisions(_) => 3
    case PutEvents(_) => 4
    case DropJournal => 5
  }

  predicate Staged(ws: seq<Write>) {
    forall i, j :: 0 <= i < j < |ws| ==> BatchStage(ws[i]) <= BatchStage(ws[j])
  }

  lemma StagedConcat(a: seq<Write>, b: seq<Write>, k: nat)
    requires Staged(a) && Staged(b)
    requires (forall w :: w in a ==> BatchStage(w) <= k) && (forall w :: w in b ==> BatchStage(w) >= k)
    ensures Staged(a + b)
  {
    var all := a + b;
    forall i, j | 0 <= i < j < |all| ensures BatchStage(all[i]) <= BatchStage(all[j]) {
      if i < |a| <= j { assert all[i] in a && all[j] in b; }
    }
  }

  // Main result: recovery writes manifests, then decisions, then events, and drops the
  // journal last; a commit writes its journal, then the state, and then recovers. So a
  // journal is there from before the state changes until everything is published.
  lemma PublicationIsStaged(d: Disk, cfg: string)
    ensures Staged(RecoverAllocation(d, cfg).writes)
    ensures forall w :: w in RecoverAllocation(d, cfg).writes ==> BatchStage(w) >= 2
  {
    var a, b, c, e := PublicationParts(d, cfg);
    hide *;
    StagedParts(a, b, c, e);
  }

  // The writes of a recovery: manifests, at most one write to either log, and at most
  // the removal of the journal.
  lemma PublicationParts(d: Disk, cfg: string) returns (a: seq<Write>, b: seq<Write>, c: seq<Write>, e: seq<Write>)
    ensures RecoverAllocation(d, cfg).writes == a + b + c + e
    ensures AllAt(a, 2) && AllAt(b, 3) && AllAt(c, 4) && AllAt(e, 5)
  {
    a, b, c, e := [], [], [], [];
    if d.journal.Some? && ValidJournal(d.journal.value) {
      var j := d.journal.value;
      ManifestWritesAreManifests(d.state, j.suggestions);
      var decisions, events := Publish(d.decisions, j.decisions), Publish(d.events, j.events);
      match AllocationStatus(j, d.state)
      case Prepared => e := [DropJournal];
      case Committed =>
        if cfg == j.objectiveConfig {
          a := ManifestWrites(d.state, j.suggestions);
          hide ManifestWrites, Publish, AllocationStatus, ValidJournal;
          if decisions.Some? {
            b := PublishWrites(d.decisions, decisions.value, PutDecisions(decisions.value));
            if events.Some? {
              c := PublishWrites(d.events, events.value, PutEvents(events.value));
              e := [DropJournal];
            }
          }
        }
      case _ =>
    }
  }

  predicate AllAt(ws: seq<Write>, stage: nat) {
    forall w :: w in ws ==> BatchStage(w) == stage
  }

  lemma StagedParts(a: seq<Write>, b: seq<Write>, c: seq<Write>, e: seq<Write>)
    requires AllAt(a, 2) && AllAt(b, 3) && AllAt(c, 4) && AllAt(e, 5)
    ensures Staged(a + b + c + e) && forall w :: w in a + b + c + e ==> BatchStage(w) >= 2
  {
    hide BatchStage;
    StagedConcat(a, b, 3);
    StagedConcat(a + b, c, 4);
    StagedConcat(a + b + c, e, 5);
  }

  lemma CommitIsStaged(d: Disk, b: Batch)
    ensures var ws := CommitAllocation(d, b).writes;
            Staged(ws) && (ws != [] ==> |ws| >= 2 && ws[0].PutJournal? && ws[1].PutState?)
  {
    if Allocatable(d, b) {
      var j := JournalFor(d, b);
      var d2 := d.(journal := Some(j), state := AllocatedState(d.state, j));
      var rest := RecoverAllocation(d2, b.objectiveConfig).writes;
      PublicationIsStaged(d2, b.objectiveConfig);
      CommitShape(d, History([], {}, false), b, 2);
      hide CommitAllocation, RecoverAllocation, Allocatable, JournalFor, AllocatedState;
      StagedConcat([PutState(d2.state)], rest, 2);
      StagedConcat([PutJournal(j)], [PutState(d2.state)] + rest, 1);
    } else {
      assert CommitAllocation(d, b) == REFUSED;
    }
  }

  // A rebuild writes the state first, then at most its event, and clears the state last;
  // an import writes its manifests, then the state, then one event; a retirement writes
  // the state first; a result and a heartbeat write a manifest first, and the state before
  // the event unless the event is to come first.
  lemma OtherWritesInOrder(d: Disk, r: RebuildRequest, cores: seq<Core>, contract: nat, config: string, id: nat, text: string,
                           eventFirst: bool, ids: seq<nat>)
    ensures var ws := RebuildOptimizer(d, r).writes;
            Rebuildable(d, r) ==>
              |ws| >= 1 && ws[0].PutState? && PendingRebuild(ws[0].state).Some?
              && (|ws| > 1 ==> ws[|ws| - 1].PutState? && PendingRebuild(ws[|ws| - 1].state).None? && |ws| <= 3)
              && (|ws| == 3 ==> ws[1].PutEvents?)
    ensures var ws := ImportObservations(d, cores, contract, config).writes;
            ws != [] ==> |ws| == |cores| + 2 && (forall i :: 0 <= i < |cores| ==> ws[i].PutManifest?)
                         && ws[|cores|].PutState? && ws[|cores| + 1].PutEvents?
    ensures var ws := RetireStale(d, ids, text).writes;
            ws != [] ==> ws[0].PutState?
    ensures var ws := FinishTrial(d, id, text, eventFirst).writes;
            ws != [] ==> |ws| == 3 && ws[0].PutManifest?
                         && (if eventFirst then ws[1].PutEvents? && ws[2].PutState? else ws[1].PutState? && ws[2].PutEvents?)
    ensures var ws := Heartbeat(d, id, text).writes;
            ws != [] ==> |ws| == 3 && ws[0].PutManifest? && ws[1].PutState? && ws[2].PutEvents?
  {
    TerminalManifestsAreManifests(NewTrials(d.state.nextTrialId, cores));
    hide TerminalManifests, NewTrials, ImportedState, IndexOf, RetiredRows, RetiredState, RetirementWrites, FinishedState,
         BeatState, RebuildAllowed, Publish;
  }
}
