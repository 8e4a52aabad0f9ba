// Every command, crashed anywhere, keeps the invariant; so every run does.
module CampaignRuns {
  import opened Wrappers
  import opened CampaignData
  import opened CampaignLogs
  import opened Campaign
  import opened CampaignInvariant
  import opened CampaignIds
  import opened CampaignRecovery

  datatype Sys = Sys(disk: Disk, history: History)

  const INITIAL := Sys(START, History([], {}, false))

  // uuid4 never repeats.
  predicate FreshIds(c: Command, h: History) {
    match c
    case DoCommitAllocation(b) => b.allocationId !in h.used
    case DoRebuild(r) => r.rebuildId !in h.used
    case _ => true
  }

  // The history after a command that performed at most `limit` writes: commits
  // happen at the state write.
  function HistoryAfter(d: Disk, h: History, c: Command, limit: nat): History {
    var writes := PlanOf(d, c).writes;
    match c
    case DoCommitAllocation(b) =>
      var drawn := h.(used := h.used + {b.allocationId});
      if limit >= 2 && |writes| >= 2 && writes[0].PutJournal?
      then drawn.(commits := h.commits + [Allocated(writes[0].journal)]) else drawn
    case DoRebuild(r) =>
      var drawn := h.(used := h.used + {r.rebuildId});
      if limit >= 1 && |writes| >= 1 && PendingRebuild(d.state).None? && writes[0].PutState?
         && PendingRebuild(writes[0].state).Some?
      then drawn.(commits := h.commits + [Rebuilt(PendingRebuild(writes[0].state).value)]) else drawn
    case DoImport(cores, _, _) =>
      if limit > |cores| && writes != [] && d.journal.Some? && Pointer(d.state) != Some(d.journal.value.snapshot)
      then h.(overrun := true) else h
    case _ => h
  }

  function After(sys: Sys, c: Command, limit: nat): Sys {
    Sys(Crash(sys.disk, c, limit), HistoryAfter(sys.disk, sys.history, c, limit))
  }

  // ---- small changes ---------------------------------------------------------------------

  lemma SwapState(d: Disk, h: History, s: State)
    requires Inv(d, h) && Numbered(s)
    requires s.optimizer == d.state.optimizer && s.nextTrialId == d.state.nextTrialId
    requires forall t :: Has(Rows(d.state), t) ==> Has(Rows(s), t)
    ensures Inv(d.(state := s), h)
  {
    hide BlockForm, Numbered, HistoryOK, Has;
  }

  lemma UnownedEvent(d: Disk, h: History, row: LogRow)
    requires Inv(d, h) && row.owner == Nobody
    ensures Inv(d.(events := d.events + [row]), h)
  {
    hide BlockForm, Numbered, HistoryOK, Has, Kept, OptimizerOK, EventsOf, DecisionsOf, ValidJournal;
    if EventsAt(d, h.commits) { UnownedAppends(d.events, row, EventsOf(h.commits)); }
    if h.commits != [] && EventsAt(d, Earlier(h)) { UnownedAppends(d.events, row, EventsOf(Earlier(h))); }
  }

  lemma UnownedDecision(d: Disk, h: History, row: LogRow)
    requires Inv(d, h) && row.owner == Nobody
    ensures Inv(d.(decisions := d.decisions + [row]), h)
  {
    hide BlockForm, Numbered, HistoryOK, Has, Kept, OptimizerOK;
    if DecisionsAt(d, h.commits) { UnownedAppends(d.decisions, row, DecisionsOf(h.commits)); }
    if h.commits != [] && DecisionsAt(d, Earlier(h)) { UnownedAppends(d.decisions, row, DecisionsOf(Earlier(h))); }
  }

  lemma AnyManifests(d: Disk, h: History, m: map<nat, Manifest>)
    requires Inv(d, h)
    ensures Inv(d.(manifests := m), h)
  {
    hide BlockForm, Numbered, HistoryOK, Kept, OptimizerOK;
  }

  lemma DrawId(d: Disk, h: History, id: string)
    requires Inv(d, h)
    ensures Inv(d, h.(used := h.used + {id}))
  {
    hide BlockForm, Numbered, Kept, OptimizerOK, HistoryOK, ValidJournal, Pointer, PendingRebuild, EventsOf, DecisionsOf;
    UsedGrows(h, id);
  }

  // ---- a trial ends or beats ---------------------------------------------------------------

  lemma FinishedKeeps(s: State, i: nat, detail: string)
    requires Numbered(s) && i < |s.pending|
    ensures Numbered(FinishedState(s, i, detail))
    ensures forall t :: Has(Rows(s), t) ==> Has(Rows(FinishedState(s, i, detail)), t)
  {
    FinishedIds(s, i, detail);
    hide Numbered;
    var f := FinishedState(s, i, detail);
    forall t | Has(Rows(s), t) ensures Has(Rows(f), t) {
      var r :| r in Rows(s) && r.id == t.id && r.core == t.core;
      FinishedRow(s, i, detail, r);
    }
  }

  lemma FinishedIds(s: State, i: nat, detail: string)
    requires Numbered(s) && i < |s.pending|
    ensures Numbered(FinishedState(s, i, detail))
  {
    var f := FinishedState(s, i, detail);
    var a, x, b := s.pending[..i], s.pending[i], s.pending[i + 1..];
    assert s.pending == (a + [x]) + b;
    hide Ids;
    MovedIds(a, x, b, s.observations, x.(detail := detail));
  }

  lemma MovedIds(a: seq<Trial>, x: Trial, b: seq<Trial>, o: seq<Trial>, y: Trial)
    requires x.id == y.id
    ensures multiset(Ids(((a + [x]) + b) + o)) == multiset(Ids((a + b) + (o + [y])))
  {
    assert Ids([x]) == Ids([y]);
    hide Ids;
    IdsAppend((a + [x]) + b, o);
    IdsAppend(a + [x], b);
    IdsAppend(a, [x]);
    IdsAppend(a + b, o + [y]);
    IdsAppend(a, b);
    IdsAppend(o, [y]);
    Rotated(Ids(a), Ids([x]), Ids(b), Ids(o));
  }

  lemma Rotated(a: seq<nat>, x: seq<nat>, b: seq<nat>, c: seq<nat>)
    ensures multiset(((a + x) + b) + c) == multiset((a + b) + (c + x))
  {
  }

  lemma FinishedRow(s: State, i: nat, detail: string, r: Trial)
    requires i < |s.pending| && r in Rows(s)
    ensures exists q :: q in Rows(FinishedState(s, i, detail)) && q.id == r.id && q.core == r.core
  {
    var f := FinishedState(s, i, detail);
    if r == s.pending[i] {
      assert s.pending[i].(detail := detail) in Rows(f);
    } else {
      assert s.pending == s.pending[..i] + [s.pending[i]] + s.pending[i + 1..];
      assert r in Rows(f);
    }
  }

  lemma BeatKeeps(s: State, i: nat, detail: string)
    requires Numbered(s) && i < |s.pending|
    ensures Numbered(BeatState(s, i, detail))
    ensures forall t :: Has(Rows(s), t) ==> Has(Rows(BeatState(s, i, detail)), t)
  {
    var f := BeatState(s, i, detail);
    assert Ids(Rows(f)) == Ids(Rows(s));
    forall t | Has(Rows(s), t) ensures Has(Rows(f), t) {
      var r :| r in Rows(s) && r.id == t.id && r.core == t.core;
      var k :| 0 <= k < |Rows(s)| && Rows(s)[k] == r;
      assert Rows(f)[k] in Rows(f) && Rows(f)[k].id == r.id && Rows(f)[k].core == r.core;
    }
  }

  // Three writes, each of which keeps the invariant.
  lemma ThreeWrites(d: Disk, h: History, p: Plan, limit: nat)
    requires |p.writes| == 3 && Inv(d, h)
    requires Inv(Apply(d, p.writes[0]), h) && Inv(Apply(Apply(d, p.writes[0]), p.writes[1]), h)
    requires Inv(Apply(Apply(Apply(d, p.writes[0]), p.writes[1]), p.writes[2]), h)
    ensures Inv(Stopped(d, p, limit), h)
  {
    hide Inv, Apply;
    var ws := p.writes;
    var d1 := Apply(d, ws[0]);
    var d2 := Apply(d1, ws[1]);
    assert Safe(Apply(d2, ws[2]), [], h);
    assert ws[1..][1..] == [ws[2]] && [ws[2]][1..] == [];
    assert Safe(d2, [ws[2]], h);
    assert ws[1..][0] == ws[1] && Safe(d1, ws[1..], h);
    assert Safe(d, ws, h);
    SafeStops(d, p, h, limit);
  }

  lemma SafeStops(d: Disk, p: Plan, h: History, limit: nat)
    requires Safe(d, p.writes, h)
    ensures Inv(Stopped(d, p, limit), h)
  {
    hide Safe, Inv;
    SafePrefix(d, p.writes, h, if limit < |p.writes| then limit else |p.writes|);
  }

  lemma RefusedStops(d: Disk, p: Plan, limit: nat)
    requires p.writes == []
    ensures Stopped(d, p, limit) == d
  {
  }

  lemma ThreeWritesSwap(d: Disk, h: History, p: Plan, s: State, row: LogRow, limit: nat)
    requires Inv(d, h) && Numbered(s) && row.owner == Nobody
    requires s.optimizer == d.state.optimizer && s.nextTrialId == d.state.nextTrialId
    requires forall t :: Has(Rows(d.state), t) ==> Has(Rows(s), t)
    requires |p.writes| == 3 && p.writes[0].PutManifest?
    requires (p.writes[1] == PutState(s) && p.writes[2] == PutEvents(d.events + [row]))
          || (p.writes[2] == PutState(s) && p.writes[1] == PutEvents(d.events + [row]))
    ensures Inv(Stopped(d, p, limit), h)
  {
    hide *;
    var d1, event := Apply(d, p.writes[0]), PutEvents(d.events + [row]);
    ApplyIs(d, p.writes[0]);
    ApplyIs(d1, event);
    ApplyIs(d1, PutState(s));
    ApplyIs(d1.(state := s), event);
    ApplyIs(d1.(events := d.events + [row]), PutState(s));
    AnyManifests(d, h, d1.manifests);
    SwapState(d1, h, s);
    UnownedEvent(d1, h, row);
    UnownedEvent(d1.(state := s), h, row);
    ThreeWrites(d, h, p, limit);
  }

  lemma FinishStep(d: Disk, h: History, id: nat, detail: string, eventFirst: bool, limit: nat)
    requires Inv(d, h)
    ensures Inv(Stopped(d, FinishTrial(d, id, detail, eventFirst), limit), h)
  {
    var i := IndexOf(d.state.pending, id);
    var p := FinishTrial(d, id, detail, eventFirst);
    if i.Some? {
      FinishedKeeps(d.state, i.value, detail);
      hide Stopped, Has, Rows, Inv, Numbered;
      ThreeWritesSwap(d, h, p, FinishedState(d.state, i.value, detail), Unowned(id, detail), limit);
    } else {
      RefusedStops(d, p, limit);
    }
  }

  lemma {:induction false} RetiredKeeps(s: State, ids: seq<nat>, detail: string)
    requires Numbered(s)
    ensures var r := RetiredState(s, ids, detail);
            && Numbered(r) && r.optimizer == s.optimizer && r.nextTrialId == s.nextTrialId
            && forall t :: Has(Rows(s), t) ==> Has(Rows(r), t)
    decreases |ids|
  {
    hide Numbered, Has, Rows;
    if ids != [] {
      var i := IndexOf(s.pending, ids[0]);
      if i.Some? { FinishedKeeps(s, i.value, detail); }
      RetiredKeeps(if i.None? then s else FinishedState(s, i.value, detail), ids[1..], detail);
    }
  }

  lemma {:induction false} RetirementIsSafe(d: Disk, h: History, rows: seq<Trial>, detail: string)
    requires Inv(d, h)
    ensures Safe(d, RetirementWrites(d.events, rows, detail), h)
    decreases |rows|
  {
    hide Inv, Safe, Apply;
    if rows == [] {
      SafeNothing(d, h);
    } else {
      var row := Unowned(rows[0].id, detail);
      var manifest, event := PutManifest(rows[0].id, Manifest(rows[0], false)), PutEvents(d.events + [row]);
      var d1 := Apply(d, manifest);
      ApplyIs(d, manifest);
      AnyManifests(d, h, d1.manifests);
      UnownedEvent(d1, h, row);
      ApplyIs(d1, event);
      RetirementIsSafe(Apply(d1, event), h, rows[1..], detail);
      SafeFirst(d1, event, RetirementWrites(d.events + [row], rows[1..], detail), h);
      SafeFirst(d, manifest, [event] + RetirementWrites(d.events + [row], rows[1..], detail), h);
    }
  }

  lemma SafeNothing(d: Disk, h: History)
    requires Inv(d, h)
    ensures Safe(d, [], h)
  {
    hide Inv;
  }

  lemma SafeFirst(d: Disk, w: Write, rest: seq<Write>, h: History)
    requires Inv(d, h) && Safe(Apply(d, w), rest, h)
    ensures Safe(d, [w] + rest, h)
  {
    hide Inv, Apply;
    assert ([w] + rest)[1..] == rest;
  }

  lemma ApplyIs(d: Disk, w: Write)
    ensures w.PutManifest? ==> Apply(d, w) == d.(manifests := Apply(d, w).manifests)
    ensures w.PutEvents? ==> Apply(d, w) == d.(events := w.log)
    ensures w.PutState? ==> Apply(d, w) == d.(state := w.state)
  {
  }

  lemma RetireStep(d: Disk, h: History, ids: seq<nat>, detail: string, limit: nat)
    requires Inv(d, h)
    ensures Inv(Stopped(d, RetireStale(d, ids, detail), limit), h)
  {
    var p, rows := RetireStale(d, ids, detail), RetiredRows(d.state, ids, detail);
    if rows == [] {
      RefusedStops(d, p, limit);
    } else {
      var s := RetiredState(d.state, ids, detail);
      assert Numbered(d.state) by { hide BlockForm, HistoryOK, Kept, OptimizerOK; }
      RetiredKeeps(d.state, ids, detail);
      hide Inv, Stopped, Safe, Apply, Numbered, Has, Rows, RetiredState, RetiredRows, RetirementWrites;
      SwapState(d, h, s);
      ApplyIs(d, PutState(s));
      RetirementIsSafe(d.(state := s), h, rows, detail);
      SafeFirst(d, PutState(s), RetirementWrites(d.events, rows, detail), h);
      SafeStops(d, p, h, limit);
    }
  }

  lemma HeartbeatStep(d: Disk, h: History, id: nat, note: string, limit: nat)
    requires Inv(d, h)
    ensures Inv(Stopped(d, Heartbeat(d, id, note), limit), h)
  {
    var i := IndexOf(d.state.pending, id);
    var p := Heartbeat(d, id, note);
    if i.Some? {
      BeatKeeps(d.state, i.value, note);
      hide Stopped, Has, Rows, Inv, Numbered;
      ThreeWritesSwap(d, h, p, BeatState(d.state, i.value, note), Unowned(id, "heartbeat"), limit);
    } else {
      RefusedStops(d, p, limit);
    }
  }

  lemma OneWrite(d: Disk, h: History, w: Write, limit: nat)
    requires Inv(d, h) && Inv(Apply(d, w), h)
    ensures Inv(Stopped(d, Plan([w], false), limit), h)
  {
    hide Inv, Apply, Safe;
    SafeOne(d, w, h);
    SafeStops(d, Plan([w], false), h, limit);
  }

  lemma AppendStep(d: Disk, h: History, text: string, limit: nat)
    requires Inv(d, h)
    ensures Inv(Stopped(d, AppendEvent(d, text), limit), h)
    ensures Inv(Stopped(d, AppendDecision(d, text), limit), h)
  {
    var event, decision := PutEvents(d.events + [Unowned(0, text)]), PutDecisions(d.decisions + [Unowned(0, text)]);
    assert Apply(d, event) == d.(events := d.events + [Unowned(0, text)]);
    assert Apply(d, decision) == d.(decisions := d.decisions + [Unowned(0, text)]);
    assert AppendEvent(d, text) == Plan([event], false) && AppendDecision(d, text) == Plan([decision], false);
    assert Unowned(0, text).owner == Nobody;
    hide *;
    UnownedEvent(d, h, Unowned(0, text));
    UnownedDecision(d, h, Unowned(0, text));
    OneWrite(d, h, event, limit);
    OneWrite(d, h, decision, limit);
  }

  // ---- an import takes the next ids ------------------------------------------------------

  lemma NewTrialIds(next: nat, cores: seq<Core>)
    ensures Ids(NewTrials(next, cores)) == Range(next, |cores|)
  {
  }

  lemma ImportedKeeps(s: State, cores: seq<Core>, contract: nat, config: string)
    requires Numbered(s) && s.pending == []
    ensures Numbered(ImportedState(s, cores, contract, config))
    ensures forall t :: Has(Rows(s), t) ==> Has(Rows(ImportedState(s, cores, contract, config)), t)
  {
    var f := ImportedState(s, cores, contract, config);
    var rows := NewTrials(s.nextTrialId, cores);
    assert Rows(f) == Rows(s) + rows;
    IdsAppend(Rows(s), rows);
    NewTrialIds(s.nextTrialId, cores);
    NumberedGrows(s, f, rows);
    forall t | Has(Rows(s), t) ensures Has(Rows(f), t) {
      var r :| r in Rows(s) && r.id == t.id && r.core == t.core;
      assert r in Rows(f);
    }
  }

  function Overrun(d: Disk, h: History): History {
    if d.journal.Some? && Pointer(d.state) != Some(d.journal.value.snapshot) then h.(overrun := true) else h
  }

  lemma ImportedParts(s: State, commits: seq<Commit>, cores: seq<Core>, contract: nat, config: string)
    requires Numbered(s) && OptimizerOK(s) && Kept(commits, s) && Importable(s, cores, contract)
    ensures var f := ImportedState(s, cores, contract, config);
            && Numbered(f) && OptimizerOK(f) && Kept(commits, f)
            && Pointer(f) == Pointer(s) && PendingRebuild(f) == PendingRebuild(s) && f.nextTrialId > s.nextTrialId
  {
    ImportedKeeps(s, cores, contract, config);
    hide Numbered, Has, Rows;
  }

  // The phase of a campaign depends on the state only through these.
  lemma SwapPhase(d: Disk, h: History, s: State, later: History)
    requires Inv(d, h) && later == Overrun(d, h)
    requires Numbered(s) && OptimizerOK(s) && Kept(h.commits, s)
    requires Pointer(s) == Pointer(d.state) && PendingRebuild(s) == PendingRebuild(d.state)
    requires s.nextTrialId > d.state.nextTrialId
    ensures Inv(d.(state := s), later)
  {
    hide BlockForm, Numbered, OptimizerOK, Kept, Pointer, PendingRebuild;
  }

  lemma ImportCommits(d: Disk, h: History, cores: seq<Core>, contract: nat, config: string)
    requires Inv(d, h) && Importable(d.state, cores, contract)
    ensures Inv(d.(state := ImportedState(d.state, cores, contract, config)), Overrun(d, h))
  {
    ImportedParts(d.state, h.commits, cores, contract, config);
    hide *;
    SwapPhase(d, h, ImportedState(d.state, cores, contract, config), Overrun(d, h));
  }

  lemma {:induction false} TerminalManifestsAreManifests(rows: seq<Trial>)
    ensures ManifestsOnly(TerminalManifests(rows)) && |TerminalManifests(rows)| == |rows|
  {
    if rows != [] { TerminalManifestsAreManifests(rows[1..]); }
  }

  lemma ImportTail(d: Disk, h: History, cores: seq<Core>, contract: nat, config: string, m: map<nat, Manifest>, k: nat)
    requires Inv(d, h) && Importable(d.state, cores, contract)
    requires 1 <= k <= 2
    ensures var s := PutState(ImportedState(d.state, cores, contract, config));
            var e := PutEvents(d.events + [Unowned(0, "observations_imported")]);
            Inv(ApplyAll(d.(manifests := m), [s, e][..k]), Overrun(d, h))
  {
    var s := PutState(ImportedState(d.state, cores, contract, config));
    var e := PutEvents(d.events + [Unowned(0, "observations_imported")]);
    var d1 := d.(manifests := m);
    var d2 := d1.(state := ImportedState(d.state, cores, contract, config));
    var row := Unowned(0, "observations_imported");
    assert row.owner == Nobody && Overrun(d1, h) == Overrun(d, h);
    assert Apply(d1, s) == d2 && Apply(d2, e) == d2.(events := d2.events + [row]);
    assert [s, e][..k] == if k == 1 then [s] else [s, e];
    hide *;
    TwoWrites(d1, s, e);
    AnyManifests(d, h, m);
    ImportCommits(d1, h, cores, contract, config);
    UnownedEvent(d2, Overrun(d, h), row);
  }

  lemma TwoWrites(d: Disk, a: Write, b: Write)
    ensures ApplyAll(d, [a]) == Apply(d, a)
    ensures ApplyAll(d, [a, b]) == Apply(Apply(d, a), b)
  {
    assert [a][1..] == [] && [a, b][1..] == [b] && [b][1..] == [];
    assert ApplyAll(Apply(d, a), [b]) == ApplyAll(Apply(Apply(d, a), b), []);
  }

  lemma ImportShape(d: Disk, h: History, cores: seq<Core>, contract: nat, config: string, limit: nat)
    ensures var p := ImportObservations(d, cores, contract, config);
            var m := TerminalManifests(NewTrials(d.state.nextTrialId, cores));
            var after := HistoryAfter(d, h, DoImport(cores, contract, config), limit);
            && |m| == |cores| && ManifestsOnly(m)
            && (p.writes == [] ==> after == h)
            && (p.writes != [] ==>
                  Importable(d.state, cores, contract) &&
                  p.writes == m + [PutState(ImportedState(d.state, cores, contract, config)),
                                   PutEvents(d.events + [Unowned(0, "observations_imported")])] &&
                  after == if limit > |cores| then Overrun(d, h) else h)
  {
    TerminalManifestsAreManifests(NewTrials(d.state.nextTrialId, cores));
    hide NewTrials, TerminalManifests, ManifestsOnly, ImportedState;
  }

  lemma ImportStep(d: Disk, h: History, cores: seq<Core>, contract: nat, config: string, limit: nat)
    requires Inv(d, h)
    ensures Inv(Stopped(d, ImportObservations(d, cores, contract, config), limit),
                HistoryAfter(d, h, DoImport(cores, contract, config), limit))
  {
    hide *;
    ImportShape(d, h, cores, contract, config, limit);
    var p := ImportObservations(d, cores, contract, config);
    if p.writes == [] {
      RefusedStops(d, p, limit);
    } else {
      var m := TerminalManifests(NewTrials(d.state.nextTrialId, cores));
      var s := ImportedState(d.state, cores, contract, config);
      var rest := [PutState(s), PutEvents(d.events + [Unowned(0, "observations_imported")])];
      ManifestsAreSafe(d, m, h);
      if limit <= |cores| {
        StoppedInFirst(d, p, m, rest, limit);
        SafePrefix(d, m, h, limit);
      } else {
        StoppedInSecond(d, p, m, rest, limit);
        ImportTail(d, h, cores, contract, config, ApplyAll(d, m).manifests, if limit < |m| + 2 then limit - |m| else 2);
      }
    }
  }

  lemma StoppedInFirst(d: Disk, p: Plan, a: seq<Write>, b: seq<Write>, limit: nat)
    requires p.writes == a + b && limit <= |a|
    ensures Stopped(d, p, limit) == ApplyAll(d, a[..limit])
  {
    assert (a + b)[..limit] == a[..limit];
  }

  lemma StoppedInSecond(d: Disk, p: Plan, a: seq<Write>, b: seq<Write>, limit: nat)
    requires p.writes == a + b && limit >= |a|
    ensures Stopped(d, p, limit)
         == ApplyAll(ApplyAll(d, a), b[..if limit < |a| + |b| then limit - |a| else |b|])
  {
    var k := if limit < |a| + |b| then limit - |a| else |b|;
    assert (a + b)[..|a| + k] == a + b[..k];
    ApplyConcat(d, a, b[..k]);
  }

  // ---- a batch is committed ----------------------------------------------------------------

  lemma AllocatedKeeps(s: State, j: Journal, cores: seq<Core>)
    requires Numbered(s) && j.suggestions == NewTrials(s.nextTrialId, cores)
    ensures Numbered(AllocatedState(s, j))
    ensures forall t :: Has(Rows(s), t) ==> Has(Rows(AllocatedState(s, j)), t)
    ensures forall t :: t in j.suggestions ==> Has(Rows(AllocatedState(s, j)), t) && t.id < AllocatedState(s, j).nextTrialId
  {
    var f := AllocatedState(s, j);
    IdsAppend(s.pending, j.suggestions);
    IdsAppend(s.pending + j.suggestions, s.observations);
    IdsAppend(s.pending, s.observations);
    NewTrialIds(s.nextTrialId, cores);
    NumberedGrows(s, f, j.suggestions);
    forall t | Has(Rows(s), t) ensures Has(Rows(f), t) {
      var r :| r in Rows(s) && r.id == t.id && r.core == t.core;
      assert r in Rows(f);
    }
    forall t | t in j.suggestions ensures Has(Rows(f), t) && t.id < f.nextTrialId {
      assert t in Rows(f);
    }
  }

  // What prepare_batch and commit_allocation require of each other.
  predicate Allocatable(d: Disk, b: Batch) {
    && |b.cores| > 0 && |b.decisions| == |b.cores| && b.allocationId != ""
    && PendingRebuild(d.state).None? && d.journal.None? && NextSnapshot(d.state, b).Some?
  }

  function JournalFor(d: Disk, b: Batch): Journal
    requires Allocatable(d, b)
  {
    NewJournal(d.state, b, NextSnapshot(d.state, b).value)
  }

  lemma NewJournalIsValid(d: Disk, b: Batch)
    requires Allocatable(d, b) && Numbered(d.state) && OptimizerOK(d.state)
    ensures var j := JournalFor(d, b);
            && ValidJournal(j) && j.allocationId == b.allocationId && j.objectiveConfig == b.objectiveConfig
            && j.suggestions == NewTrials(d.state.nextTrialId, b.cores)
            && j.previousSnapshot == Pointer(d.state) && j.previousSnapshot != Some(j.snapshot)
            && SnapshotOK(j.snapshot)
  {
  }

  lemma QuietUnlessJournal(d: Disk, h: History)
    requires Inv(d, h) && d.journal.None? && PendingRebuild(d.state).None?
    ensures Quiet(d, h)
  {
    hide BlockForm, Numbered, HistoryOK, Kept, OptimizerOK;
  }

  lemma PreparedInv(d: Disk, h: History, b: Batch)
    requires Inv(d, h) && Allocatable(d, b) && b.allocationId !in h.used
    ensures var d1 := d.(journal := Some(JournalFor(d, b)));
            var h1 := h.(used := h.used + {b.allocationId});
            Inv(d1, h1) && InPreparation(d1, h1)
  {
    assert Numbered(d.state) && OptimizerOK(d.state) && HistoryOK(h) && Kept(h.commits, d.state) && d.journal.None?
           && PendingRebuild(d.state).None?;
    hide BlockForm, Numbered, Kept, OptimizerOK, NextSnapshot, NewJournal, ValidJournal, HistoryOK, JournalFor,
         Allocatable, NewTrials, SnapshotOK;
    NewJournalIsValid(d, b);
    QuietUnlessJournal(d, h);
    UsedGrows(h, b.allocationId);
    StrangerToCommits(h, b.allocationId);
    FirstNewId(d.state, JournalFor(d, b), b.cores);
  }

  lemma UsedGrows(h: History, id: string)
    requires HistoryOK(h)
    ensures HistoryOK(h.(used := h.used + {id}))
  {
    hide ValidJournal;
  }

  lemma StrangerToCommits(h: History, id: string)
    requires HistoryOK(h) && id !in h.used
    ensures forall c :: c in h.commits ==> CommitId(c) != id
  {
    hide ValidJournal;
  }

  lemma FirstNewId(s: State, j: Journal, cores: seq<Core>)
    requires j.suggestions == NewTrials(s.nextTrialId, cores) && ValidJournal(j)
    ensures s.nextTrialId == j.suggestions[0].id
  {
  }

  lemma HistoryGrows(h: History, c: Commit)
    requires HistoryOK(h) && CommitId(c) !in h.used && CommitId(c) != ""
    requires c.Allocated? ==> ValidJournal(c.journal)
    ensures HistoryOK(h.(used := h.used + {CommitId(c)}, commits := h.commits + [c]))
  {
    hide ValidJournal;
    forall x | x in h.commits + [c] ensures x == c || x in h.commits {}
    forall i | 0 <= i < |h.commits| ensures CommitId(h.commits[i]) in h.used { assert h.commits[i] in h.commits; }
  }

  lemma CommittedParts(d: Disk, h: History, b: Batch)
    requires Inv(d, h) && Allocatable(d, b)
    ensures var j := JournalFor(d, b);
            var s := AllocatedState(d.state, j);
            && Numbered(s) && OptimizerOK(s) && Kept(h.commits + [Allocated(j)], s)
            && Pointer(s) == Some(j.snapshot) && PendingRebuild(s).None?
  {
    hide NextSnapshot, NewJournal, ValidJournal, Has, Rows, BlockForm, Numbered;
    NewJournalIsValid(d, b);
    var j := JournalFor(d, b);
    AllocatedKeeps(d.state, j, b.cores);
    assert Kept(h.commits, d.state);
  }

  lemma CommittedInv(d: Disk, h: History, b: Batch)
    requires Inv(d, h) && Allocatable(d, b) && b.allocationId !in h.used
    ensures var j := JournalFor(d, b);
            var d2 := d.(journal := Some(j), state := AllocatedState(d.state, j));
            var h2 := h.(used := h.used + {b.allocationId}, commits := h.commits + [Allocated(j)]);
            Inv(d2, h2) && InPublication(d2, h2)
  {
    assert HistoryOK(h) && Numbered(d.state) && OptimizerOK(d.state) && PendingRebuild(d.state).None? && d.journal.None?;
    hide BlockForm, Numbered, Kept, OptimizerOK, NextSnapshot, NewJournal, HistoryOK, AllocatedState, ValidJournal,
         JournalFor, Allocatable, NewTrials, EventsOf, DecisionsOf;
    CommittedParts(d, h, b);
    QuietUnlessJournal(d, h);
    NewJournalIsValid(d, b);
    var j := JournalFor(d, b);
    HasId(j);
    HistoryGrows(h, Allocated(j));
    assert (h.commits + [Allocated(j)])[..|h.commits|] == h.commits;
  }

  lemma HasId(j: Journal)
    requires ValidJournal(j)
    ensures j.allocationId != ""
  {
  }

  lemma CommitStops(d: Disk, p: Plan, h1: History, h2: History, first: Write, second: Write, rest: seq<Write>, limit: nat)
    requires p.writes == [first, second] + rest
    requires Inv(d, h1) && Inv(Apply(d, first), h1)
    requires Safe(Apply(Apply(d, first), second), rest, h2)
    ensures Inv(Stopped(d, p, limit), if limit >= 2 then h2 else h1)
  {
    hide Inv, Apply, Safe;
    TwoWrites(d, first, second);
    if limit < 2 {
      StoppedInFirst(d, p, [first, second], rest, limit);
      assert [first, second][..limit] == if limit == 0 then [] else [first];
    } else {
      StoppedInSecond(d, p, [first, second], rest, limit);
      SafePrefix(Apply(Apply(d, first), second), rest, h2, if limit < 2 + |rest| then limit - 2 else |rest|);
    }
  }

  lemma CommitStep(d: Disk, h: History, b: Batch, limit: nat)
    requires Inv(d, h) && b.allocationId !in h.used
    ensures Inv(Stopped(d, CommitAllocation(d, b), limit), HistoryAfter(d, h, DoCommitAllocation(b), limit))
  {
    var p := CommitAllocation(d, b);
    if !Allocatable(d, b) {
      assert p == REFUSED;
      RefusedStops(d, p, limit);
      DrawId(d, h, b.allocationId);
    } else {
      var j := JournalFor(d, b);
      var d2 := d.(journal := Some(j), state := AllocatedState(d.state, j));
      var publication := RecoverAllocation(d2, b.objectiveConfig).writes;
      var h1 := h.(used := h.used + {b.allocationId});
      var h2 := h1.(commits := h.commits + [Allocated(j)]);
      assert p.writes == [PutJournal(j), PutState(d2.state)] + publication;
      assert HistoryAfter(d, h, DoCommitAllocation(b), limit) == if limit >= 2 then h2 else h1;
      assert Apply(Apply(d, PutJournal(j)), PutState(d2.state)) == d2;
      assert Apply(d, PutJournal(j)) == d.(journal := Some(j));
      hide RecoverAllocation, CommitAllocation, NextSnapshot, NewJournal, AllocatedState, Apply, Allocatable, HistoryAfter, Inv;
      assert Inv(d, h1) by { DrawId(d, h, b.allocationId); }
      assert Inv(d.(journal := Some(j)), h1) by { PreparedInv(d, h, b); }
      assert Safe(d2, publication, h2) by {
        CommittedInv(d, h, b);
        RecoverIsSafe(d2, h2, b.objectiveConfig);
      }
      CommitStops(d, p, h1, h2, PutJournal(j), PutState(d2.state), publication, limit);
    }
  }

  // ---- a rebuild is committed ----------------------------------------------------------------

  lemma ClearedParts(s: State, commits: seq<Commit>)
    requires Numbered(s) && OptimizerOK(s) && Kept(commits, s)
    ensures Numbered(Cleared(s)) && OptimizerOK(Cleared(s)) && Kept(commits, Cleared(s))
    ensures PendingRebuild(Cleared(s)).None? && Pointer(Cleared(s)) == Pointer(s)
  {
    assert Rows(Cleared(s)) == Rows(s);
  }

  lemma LatestRebuild(d: Disk, h: History)
    requires Inv(d, h) && InRebuild(d, h)
    ensures var e := PendingRebuild(d.state).value;
            && h.commits != []
            && EventsOf(h.commits) == EventsOf(Earlier(h)) + [[RebuildRow(e)]]
            && Blocks(EventsOf(Earlier(h)) + [[RebuildRow(e)]])
            && (BlockForm(d.events, EventsOf(Earlier(h)))
                || BlockForm(d.events, EventsOf(Earlier(h)) + [[RebuildRow(e)]]))
  {
    hide BlockForm, Blocks, Numbered, OptimizerOK, Kept, RebuildRow;
    HistorySplits(h);
    OneMoreCommit(Earlier(h), Latest(h));
    EventBlocks(h.commits, h);
  }

  lemma RebuildStages(d: Disk, h: History, events: Log)
    requires Inv(d, h) && InRebuild(d, h) && BlockForm(events, EventsOf(h.commits))
    ensures Inv(d.(events := events), h)
    ensures Inv(d.(events := events, state := Cleared(d.state)), h)
    ensures Quiet(d.(events := events, state := Cleared(d.state)), h)
  {
    ClearedParts(d.state, h.commits);
    hide BlockForm, Numbered, OptimizerOK, Kept, HistoryOK, Cleared;
  }

  lemma RecoverRebuildShape(d: Disk, events: Log)
    requires PendingRebuild(d.state).Some? && OptimizerOK(d.state)
    requires Publish(d.events, [RebuildRow(PendingRebuild(d.state).value)]) == Some(events)
    ensures RecoverRebuild(d)
         == Plan(PublishWrites(d.events, events, PutEvents(events)) + [PutState(Cleared(d.state))], false)
    ensures var d1 := d.(events := events);
            Apply(d1, PutState(Cleared(d.state))) == d1.(state := Cleared(d.state))
  {
    hide Cleared, RebuildRow, Publish;
  }

  // Finishing a committed rebuild: safe at every write, and it completes.
  lemma RecoverRebuildFinishes(d: Disk, h: History)
    requires Inv(d, h) && InRebuild(d, h)
    ensures !RecoverRebuild(d).failed && Safe(d, RecoverRebuild(d).writes, h)
    ensures Quiet(ApplyAll(d, RecoverRebuild(d).writes), h)
    ensures ApplyAll(d, RecoverRebuild(d).writes)
         == d.(events := ApplyAll(d, RecoverRebuild(d).writes).events, state := Cleared(d.state))
    ensures PendingRebuild(d.state).Some?
    ensures Publish(d.events, [RebuildRow(PendingRebuild(d.state).value)])
         == Some(ApplyAll(d, RecoverRebuild(d).writes).events)
  {
    assert PendingRebuild(d.state).Some? && OptimizerOK(d.state);
    hide *;
    var row := [RebuildRow(PendingRebuild(d.state).value)];
    LatestRebuild(d, h);
    PublishEither(d.events, EventsOf(Earlier(h)), row);
    var events := Publish(d.events, row).value;
    RebuildStages(d, h, events);
    RecoverRebuildShape(d, events);
    var a := PublishWrites(d.events, events, PutEvents(events));
    var d1 := d.(events := events);
    EventsWrite(d, h, events);
    SafeOne(d1, PutState(Cleared(d.state)), h);
    SafeConcat(d, a, [PutState(Cleared(d.state))], h);
    ApplyConcat(d, a, [PutState(Cleared(d.state))]);
  }

  lemma RecoverRebuildIsSafe(d: Disk, h: History)
    requires Inv(d, h)
    ensures Safe(d, RecoverRebuild(d).writes, h)
  {
    if PendingRebuild(d.state).Some? {
      assert InRebuild(d, h) by { hide BlockForm, Numbered, OptimizerOK, HistoryOK, Kept; }
      RecoverRebuildFinishes(d, h);
    }
  }

  predicate Rebuildable(d: Disk, r: RebuildRequest) {
    && d.state.optimizer.Some? && d.journal.None? && r.rebuildId != ""
    && PendingRebuild(d.state).None? && RebuildAllowed(d.state, r)
  }

  lemma RebuiltParts(s: State, commits: seq<Commit>, r: RebuildRequest)
    requires Numbered(s) && OptimizerOK(s) && Kept(commits, s) && s.optimizer.Some? && RebuildAllowed(s, r)
    ensures var f := RebuiltState(s, r);
            && PendingRebuild(f).Some? && PendingRebuild(f).value.recovery.rebuildId == r.rebuildId
            && Numbered(f) && OptimizerOK(f) && Kept(commits + [Rebuilt(PendingRebuild(f).value)], f)
  {
    assert Rows(RebuiltState(s, r)) == Rows(s);
  }

  lemma RebuiltInv(d: Disk, h: History, r: RebuildRequest)
    requires Inv(d, h) && Rebuildable(d, r) && r.rebuildId !in h.used
    ensures var s := RebuiltState(d.state, r);
            var d1 := d.(state := s);
            PendingRebuild(s).Some? &&
            var h1 := h.(used := h.used + {r.rebuildId}, commits := h.commits + [Rebuilt(PendingRebuild(s).value)]);
            Inv(d1, h1) && InRebuild(d1, h1)
  {
    RebuiltParts(d.state, h.commits, r);
    QuietUnlessJournal(d, h);
    var e := PendingRebuild(RebuiltState(d.state, r)).value;
    HistoryGrows(h, Rebuilt(e));
    assert (h.commits + [Rebuilt(e)])[..|h.commits|] == h.commits;
    OneMoreCommit(h.commits, Rebuilt(e));
    assert DecisionsOf(h.commits) + [] == DecisionsOf(h.commits);
    hide BlockForm, Numbered, Kept, OptimizerOK, HistoryOK, RebuiltState, RebuildAllowed, EventsOf, DecisionsOf;
  }

  // What a rebuild that passes its checks writes, and what it commits.
  lemma RebuildPlan(d: Disk, h: History, r: RebuildRequest, limit: nat)
    requires Rebuildable(d, r)
    ensures var s := RebuiltState(d.state, r);
            && PendingRebuild(s).Some?
            && RebuildOptimizer(d, r).writes == [PutState(s)] + RecoverRebuild(d.(state := s)).writes
            && HistoryAfter(d, h, DoRebuild(r), limit)
               == var drawn := h.(used := h.used + {r.rebuildId});
                  if limit >= 1 then drawn.(commits := h.commits + [Rebuilt(PendingRebuild(s).value)]) else drawn
  {
    hide RebuildAllowed, RecoverRebuild;
  }

  lemma RebuildCommits(d: Disk, h: History, r: RebuildRequest, limit: nat)
    requires Inv(d, h) && Rebuildable(d, r) && r.rebuildId !in h.used
    ensures Inv(Stopped(d, RebuildOptimizer(d, r), limit), HistoryAfter(d, h, DoRebuild(r), limit))
  {
    RebuildPlan(d, h, r, limit);
    var s := RebuiltState(d.state, r);
    var d1 := d.(state := s);
    assert Apply(d, PutState(s)) == d1;
    hide *;
    var h0 := h.(used := h.used + {r.rebuildId});
    var h1 := h0.(commits := h.commits + [Rebuilt(PendingRebuild(s).value)]);
    DrawId(d, h, r.rebuildId);
    RebuiltInv(d, h, r);
    RecoverRebuildIsSafe(d1, h1);
    RebuildStops(d, RebuildOptimizer(d, r), h0, h1, PutState(s), RecoverRebuild(d1).writes, limit);
  }

  lemma RebuildStep(d: Disk, h: History, r: RebuildRequest, limit: nat)
    requires Inv(d, h) && r.rebuildId !in h.used
    ensures Inv(Stopped(d, RebuildOptimizer(d, r), limit), HistoryAfter(d, h, DoRebuild(r), limit))
  {
    if Rebuildable(d, r) {
      RebuildCommits(d, h, r, limit);
    } else {
      RebuildOtherwise(d, h, r, limit);
      DrawId(d, h, r.rebuildId);
      hide *;
      RecoverRebuildIsSafe(d, h.(used := h.used + {r.rebuildId}));
      SafeOrEmpty(d, RebuildOptimizer(d, r), RecoverRebuild(d).writes, h.(used := h.used + {r.rebuildId}), limit);
    }
  }

  // A rebuild that does not commit finishes the previous one or does nothing.
  lemma RebuildOtherwise(d: Disk, h: History, r: RebuildRequest, limit: nat)
    requires !Rebuildable(d, r)
    ensures RebuildOptimizer(d, r).writes == [] || RebuildOptimizer(d, r).writes == RecoverRebuild(d).writes
    ensures HistoryAfter(d, h, DoRebuild(r), limit) == h.(used := h.used + {r.rebuildId})
  {
    hide RebuildAllowed, RecoverRebuild;
  }

  lemma SafeOrEmpty(d: Disk, p: Plan, writes: seq<Write>, h: History, limit: nat)
    requires Safe(d, writes, h) && Inv(d, h) && (p.writes == [] || p.writes == writes)
    ensures Inv(Stopped(d, p, limit), h)
  {
    hide Inv, Safe;
    if p.writes == [] { RefusedStops(d, p, limit); } else { SafeStops(d, p, h, limit); }
  }

  lemma RebuildStops(d: Disk, p: Plan, h0: History, h1: History, first: Write, rest: seq<Write>, limit: nat)
    requires p.writes == [first] + rest
    requires Inv(d, h0) && Safe(Apply(d, first), rest, h1)
    ensures Inv(Stopped(d, p, limit), if limit >= 1 then h1 else h0)
  {
    hide Inv, Apply, Safe;
    TwoWrites(d, first, first);
    if limit < 1 {
      StoppedInFirst(d, p, [first], rest, limit);
    } else {
      StoppedInSecond(d, p, [first], rest, limit);
      SafePrefix(Apply(d, first), rest, h1, if limit < 1 + |rest| then limit - 1 else |rest|);
    }
  }

  // ---- every command, every run ----------------------------------------------------------------

  // Main result: whatever the command and wherever it is cut off, the invariant survives.
  lemma StepKeepsInv(sys: Sys, c: Command, limit: nat)
    requires Inv(sys.disk, sys.history) && FreshIds(c, sys.history)
    ensures Inv(After(sys, c, limit).disk, After(sys, c, limit).history)
  {
    var d, h := sys.disk, sys.history;
    OtherHistory(d, h, c, limit);
    CrashIsStopped(d, c, limit);
    hide Inv, Crash, PlanOf, HistoryAfter, Stopped;
    match c
    case DoRecoverAllocation(cfg) =>
      RecoverIsSafe(d, h, cfg);
      SafeStops(d, RecoverAllocation(d, cfg), h, limit);
    case DoCommitAllocation(b) => CommitStep(d, h, b, limit);
    case DoRecoverRebuild =>
      RecoverRebuildIsSafe(d, h);
      SafeStops(d, RecoverRebuild(d), h, limit);
    case DoRebuild(r) => RebuildStep(d, h, r, limit);
    case DoFinish(id, detail, eventFirst) => FinishStep(d, h, id, detail, eventFirst, limit);
    case DoRetireStale(ids, why) => RetireStep(d, h, ids, why, limit);
    case DoHeartbeat(id, note) => HeartbeatStep(d, h, id, note, limit);
    case DoImport(cores, contract, config) => ImportStep(d, h, cores, contract, config, limit);
    case DoAppendEvent(text) => AppendStep(d, h, text, limit);
    case DoAppendDecision(text) => AppendStep(d, h, text, limit);
  }

  lemma OtherHistory(d: Disk, h: History, c: Command, limit: nat)
    ensures c.DoCommitAllocation? || c.DoRebuild? || c.DoImport? || HistoryAfter(d, h, c, limit) == h
  {
  }

  lemma CrashIsStopped(d: Disk, c: Command, limit: nat)
    ensures Crash(d, c, limit) == Stopped(d, PlanOf(d, c), limit)
    ensures c.DoRecoverAllocation? ==> PlanOf(d, c) == RecoverAllocation(d, c.objectiveConfig)
    ensures c.DoCommitAllocation? ==> PlanOf(d, c) == CommitAllocation(d, c.batch)
    ensures c.DoRecoverRebuild? ==> PlanOf(d, c) == RecoverRebuild(d)
    ensures c.DoRebuild? ==> PlanOf(d, c) == RebuildOptimizer(d, c.request)
    ensures c.DoFinish? ==> PlanOf(d, c) == FinishTrial(d, c.id, c.detail, c.eventFirst)
    ensures c.DoRetireStale? ==> PlanOf(d, c) == RetireStale(d, c.stale, c.why)
    ensures c.DoHeartbeat? ==> PlanOf(d, c) == Heartbeat(d, c.beat, c.note)
    ensures c.DoImport? ==> PlanOf(d, c) == ImportObservations(d, c.cores, c.contract, c.config)
    ensures c.DoAppendEvent? ==> PlanOf(d, c) == AppendEvent(d, c.event)
    ensures c.DoAppendDecision? ==> PlanOf(d, c) == AppendDecision(d, c.decision)
  {
    hide RecoverAllocation, CommitAllocation, RecoverRebuild, RebuildOptimizer, FinishTrial, RetireStale,
         Heartbeat, ImportObservations, Stopped;
  }

  // One command of a run, cut off after at most `limit` writes.
  datatype Step = Step(command: Command, limit: nat)

  function Run(sys: Sys, steps: seq<Step>): Sys
    decreases |steps|
  {
    if steps == [] then sys else Run(After(sys, steps[0].command, steps[0].limit), steps[1..])
  }

  ghost predicate FreshRun(sys: Sys, steps: seq<Step>)
    decreases |steps|
  {
    steps != [] ==>
      FreshIds(steps[0].command, sys.history) &&
      FreshRun(After(sys, steps[0].command, steps[0].limit), steps[1..])
  }

  lemma {:induction false} RunKeepsInv(sys: Sys, steps: seq<Step>)
    requires Inv(sys.disk, sys.history) && FreshRun(sys, steps)
    ensures Inv(Run(sys, steps).disk, Run(sys, steps).history)
    decreases |steps|
  {
    hide Inv, After, FreshIds;
    if steps != [] {
      StepKeepsInv(sys, steps[0].command, steps[0].limit);
      RunKeepsInv(After(sys, steps[0].command, steps[0].limit), steps[1..]);
    }
  }

  lemma InitialInv()
    ensures Inv(INITIAL.disk, INITIAL.history)
  {
    assert Rows(START.state) == [];
    assert Ids([]) == [] && Range(1, 0) == [];
    assert Quiet(START, INITIAL.history);
  }

  // Main result: every run of commands, each cut off anywhere, stays inside the invariant.
  lemma EveryRunKeepsInv(steps: seq<Step>)
    requires FreshRun(INITIAL, steps)
    ensures Inv(Run(INITIAL, steps).disk, Run(INITIAL, steps).history)
  {
    InitialInv();
    RunKeepsInv(INITIAL, steps);
  }
}
