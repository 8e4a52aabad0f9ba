// What a campaign guarantees: restartable recovery, all-or-nothing batches and
// rebuilds, exact logs, no resurrected work, and where the guarantees end.
module CampaignTheorems {
  import opened Wrappers
  import opened CampaignData
  import opened CampaignLogs
  import opened Campaign
  import opened CampaignInvariant
  import opened CampaignIds
  import opened CampaignRecovery
  import opened CampaignRuns
  import opened CampaignAtomic

  // ---- manifests written twice ------------------------------------------------------------

  function Overlay(ws: seq<Write>): map<nat, Manifest>
    requires ManifestsOnly(ws)
  {
    if ws == [] then map[]
    else
      assert ws[0] in ws;
      assert forall w :: w in ws[1..] ==> w in ws;
      map[ws[0].id := ws[0].manifest] + Overlay(ws[1..])
  }

  lemma {:induction false} ApplyIsOverlay(d: Disk, ws: seq<Write>)
    requires ManifestsOnly(ws)
    ensures ApplyAll(d, ws).manifests == d.manifests + Overlay(ws)
    ensures forall w :: w in ws ==> w.id in Overlay(ws)
    decreases |ws|
  {
    if ws != [] {
      assert ws[0] in ws;
      assert forall w :: w in ws[1..] ==> w in ws;
      ApplyIsOverlay(Apply(d, ws[0]), ws[1..]);
    }
  }

  lemma RewrittenManifest(d: Disk, w: Write, ws: seq<Write>)
    requires ManifestsOnly(ws) && w in ws
    ensures ApplyAll(Apply(d, w), ws).manifests == ApplyAll(d, ws).manifests
  {
    ApplyIsOverlay(d, ws);
    ApplyIsOverlay(Apply(d, w), ws);
  }

  // ---- a recovery that is itself cut off --------------------------------------------------

  // A disk between two writes of the recovery of d.
  predicate Midway(e: Disk, d: Disk) {
    && d.journal.Some?
    && var j := d.journal.value;
    && j.decisions != [] && j.events != []
    && e == d.(manifests := e.manifests, decisions := e.decisions, events := e.events)
    && (e.decisions == d.decisions || Publish(d.decisions, j.decisions) == Some(e.decisions))
    && (e.events == d.events || Publish(d.events, j.events) == Some(e.events))
    && ApplyAll(e, ManifestWrites(d.state, j.suggestions)).manifests
       == ApplyAll(d, ManifestWrites(d.state, j.suggestions)).manifests
  }

  predicate RecoveryWrite(w: Write, d: Disk) {
    && d.journal.Some?
    && var j := d.journal.value;
    && j.decisions != [] && j.events != []
    && (|| w in ManifestWrites(d.state, j.suggestions)
        || (w.PutDecisions? && Publish(d.decisions, j.decisions) == Some(w.log))
        || (w.PutEvents? && Publish(d.events, j.events) == Some(w.log)))
  }

  lemma MidwayStep(e: Disk, d: Disk, w: Write)
    requires Midway(e, d) && RecoveryWrite(w, d)
    ensures Midway(Apply(e, w), d)
  {
    var j := d.journal.value;
    var m := ManifestWrites(d.state, j.suggestions);
    hide Publish;
    ManifestWritesAreManifests(d.state, j.suggestions);
    ApplyIsOverlay(e, m);
    ApplyIsOverlay(Apply(e, w), m);
    hide ManifestWrites, ApplyAll, Overlay, ManifestsOnly;
    if w in m { RewrittenManifest(e, w, m); }
  }

  lemma {:induction false} MidwayStays(e: Disk, d: Disk, ws: seq<Write>)
    requires Midway(e, d) && forall w :: w in ws ==> RecoveryWrite(w, d)
    ensures Midway(ApplyAll(e, ws), d)
    decreases |ws|
  {
    hide Midway, RecoveryWrite, Apply;
    if ws != [] {
      MidwayStep(e, d, ws[0]);
      MidwayStays(Apply(e, ws[0]), d, ws[1..]);
    }
  }

  lemma PublishTwice(log: Log, rows: Log)
    requires Block(rows) && rows != [] && Publish(log, rows).Some?
    ensures Publish(Publish(log, rows).value, rows) == Publish(log, rows)
  {
    OwnedAppends(log, rows, OwnerOf(rows));
    OwnedOfBlock(rows, OwnerOf(rows));
  }

  lemma MidwayRecovers(e: Disk, d: Disk, h: History, cfg: string)
    requires Inv(d, h) && InPublication(d, h) && cfg == d.journal.value.objectiveConfig
    requires Inv(e, h) && Midway(e, d)
    ensures Complete(e, DoRecoverAllocation(cfg)) == Complete(d, DoRecoverAllocation(cfg))
  {
    assert InPublication(e, h) by {
      ClassificationIsExact(d, h);
      ClassificationIsExact(e, h);
      hide BlockForm, Numbered, Kept, HistoryOK, OptimizerOK;
    }
    RecoverCommitted(d, h, cfg);
    RecoverCommitted(e, h, cfg);
    JournalBlocks(d, h);
    var j := d.journal.value;
    PublishTwice(d.decisions, j.decisions);
    PublishTwice(d.events, j.events);
    hide RecoverAllocation, ApplyAll, ManifestWrites, Publish, Inv, Block;
  }

  lemma JournalBlocks(d: Disk, h: History)
    requires Inv(d, h) && InPublication(d, h)
    ensures d.journal.Some? && ValidJournal(d.journal.value)
    ensures Block(d.journal.value.decisions) && Block(d.journal.value.events)
  {
    hide BlockForm, Numbered, Kept, OptimizerOK;
    assert Latest(h) in h.commits;
  }

  // What a recovery of a committed batch writes before the final unlink.
  lemma RecoveryEndsWithUnlink(d: Disk, h: History, cfg: string)
    requires Inv(d, h) && InPublication(d, h) && cfg == d.journal.value.objectiveConfig
    ensures var ws := RecoverAllocation(d, cfg).writes;
            && ws != [] && ws[|ws| - 1] == DropJournal
            && (forall w :: w in ws[..|ws| - 1] ==> RecoveryWrite(w, d))
  {
    assert d.journal.Some?;
    hide *;
    PublicationIsCommitted(d, h);
    DecisionsPublish(d, h);
    EventsPublish(d, h);
    var j := d.journal.value;
    var m := ManifestWrites(d.state, j.suggestions);
    var x, y := Publish(d.decisions, j.decisions).value, Publish(d.events, j.events).value;
    CommittedShape(d, cfg, x, y);
    var a, b := PublishWrites(d.decisions, x, PutDecisions(x)), PublishWrites(d.events, y, PutEvents(y));
    assert (m + a + b + [DropJournal])[..|m + a + b|] == m + a + b;
    forall w | w in m + a + b ensures RecoveryWrite(w, d) {
      assert w in m || w in a || w in b;
      PublishedWrite(d, w, x, y);
    }
  }

  lemma PublishedWrite(d: Disk, w: Write, x: Log, y: Log)
    requires d.journal.Some? && d.journal.value.decisions != [] && d.journal.value.events != []
    requires Publish(d.decisions, d.journal.value.decisions) == Some(x)
    requires Publish(d.events, d.journal.value.events) == Some(y)
    requires || w in ManifestWrites(d.state, d.journal.value.suggestions)
             || w in PublishWrites(d.decisions, x, PutDecisions(x))
             || w in PublishWrites(d.events, y, PutEvents(y))
    ensures RecoveryWrite(w, d)
  {
    hide Publish, ManifestWrites;
  }

  // Main result: recovery can be cut off and rerun at will.
  lemma RecoveryRestarts(d: Disk, h: History, cfg: string, limit: nat)
    requires Inv(d, h)
    ensures Complete(Crash(d, DoRecoverAllocation(cfg), limit), DoRecoverAllocation(cfg))
         == Complete(d, DoRecoverAllocation(cfg))
  {
    var c := DoRecoverAllocation(cfg);
    CrashIsStopped(d, c, limit);
    if d.journal.Some? && InPublication(d, h) && cfg == d.journal.value.objectiveConfig {
      PublicationRestarts(d, h, cfg, limit);
    } else {
      OtherwiseAtMostUnlinks(d, h, cfg);
      var p := RecoverAllocation(d, cfg);
      hide Inv, InPublication, RecoverAllocation;
      if p.writes == [] { RefusedStops(d, p, limit); } else { StoppedOne(d, DropJournal, limit); UnlinkEnds(d, cfg); }
    }
  }

  lemma OtherwiseAtMostUnlinks(d: Disk, h: History, cfg: string)
    requires Inv(d, h)
    requires !(d.journal.Some? && InPublication(d, h) && cfg == d.journal.value.objectiveConfig)
    ensures RecoverAllocation(d, cfg).writes == []
         || RecoverAllocation(d, cfg) == Plan([DropJournal], false)
  {
    if d.journal.Some? { ClassificationIsExact(d, h); }
    hide Inv, InPublication, AllocationStatus, ValidJournal;
  }

  lemma UnlinkEnds(d: Disk, cfg: string)
    ensures ApplyAll(d, [DropJournal]) == Apply(d, DropJournal)
    ensures RecoverAllocation(Apply(d, DropJournal), cfg) == NOTHING
    ensures Complete(Apply(d, DropJournal), DoRecoverAllocation(cfg)) == Apply(d, DropJournal)
  {
    assert [DropJournal][1..] == [];
    assert ApplyAll(Apply(d, DropJournal), []) == Apply(d, DropJournal);
  }

  lemma PublicationRestarts(d: Disk, h: History, cfg: string, limit: nat)
    requires Inv(d, h) && InPublication(d, h) && cfg == d.journal.value.objectiveConfig
    ensures Complete(Stopped(d, RecoverAllocation(d, cfg), limit), DoRecoverAllocation(cfg))
         == Complete(d, DoRecoverAllocation(cfg))
  {
    if limit < |RecoverAllocation(d, cfg).writes| {
      CutPublicationRestarts(d, h, cfg, limit);
    } else {
      RecoverCommitted(d, h, cfg);
      StoppedInFull(d, RecoverAllocation(d, cfg), limit);
      CompleteRecovery(d, cfg);
      assert Recovered(d).journal.None?;
      hide *;
      NoJournalNoRecovery(Recovered(d), cfg);
    }
  }

  lemma StoppedInFull(d: Disk, p: Plan, limit: nat)
    requires limit >= |p.writes|
    ensures Stopped(d, p, limit) == ApplyAll(d, p.writes)
  {
    assert p.writes[..|p.writes|] == p.writes;
  }

  lemma CompleteRecovery(d: Disk, cfg: string)
    ensures Complete(d, DoRecoverAllocation(cfg)) == ApplyAll(d, RecoverAllocation(d, cfg).writes)
  {
    hide RecoverAllocation, ApplyAll;
  }

  lemma PrefixOfPrefix(ws: seq<Write>, k: nat)
    requires k < |ws|
    ensures forall w :: w in ws[..k] ==> w in ws[..|ws| - 1]
  {
    assert ws[..k] == ws[..|ws| - 1][..k];
  }

  lemma CutPublicationRestarts(d: Disk, h: History, cfg: string, limit: nat)
    requires Inv(d, h) && InPublication(d, h) && cfg == d.journal.value.objectiveConfig
    requires limit < |RecoverAllocation(d, cfg).writes|
    ensures Complete(Stopped(d, RecoverAllocation(d, cfg), limit), DoRecoverAllocation(cfg))
         == Complete(d, DoRecoverAllocation(cfg))
  {
    assert Midway(d, d) by { JournalBlocks(d, h); }
    hide *;
    var p := RecoverAllocation(d, cfg);
    var n := |p.writes|;
    RecoveryEndsWithUnlink(d, h, cfg);
    RecoverIsSafe(d, h, cfg);
    PrefixOfPrefix(p.writes, limit);
    forall w | w in p.writes[..limit] ensures RecoveryWrite(w, d) {}
    MidwayStays(d, d, p.writes[..limit]);
    SafeStops(d, p, h, limit);
    StoppedShort(d, p, limit);
    MidwayRecovers(Stopped(d, p, limit), d, h, cfg);
  }

  lemma StoppedShort(d: Disk, p: Plan, limit: nat)
    requires limit < |p.writes|
    ensures Stopped(d, p, limit) == ApplyAll(d, p.writes[..limit])
  {
  }

  lemma NoJournalNoRecovery(d: Disk, cfg: string)
    requires d.journal.None?
    ensures RecoverAllocation(d, cfg) == NOTHING && Complete(d, DoRecoverAllocation(cfg)) == d
  {
  }

  // ---- all or nothing -------------------------------------------------------------------------

  lemma CommittedRun(d: Disk, b: Batch, limit: nat)
    requires Allocatable(d, b) && limit >= 2
    ensures var j := JournalFor(d, b);
            var d2 := d.(journal := Some(j), state := AllocatedState(d.state, j));
            && Crash(d, DoCommitAllocation(b), limit) == Crash(d2, DoRecoverAllocation(b.objectiveConfig), limit - 2)
            && Complete(d, DoCommitAllocation(b)) == Complete(d2, DoRecoverAllocation(b.objectiveConfig))
  {
    var j := JournalFor(d, b);
    var d2 := d.(journal := Some(j), state := AllocatedState(d.state, j));
    var rest := RecoverAllocation(d2, b.objectiveConfig);
    var p := CommitAllocation(d, b);
    CommitShape(d, History([], {}, false), b, limit);
    assert Complete(d, DoCommitAllocation(b)) == ApplyAll(d, p.writes);
    assert Complete(d2, DoRecoverAllocation(b.objectiveConfig)) == ApplyAll(d2, rest.writes);
    CrashIsStopped(d, DoCommitAllocation(b), limit);
    CrashIsStopped(d2, DoRecoverAllocation(b.objectiveConfig), limit - 2);
    hide *;
    var d1 := Apply(d, PutJournal(j));
    TwoWrites(d, PutJournal(j), PutState(d2.state));
    assert [PutJournal(j)] + ([PutState(d2.state)] + rest.writes) == [PutJournal(j), PutState(d2.state)] + rest.writes;
    ApplyConcat(d, [PutJournal(j), PutState(d2.state)], rest.writes);
    StoppedAfterOne(d, p, PutJournal(j), [PutState(d2.state)] + rest.writes, limit);
    StoppedAfterOne(d1, Plan([PutState(d2.state)] + rest.writes, false), PutState(d2.state), rest.writes, limit - 1);
    SameWrites(d2, rest, Plan(rest.writes, false), limit - 2);
  }

  lemma SameWrites(d: Disk, p: Plan, q: Plan, limit: nat)
    requires p.writes == q.writes
    ensures Stopped(d, p, limit) == Stopped(d, q, limit)
  {
  }

  lemma PreparedIsDiscarded(d: Disk, h: History, b: Batch)
    requires Inv(d, h) && Quiet(d, h) && Allocatable(d, b) && b.allocationId !in h.used
    ensures Complete(d.(journal := Some(JournalFor(d, b))), DoRecoverAllocation(b.objectiveConfig)) == d
  {
    var d1 := d.(journal := Some(JournalFor(d, b)));
    var h1 := h.(used := h.used + {b.allocationId});
    assert !h.overrun;
    PreparedInv(d, h, b);
    hide Inv, InPreparation, JournalFor, ValidJournal, Allocatable;
    ClassificationIsExact(d1, h1);
    UnlinkEnds(d1, b.objectiveConfig);
    hide AllocationStatus, InPublication, ApplyAll;
  }

  // Main result: a batch cut off anywhere and then recovered is either complete
  // or has left no trace.
  lemma BatchIsAllOrNothing(d: Disk, h: History, b: Batch, limit: nat)
    requires Inv(d, h) && Quiet(d, h) && b.allocationId !in h.used
    ensures Complete(Crash(d, DoCommitAllocation(b), limit), DoRecoverAllocation(b.objectiveConfig))
         == if limit >= 2 then Complete(d, DoCommitAllocation(b)) else d
  {
    hide Inv, Allocatable;
    if !Allocatable(d, b) {
      RefusedBatch(d, b, limit);
      NoJournalNoRecovery(d, b.objectiveConfig);
    } else {
      hide Crash, Complete, Quiet;
      var j := JournalFor(d, b);
      if limit >= 2 {
        CommittedRun(d, b, limit);
        CommittedInv(d, h, b);
        RecoveryRestarts(d.(journal := Some(j), state := AllocatedState(d.state, j)),
                         h.(used := h.used + {b.allocationId}, commits := h.commits + [Allocated(j)]),
                         b.objectiveConfig, limit - 2);
      } else {
        CutBeforeCommit(d, h, b, limit);
        PreparedIsDiscarded(d, h, b);
      }
    }
  }

  lemma RefusedBatch(d: Disk, b: Batch, limit: nat)
    requires !Allocatable(d, b)
    ensures Crash(d, DoCommitAllocation(b), limit) == d && Complete(d, DoCommitAllocation(b)) == d
  {
    assert CommitAllocation(d, b) == REFUSED;
  }

  lemma CutBeforeCommit(d: Disk, h: History, b: Batch, limit: nat)
    requires Inv(d, h) && Quiet(d, h) && Allocatable(d, b) && limit < 2
    ensures Crash(d, DoCommitAllocation(b), limit)
         == if limit == 1 then d.(journal := Some(JournalFor(d, b))) else d
    ensures Complete(d, DoRecoverAllocation(b.objectiveConfig)) == d
  {
    NoJournalNoRecovery(d, b.objectiveConfig);
    CommitShape(d, h, b, limit);
    CrashIsStopped(d, DoCommitAllocation(b), limit);
    var j := JournalFor(d, b);
    var d2 := d.(journal := Some(j), state := AllocatedState(d.state, j));
    var rest := [PutState(d2.state)] + RecoverAllocation(d2, b.objectiveConfig).writes;
    var p := CommitAllocation(d, b);
    assert Apply(d, PutJournal(j)) == d.(journal := Some(j));
    hide *;
    if limit == 0 {
      StoppedAtOnce(d, p);
    } else {
      StoppedAfterOne(d, p, PutJournal(j), rest, 1);
      StoppedAtOnce(Apply(d, PutJournal(j)), Plan(rest, false));
    }
  }

  // The two possible shapes of finishing a rebuild.
  lemma RebuildFinishShape(d: Disk, h: History)
    requires Inv(d, h) && InRebuild(d, h)
    ensures PendingRebuild(d.state).Some?
    ensures var row := [RebuildRow(PendingRebuild(d.state).value)];
            && Publish(d.events, row).Some?
            && var events := Publish(d.events, row).value;
            && Publish(events, row) == Some(events)
            && RecoverRebuild(d).writes
               == if events == d.events then [PutState(Cleared(d.state))]
                  else [PutEvents(events), PutState(Cleared(d.state))]
  {
    assert PendingRebuild(d.state).Some? && OptimizerOK(d.state);
    hide *;
    RecoverRebuildFinishes(d, h);
    var row := [RebuildRow(PendingRebuild(d.state).value)];
    var events := Publish(d.events, row).value;
    RecoverRebuildShape(d, events);
    RowIsBlock(PendingRebuild(d.state).value);
    PublishTwice(d.events, row);
    WriteShape(d.events, events, PutState(Cleared(d.state)));
  }

  lemma RowIsBlock(e: RebuildEvent)
    ensures Block([RebuildRow(e)])
  {
  }

  lemma WriteShape(before: Log, after: Log, last: Write)
    ensures PublishWrites(before, after, PutEvents(after)) + [last]
         == if after == before then [last] else [PutEvents(after), last]
  {
  }

  // With the audit event in place, finishing only clears the marker.
  lemma PublishedFinish(d: Disk, h: History, e: Disk)
    requires Inv(d, h) && InRebuild(d, h)
    requires PendingRebuild(d.state).Some?
    requires Publish(d.events, [RebuildRow(PendingRebuild(d.state).value)]) == Some(e.events)
    requires e == d.(events := e.events)
    ensures Complete(e, DoRecoverRebuild) == e.(state := Cleared(d.state))
    ensures Complete(e.(state := Cleared(d.state)), DoRecoverRebuild) == e.(state := Cleared(d.state))
  {
    assert OptimizerOK(d.state);
    assert Complete(e, DoRecoverRebuild) == ApplyAll(e, RecoverRebuild(e).writes);
    assert PublishWrites(e.events, e.events, PutEvents(e.events)) == [];
    hide *;
    RebuildFinishShape(d, h);
    ClearedHasNoRebuild(d.state);
    var clear := PutState(Cleared(d.state));
    RecoverRebuildShape(e, e.events);
    assert [] + [clear] == [clear];
    TwoWrites(e, clear, clear);
    NothingToFinish(e.(state := Cleared(d.state)));
  }

  lemma ClearedHasNoRebuild(s: State)
    ensures PendingRebuild(Cleared(s)).None?
  {
  }

  lemma NothingToFinish(d: Disk)
    requires PendingRebuild(d.state).None?
    ensures RecoverRebuild(d) == NOTHING && Complete(d, DoRecoverRebuild) == d
  {
  }

  // Finishing a rebuild can be cut off and rerun at will.
  lemma RebuildRestarts(d: Disk, h: History, limit: nat)
    requires Inv(d, h)
    ensures Complete(Crash(d, DoRecoverRebuild, limit), DoRecoverRebuild) == Complete(d, DoRecoverRebuild)
  {
    CrashIsStopped(d, DoRecoverRebuild, limit);
    if PendingRebuild(d.state).None? {
      NothingToFinish(d);
      RefusedStops(d, NOTHING, limit);
    } else {
      assert InRebuild(d, h) by { hide BlockForm, Numbered, OptimizerOK, HistoryOK, Kept; }
      RebuildFinishShape(d, h);
      RebuildRestartsFrom(d, h, limit);
    }
  }

  lemma RebuildRestartsFrom(d: Disk, h: History, limit: nat)
    requires Inv(d, h) && InRebuild(d, h)
    ensures Complete(Stopped(d, RecoverRebuild(d), limit), DoRecoverRebuild) == Complete(d, DoRecoverRebuild)
  {
    assert PendingRebuild(d.state).Some?;
    assert Complete(d, DoRecoverRebuild) == ApplyAll(d, RecoverRebuild(d).writes);
    hide *;
    RebuildFinishShape(d, h);
    var e := d.(events := Publish(d.events, [RebuildRow(PendingRebuild(d.state).value)]).value);
    var clear := PutState(Cleared(d.state));
    PublishedFinish(d, h, e);
    ApplyTwo(d, e, clear);
    SameWrites(d, RecoverRebuild(d), Plan(RecoverRebuild(d).writes, false), limit);
    if e.events == d.events {
      StoppedOne(d, clear, limit);
      TwoWrites(d, clear, clear);
    } else {
      StoppedTwo(d, PutEvents(e.events), clear, limit);
      TwoWrites(d, PutEvents(e.events), clear);
    }
  }

  lemma ApplyTwo(d: Disk, e: Disk, clear: Write)
    requires e == d.(events := e.events) && clear.PutState?
    ensures Apply(d, PutEvents(e.events)) == e && Apply(e, clear) == e.(state := clear.state)
  {
  }

  // Main result: the same for a rebuild and its audit event.
  lemma RebuildIsAllOrNothing(d: Disk, h: History, r: RebuildRequest, limit: nat)
    requires Inv(d, h) && Quiet(d, h) && r.rebuildId !in h.used
    ensures Complete(Crash(d, DoRebuild(r), limit), DoRecoverRebuild)
         == if limit >= 1 then Complete(d, DoRebuild(r)) else d
  {
    QuietHasNoRebuild(d, h);
    hide *;
    if Rebuildable(d, r) { RebuildCommitsWhole(d, h, r, limit); } else { RefusedRebuild(d, r, limit); }
  }

  lemma QuietHasNoRebuild(d: Disk, h: History)
    requires Quiet(d, h)
    ensures PendingRebuild(d.state).None?
  {
    hide BlockForm, EventsOf, DecisionsOf;
  }

  lemma CompleteRebuild(d: Disk, r: RebuildRequest)
    ensures Complete(d, DoRebuild(r)) == ApplyAll(d, RebuildOptimizer(d, r).writes)
    ensures Complete(d, DoRecoverRebuild) == ApplyAll(d, RecoverRebuild(d).writes)
  {
    hide RebuildOptimizer, RecoverRebuild, ApplyAll;
  }

  lemma RefusedRebuild(d: Disk, r: RebuildRequest, limit: nat)
    requires !Rebuildable(d, r) && PendingRebuild(d.state).None?
    ensures Complete(Crash(d, DoRebuild(r), limit), DoRecoverRebuild) == d && Complete(d, DoRebuild(r)) == d
  {
    NothingToFinish(d);
    RebuildOtherwise(d, History([], {}, false), r, limit);
    CompleteRebuild(d, r);
    CrashIsStopped(d, DoRebuild(r), limit);
    hide RebuildOptimizer, Rebuildable, Complete, Crash, RecoverRebuild;
    RefusedStops(d, RebuildOptimizer(d, r), limit);
  }

  lemma RebuildCommitsWhole(d: Disk, h: History, r: RebuildRequest, limit: nat)
    requires Inv(d, h) && Rebuildable(d, r) && r.rebuildId !in h.used && PendingRebuild(d.state).None?
    ensures Complete(Crash(d, DoRebuild(r), limit), DoRecoverRebuild)
         == if limit >= 1 then Complete(d, DoRebuild(r)) else d
  {
    var s := RebuiltState(d.state, r);
    var d1 := d.(state := s);
    assert Apply(d, PutState(s)) == d1;
    hide *;
    RebuildPlan(d, h, r, limit);
    CompleteRebuild(d, r);
    CompleteRebuild(d1, r);
    CrashIsStopped(d, DoRebuild(r), limit);
    if limit == 0 {
      NothingToFinish(d);
      StoppedAtOnce(d, RebuildOptimizer(d, r));
    } else {
      CommittedRebuildResumes(d, h, r, limit - 1);
      AfterTheFirst(d, RebuildOptimizer(d, r), PutState(s), RecoverRebuild(d1), limit);
      CrashIsStopped(d1, DoRecoverRebuild, limit - 1);
    }
  }

  lemma CommittedRebuildResumes(d: Disk, h: History, r: RebuildRequest, limit: nat)
    requires Inv(d, h) && Rebuildable(d, r) && r.rebuildId !in h.used
    ensures var d1 := d.(state := RebuiltState(d.state, r));
            Complete(Crash(d1, DoRecoverRebuild, limit), DoRecoverRebuild) == Complete(d1, DoRecoverRebuild)
  {
    var s := RebuiltState(d.state, r);
    hide *;
    RebuiltInv(d, h, r);
    RebuildRestarts(d.(state := s),
                    h.(used := h.used + {r.rebuildId}, commits := h.commits + [Rebuilt(PendingRebuild(s).value)]), limit);
  }

  // A plan that starts with one write and goes on as another plan.
  lemma AfterTheFirst(d: Disk, p: Plan, first: Write, rest: Plan, limit: nat)
    requires p.writes == [first] + rest.writes && limit >= 1
    ensures Stopped(d, p, limit) == Stopped(Apply(d, first), rest, limit - 1)
    ensures ApplyAll(d, p.writes) == ApplyAll(Apply(d, first), rest.writes)
  {
    hide *;
    StoppedAfterOne(d, p, first, rest.writes, limit);
    SameWrites(Apply(d, first), rest, Plan(rest.writes, false), limit - 1);
    TwoWrites(d, first, first);
    ApplyConcat(d, [first], rest.writes);
  }
}
