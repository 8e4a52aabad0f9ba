// What holds of the logs, manifests, trials and formats of every campaign.
module CampaignGuarantees {
  import opened Wrappers
  import opened CampaignData
  import opened CampaignLogs
  import opened Campaign
  import opened CampaignInvariant
  import opened CampaignIds
  import opened CampaignRecovery
  import opened CampaignRuns
  import opened CampaignAtomic
  import opened CampaignTheorems

  // ---- the logs after recovery --------------------------------------------------------------

  function EventRows(c: Commit): Log {
    if c.Allocated? then c.journal.events else [RebuildRow(c.event)]
  }

  function DecisionRows(c: Commit): Log {
    if c.Allocated? then c.journal.decisions else []
  }

  // The rows of the commit with this owner, by one of the two row functions.
  function RowsOwned(commits: seq<Commit>, o: Owner, decisions: bool): Log {
    if commits == [] then []
    else
      var c := commits[|commits| - 1];
      if CommitOwner(c) == o then (if decisions then DecisionRows(c) else EventRows(c))
      else RowsOwned(commits[..|commits| - 1], o, decisions)
  }

  lemma {:induction false} EventBlockOf(commits: seq<Commit>, h: History, o: Owner)
    requires HistoryOK(h) && commits <= h.commits
    ensures BlockOf(EventsOf(commits), o) == RowsOwned(commits, o, false)
    decreases |commits|
  {
    if commits != [] {
      var n := |commits| - 1;
      CommitRows(commits[n], h, n);
      EventsNext(commits);
      EventBlockOf(commits[..n], h, o);
      hide HistoryOK, EventsOf, EventRows, OwnerOf, CommitOwner;
      BlockNext(EventsOf(commits[..n]), EventRows(commits[n]), o);
    }
  }

  lemma EventsNext(commits: seq<Commit>)
    requires commits != []
    ensures EventsOf(commits) == EventsOf(commits[..|commits| - 1]) + [EventRows(commits[|commits| - 1])]
  {
  }

  lemma BlockNext(blocks: seq<Log>, b: Log, o: Owner)
    ensures BlockOf(blocks + [b], o) == if OwnerOf(b) == o then b else BlockOf(blocks, o)
  {
    assert (blocks + [b])[..|blocks|] == blocks;
    hide OwnerOf;
  }

  lemma {:induction false} DecisionBlockOf(commits: seq<Commit>, h: History, o: Owner)
    requires HistoryOK(h) && commits <= h.commits && o != Nobody
    ensures BlockOf(DecisionsOf(commits), o) == RowsOwned(commits, o, true)
    decreases |commits|
  {
    if commits != [] {
      var n := |commits| - 1;
      var c := commits[n];
      CommitRows(c, h, n);
      DecisionBlockOf(commits[..n], h, o);
      if c.Allocated? {
        assert DecisionsOf(commits)[..|DecisionsOf(commits)| - 1] == DecisionsOf(commits[..n]);
      } else {
        assert DecisionsOf(commits) == DecisionsOf(commits[..n]);
        if CommitOwner(c) == o { NoDecisions(commits, h, n); }
      }
    }
  }

  lemma NoDecisions(commits: seq<Commit>, h: History, n: nat)
    requires HistoryOK(h) && commits <= h.commits && n < |commits|
    ensures BlockOf(DecisionsOf(commits[..n]), CommitOwner(commits[n])) == []
  {
    DecisionOwners(commits[..n], h);
    forall b | b in DecisionsOf(commits[..n]) ensures OwnerOf(b) != CommitOwner(commits[n]) {
      var i :| 0 <= i < n && OwnerOf(b) == CommitOwner(commits[..n][i]);
      DistinctOwners(h, i, n);
    }
    NoBlockOf(DecisionsOf(commits[..n]), CommitOwner(commits[n]));
  }

  lemma {:induction false} RowsOfCommit(commits: seq<Commit>, h: History, i: nat, decisions: bool)
    requires HistoryOK(h) && commits <= h.commits && i < |commits|
    ensures RowsOwned(commits, CommitOwner(commits[i]), decisions)
         == if decisions then DecisionRows(commits[i]) else EventRows(commits[i])
    decreases |commits|
  {
    var n := |commits| - 1;
    if i < n {
      DistinctOwners(h, i, n);
      RowsOfCommit(commits[..n], h, i, decisions);
    }
  }

  lemma {:induction false} RowsOfStranger(commits: seq<Commit>, o: Owner, decisions: bool)
    requires forall c :: c in commits ==> CommitOwner(c) != o
    ensures RowsOwned(commits, o, decisions) == []
  {
    if commits != [] { RowsOfStranger(commits[..|commits| - 1], o, decisions); }
  }

  // With nothing outstanding, the rows of every commit are in the logs exactly
  // once and complete, and no other identifier owns a row.
  lemma QuietLogsAreExact(d: Disk, h: History)
    requires Inv(d, h) && Quiet(d, h)
    ensures forall c :: c in h.commits ==>
              Owned(d.events, CommitOwner(c)) == EventRows(c) && Owned(d.decisions, CommitOwner(c)) == DecisionRows(c)
    ensures forall o :: o != Nobody && (forall c :: c in h.commits ==> CommitOwner(c) != o) ==>
              Owned(d.events, o) == [] && Owned(d.decisions, o) == []
  {
    hide *;
    forall c | c in h.commits
      ensures Owned(d.events, CommitOwner(c)) == EventRows(c) && Owned(d.decisions, CommitOwner(c)) == DecisionRows(c)
    {
      CommitIsLogged(d, h, c);
    }
    forall o | o != Nobody && (forall c :: c in h.commits ==> CommitOwner(c) != o)
      ensures Owned(d.events, o) == [] && Owned(d.decisions, o) == []
    {
      OwnerIsLogged(d, h, o);
      RowsOfStranger(h.commits, o, false);
      RowsOfStranger(h.commits, o, true);
    }
  }

  lemma OwnerIsLogged(d: Disk, h: History, o: Owner)
    requires Inv(d, h) && Quiet(d, h) && o != Nobody
    ensures Owned(d.events, o) == RowsOwned(h.commits, o, false)
    ensures Owned(d.decisions, o) == RowsOwned(h.commits, o, true)
  {
    assert HistoryOK(h) && BlockForm(d.events, EventsOf(h.commits)) && BlockForm(d.decisions, DecisionsOf(h.commits));
    hide *;
    EventBlocks(h.commits, h);
    DecisionBlocks(h.commits, h);
    OwnedInBlockForm(d.events, EventsOf(h.commits), o);
    EventBlockOf(h.commits, h, o);
    OwnedInBlockForm(d.decisions, DecisionsOf(h.commits), o);
    DecisionBlockOf(h.commits, h, o);
  }

  lemma CommitIsLogged(d: Disk, h: History, c: Commit)
    requires Inv(d, h) && Quiet(d, h) && c in h.commits
    ensures Owned(d.events, CommitOwner(c)) == EventRows(c) && Owned(d.decisions, CommitOwner(c)) == DecisionRows(c)
  {
    assert CommitOwner(c) != Nobody && HistoryOK(h);
    hide *;
    OwnerIsLogged(d, h, CommitOwner(c));
    var i :| 0 <= i < |h.commits| && h.commits[i] == c;
    RowsOfCommit(h.commits, h, i, false);
    RowsOfCommit(h.commits, h, i, true);
  }

  // The objective configuration under which a journal can be published.
  predicate ConfigMatches(d: Disk, h: History, cfg: string) {
    !h.overrun && (d.journal.Some? && InPublication(d, h) ==> cfg == d.journal.value.objectiveConfig)
  }

  function BothRecovered(d: Disk, cfg: string): Disk {
    Complete(Complete(d, DoRecoverAllocation(cfg)), DoRecoverRebuild)
  }

  lemma AllocationRecovered(d: Disk, h: History, cfg: string)
    requires Inv(d, h) && ConfigMatches(d, h, cfg)
    ensures var d1 := Complete(d, DoRecoverAllocation(cfg));
            && !RecoverAllocation(d, cfg).failed && Inv(d1, h) && d1.journal.None? && d1.state == d.state
            && (d.journal.Some? && InPublication(d, h) ==>
                  d1.manifests == ApplyAll(d, ManifestWrites(d.state, d.journal.value.suggestions)).manifests)
            && (!(d.journal.Some? && InPublication(d, h)) ==> d1 == d.(journal := None))
  {
    if d.journal.None? {
      NoJournalNoRecovery(d, cfg);
    } else {
      ClassificationIsExact(d, h);
      if InPublication(d, h) {
        RecoverCommitted(d, h, cfg);
        RecoverIsSafe(d, h, cfg);
        hide RecoverAllocation, Inv, InPublication, ApplyAll, ManifestWrites, AllocationStatus;
        CompleteIsStopped(d, h, DoRecoverAllocation(cfg));
        SafeStops(d, RecoverAllocation(d, cfg), h, |RecoverAllocation(d, cfg).writes|);
      } else {
        DropIsQuiet(d, h);
        UnlinkEnds(d, cfg);
        hide Inv, InPublication, AllocationStatus, ValidJournal;
      }
    }
  }

  lemma CompleteIsStopped(d: Disk, h: History, c: Command)
    ensures Complete(d, c) == Stopped(d, PlanOf(d, c), |PlanOf(d, c).writes|)
  {
    hide PlanOf;
    var ws := PlanOf(d, c).writes;
    assert ws[..|ws|] == ws;
  }

  // Main result: whatever crashed before, recovering the allocation and the
  // rebuild leaves the canonical state alone, nothing outstanding, and logs that
  // hold each commit's rows exactly once.
  lemma RecoveredCampaign(d: Disk, h: History, cfg: string)
    requires Inv(d, h) && ConfigMatches(d, h, cfg)
    ensures Inv(BothRecovered(d, cfg), h) && Quiet(BothRecovered(d, cfg), h)
    ensures BothRecovered(d, cfg).state == Cleared(d.state)
    ensures View(BothRecovered(d, cfg), h.commits) == View(d, h.commits)
    ensures forall c :: c in h.commits ==>
              && Owned(BothRecovered(d, cfg).events, CommitOwner(c)) == EventRows(c)
              && Owned(BothRecovered(d, cfg).decisions, CommitOwner(c)) == DecisionRows(c)
    ensures forall o :: o != Nobody && (forall c :: c in h.commits ==> CommitOwner(c) != o) ==>
              Owned(BothRecovered(d, cfg).events, o) == [] && Owned(BothRecovered(d, cfg).decisions, o) == []
  {
    var d1 := Complete(d, DoRecoverAllocation(cfg));
    AllocationRecovered(d, h, cfg);
    hide ApplyAll, ManifestWrites, RecoverAllocation, Inv, InPublication, Owned, Quiet, View, EventRows, DecisionRows,
         Complete, Cleared;
    RebuildRecovered(d1, h);
    QuietLogsAreExact(BothRecovered(d, cfg), h);
    RecoveriesAreSilent(d, cfg, h);
  }

  // The same over every run from an empty campaign.
  lemma EveryRunRecovers(steps: seq<Step>, cfg: string)
    requires FreshRun(INITIAL, steps)
    requires ConfigMatches(Run(INITIAL, steps).disk, Run(INITIAL, steps).history, cfg)
    ensures var d, h := Run(INITIAL, steps).disk, Run(INITIAL, steps).history;
            var e := BothRecovered(d, cfg);
            && Quiet(e, h) && Numbered(e.state) && e.state == Cleared(d.state)
            && View(e, h.commits) == View(d, h.commits)
            && (forall c :: c in h.commits ==>
                  Owned(e.events, CommitOwner(c)) == EventRows(c) && Owned(e.decisions, CommitOwner(c)) == DecisionRows(c))
            && (forall o :: o != Nobody && (forall c :: c in h.commits ==> CommitOwner(c) != o) ==>
                  Owned(e.events, o) == [] && Owned(e.decisions, o) == [])
  {
    EveryRunKeepsInv(steps);
    var d, h := Run(INITIAL, steps).disk, Run(INITIAL, steps).history;
    hide Run, FreshRun, ConfigMatches, BothRecovered, Quiet, Owned, EventRows, DecisionRows, CommitOwner, View;
    RecoveredCampaign(d, h, cfg);
    assert Numbered(BothRecovered(d, cfg).state) by { hide BlockForm, HistoryOK, Kept, OptimizerOK; }
  }

  lemma RebuildRecovered(d: Disk, h: History)
    requires Inv(d, h) && d.journal.None?
    ensures var d1 := Complete(d, DoRecoverRebuild);
            Inv(d1, h) && Quiet(d1, h) && d1.state == Cleared(d.state)
  {
    if PendingRebuild(d.state).None? {
      NothingToFinish(d);
      QuietUnlessJournal(d, h);
      assert Cleared(d.state) == d.state;
    } else {
      assert InRebuild(d, h) by { hide BlockForm, Numbered, OptimizerOK, HistoryOK, Kept; }
      hide Inv, InRebuild, Quiet, RecoverRebuild, Safe;
      RecoverRebuildFinishes(d, h);
      CompleteIsStopped(d, h, DoRecoverRebuild);
      SafeStops(d, RecoverRebuild(d), h, |RecoverRebuild(d).writes|);
    }
  }

  lemma RecoveriesAreSilent(d: Disk, cfg: string, h: History)
    ensures View(BothRecovered(d, cfg), h.commits) == View(d, h.commits)
  {
    hide View, RecoverAllocation, RecoverRebuild, AllSilent, Stopped;
    var d1 := Complete(d, DoRecoverAllocation(cfg));
    CompleteIsStopped(d, h, DoRecoverAllocation(cfg));
    CompleteIsStopped(d1, h, DoRecoverRebuild);
    RecoverAllocationIsSilent(d, cfg, h.commits);
    SilentStops(d, RecoverAllocation(d, cfg), |RecoverAllocation(d, cfg).writes|, h.commits);
    RecoverRebuildIsSilent(d1, h.commits);
    SilentStops(d1, RecoverRebuild(d1), |RecoverRebuild(d1).writes|, h.commits);
  }

  // ---- manifests: recovery never resurrects pending work -----------------------------------------

  lemma {:induction false} ManifestOverlay(s: State, ts: seq<Trial>)
    ensures ManifestsOnly(ManifestWrites(s, ts))
    ensures forall t :: t in ts ==> t.id in Overlay(ManifestWrites(s, ts))
    ensures forall id :: id in Overlay(ManifestWrites(s, ts)) ==>
              exists t :: t in ts && t.id == id && Overlay(ManifestWrites(s, ts))[id] == CurrentManifest(s, t)
  {
    ManifestWritesAreManifests(s, ts);
    if ts != [] {
      ManifestOverlay(s, ts[1..]);
      var ws := ManifestWrites(s, ts);
      hide CurrentManifest, ManifestsOnly;
      assert ws[1..] == ManifestWrites(s, ts[1..]);
      forall id | id in Overlay(ws) ensures exists t :: t in ts && t.id == id && Overlay(ws)[id] == CurrentManifest(s, t) {
        if id in Overlay(ws[1..]) {
          var t :| t in ts[1..] && t.id == id && Overlay(ws[1..])[id] == CurrentManifest(s, t);
          assert t in ts;
        } else {
          assert ts[0] in ts;
        }
      }
    }
  }

  lemma CurrentRow(s: State, t: Trial)
    requires Numbered(s) && Find(Rows(s), t.id).Some?
    ensures exists r :: r in Rows(s) && r.id == t.id && CurrentManifest(s, t) == Manifest(r, r in s.pending)
  {
    FindNone(s.pending, t.id);
    FindNone(s.observations, t.id);
    FindNone(Rows(s), t.id);
    var r := Find(Rows(s), t.id).value;
    hide Find;
    var m := CurrentManifest(s, t);
    assert m.row in Rows(s) && m.row.id == t.id;
    NumberedMeansExactlyOnce(s, t.id);
  }

  // Main result: after recovery the manifest of every trial of the batch is its
  // canonical row, pending exactly if it still is.
  lemma RecoveredManifests(d: Disk, h: History, cfg: string, t: Trial)
    requires Inv(d, h) && d.journal.Some? && InPublication(d, h) && ConfigMatches(d, h, cfg)
    requires t in d.journal.value.suggestions
    ensures var m := Complete(d, DoRecoverAllocation(cfg)).manifests;
            t.id in m && exists r :: r in Rows(d.state) && r.id == t.id && m[t.id] == Manifest(r, r in d.state.pending)
  {
    AllocationRecovered(d, h, cfg);
    var j := d.journal.value;
    var ws := ManifestWrites(d.state, j.suggestions);
    ManifestOverlay(d.state, j.suggestions);
    ApplyIsOverlay(d, ws);
    var u :| u in j.suggestions && u.id == t.id && Overlay(ws)[t.id] == CurrentManifest(d.state, u);
    PublicationIsCommitted(d, h);
    CommittedMatches(d, u);
    hide Overlay, ManifestWrites, InPublication, Complete, RecoverAllocation, CurrentManifest, ApplyAll, Inv, ConfigMatches;
    CurrentRow(d.state, u);
  }

  lemma CommittedMatches(d: Disk, t: Trial)
    requires d.journal.Some? && ValidJournal(d.journal.value)
    requires AllocationStatus(d.journal.value, d.state) == Committed && t in d.journal.value.suggestions
    ensures Find(Rows(d.state), t.id).Some?
  {
    assert Matches(d.state, t);
  }
}
