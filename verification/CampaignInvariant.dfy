// What every reachable campaign satisfies, whatever crashed and when.
module CampaignInvariant {
  import opened Wrappers
  import opened CampaignData
  import opened CampaignLogs
  import opened Campaign

  // A commit point passed: a batch or a rebuild.
  datatype Commit = Allocated(journal: Journal) | Rebuilt(event: RebuildEvent)

  // The commits in order, the identifiers drawn so far, and whether an import
  // moved the trial counter while a journal was still only prepared.
  datatype History = History(commits: seq<Commit>, used: set<string>, overrun: bool)

  function CommitId(c: Commit): string {
    match c
    case Allocated(j) => j.allocationId
    case Rebuilt(e) => e.recovery.rebuildId
  }

  function DecisionsOf(commits: seq<Commit>): seq<Log> {
    if commits == [] then []
    else
      var c := commits[|commits| - 1];
      DecisionsOf(commits[..|commits| - 1]) + if c.Allocated? then [c.journal.decisions] else []
  }

  function EventsOf(commits: seq<Commit>): seq<Log> {
    if commits == [] then []
    else
      var c := commits[|commits| - 1];
      EventsOf(commits[..|commits| - 1]) + [if c.Allocated? then c.journal.events else [RebuildRow(c.event)]]
  }

  predicate HistoryOK(h: History) {
    && (forall c :: c in h.commits ==> CommitId(c) in h.used && CommitId(c) != "")
    && (forall c :: c in h.commits && c.Allocated? ==> ValidJournal(c.journal))
    && (forall i, j :: 0 <= i < j < |h.commits| ==> CommitId(h.commits[i]) != CommitId(h.commits[j]))
  }

  predicate Has(rows: seq<Trial>, t: Trial) {
    exists r :: r in rows && r.id == t.id && r.core == t.core
  }

  // Every committed suggestion is still canonical, with the fields it was given.
  predicate Kept(commits: seq<Commit>, s: State) {
    forall c, t :: c in commits && c.Allocated? && t in c.journal.suggestions
      ==> Has(Rows(s), t) && t.id < s.nextTrialId
  }

  predicate SnapshotOK(p: Snapshot) {
    if p.format == 2 then p.fingerprint.Contract2? else p.format == 1 && p.fingerprint.Contract1?
  }

  predicate OptimizerOK(s: State) {
    s.optimizer.Some? ==>
      var o := s.optimizer.value;
      && (o.format == 1 || o.format == 2)
      && (o.snapshot.Some? ==> SnapshotOK(o.snapshot.value) && o.snapshot.value.format == o.format
                               && o.fingerprint == Some(o.snapshot.value.fingerprint)
                               && o.lastRebuild == o.snapshot.value.lastRebuild)
      && (o.snapshot.None? ==> o.format == 2 && o.lastRebuild == None)
      && (o.pendingRebuild.Some? ==> ValidRebuildEvent(o, o.pendingRebuild.value))
  }

  // ---- the four phases -----------------------------------------------------------

  predicate DecisionsAt(d: Disk, commits: seq<Commit>) {
    BlockForm(d.decisions, DecisionsOf(commits))
  }

  predicate EventsAt(d: Disk, commits: seq<Commit>) {
    BlockForm(d.events, EventsOf(commits))
  }

  predicate Quiet(d: Disk, h: History) {
    && d.journal.None? && PendingRebuild(d.state).None? && !h.overrun
    && DecisionsAt(d, h.commits) && EventsAt(d, h.commits)
  }

  // A journal whose state write has not happened.
  predicate InPreparation(d: Disk, h: History) {
    && d.journal.Some? && PendingRebuild(d.state).None?
    && var j := d.journal.value;
    && ValidJournal(j)
    && j.allocationId in h.used && (forall c :: c in h.commits ==> CommitId(c) != j.allocationId)
    && Pointer(d.state) == j.previousSnapshot && j.previousSnapshot != Some(j.snapshot)
    && (if h.overrun then d.state.nextTrialId > j.suggestions[0].id else d.state.nextTrialId == j.suggestions[0].id)
    && DecisionsAt(d, h.commits) && EventsAt(d, h.commits)
  }

  function Earlier(h: History): seq<Commit>
    requires h.commits != []
  {
    h.commits[..|h.commits| - 1]
  }

  function Latest(h: History): Commit
    requires h.commits != []
  {
    h.commits[|h.commits| - 1]
  }

  // A committed batch whose publication may be unfinished.
  predicate InPublication(d: Disk, h: History) {
    && d.journal.Some? && PendingRebuild(d.state).None? && !h.overrun
    && h.commits != [] && Latest(h) == Allocated(d.journal.value)
    && Pointer(d.state) == Some(d.journal.value.snapshot)
    && (DecisionsAt(d, h.commits) || DecisionsAt(d, Earlier(h)))
    && (EventsAt(d, h.commits) || EventsAt(d, Earlier(h)))
  }

  // A committed rebuild whose audit event may be unpublished.
  predicate InRebuild(d: Disk, h: History) {
    && d.journal.None? && PendingRebuild(d.state).Some? && !h.overrun
    && h.commits != [] && Latest(h) == Rebuilt(PendingRebuild(d.state).value)
    && DecisionsAt(d, h.commits)
    && (EventsAt(d, h.commits) || EventsAt(d, Earlier(h)))
  }

  predicate Inv(d: Disk, h: History) {
    && Numbered(d.state) && OptimizerOK(d.state) && HistoryOK(h) && Kept(h.commits, d.state)
    && (Quiet(d, h) || InPreparation(d, h) || InPublication(d, h) || InRebuild(d, h))
  }

  // ---- blocks of a history ----------------------------------------------------------

  lemma OneMoreCommit(commits: seq<Commit>, c: Commit)
    ensures EventsOf(commits + [c])
         == EventsOf(commits) + [if c.Allocated? then c.journal.events else [RebuildRow(c.event)]]
    ensures DecisionsOf(commits + [c])
         == DecisionsOf(commits) + if c.Allocated? then [c.journal.decisions] else []
  {
    assert (commits + [c])[..|commits|] == commits;
  }

  lemma HistorySplits(h: History)
    requires h.commits != []
    ensures h.commits == Earlier(h) + [Latest(h)]
  {
  }

  function CommitOwner(c: Commit): Owner {
    match c
    case Allocated(j) => Allocation(j.allocationId)
    case Rebuilt(e) => Rebuild(e.recovery.rebuildId)
  }

  lemma {:induction false} EventOwners(commits: seq<Commit>, h: History)
    requires HistoryOK(h) && commits <= h.commits
    ensures |EventsOf(commits)| == |commits|
    ensures forall i :: 0 <= i < |commits| ==>
              Block(EventsOf(commits)[i]) && OwnerOf(EventsOf(commits)[i]) == CommitOwner(commits[i])
    decreases |commits|
  {
    if commits != [] {
      var n := |commits| - 1;
      EventOwners(commits[..n], h);
      CommitRows(commits[n], h, n);
    }
  }

  lemma CommitRows(c: Commit, h: History, n: nat)
    requires HistoryOK(h) && n < |h.commits| && c == h.commits[n]
    ensures c.Allocated? ==> Block(c.journal.events) && OwnerOf(c.journal.events) == CommitOwner(c)
    ensures c.Allocated? ==> Block(c.journal.decisions) && OwnerOf(c.journal.decisions) == CommitOwner(c)
    ensures c.Rebuilt? ==> Block([RebuildRow(c.event)]) && OwnerOf([RebuildRow(c.event)]) == CommitOwner(c)
  {
    assert c in h.commits;
  }

  lemma DistinctOwners(h: History, i: nat, j: nat)
    requires HistoryOK(h) && i < j < |h.commits|
    ensures CommitOwner(h.commits[i]) != CommitOwner(h.commits[j])
  {
    assert CommitId(h.commits[i]) != CommitId(h.commits[j]);
  }

  lemma EventBlocks(commits: seq<Commit>, h: History)
    requires HistoryOK(h) && commits <= h.commits
    ensures Blocks(EventsOf(commits))
  {
    EventOwners(commits, h);
    hide EventsOf, CommitOwner;
    forall i, j | 0 <= i < j < |commits|
      ensures OwnerOf(EventsOf(commits)[i]) != OwnerOf(EventsOf(commits)[j])
    {
      DistinctOwners(h, i, j);
    }
  }

  predicate OwnedByOneOf(b: Log, commits: seq<Commit>) {
    exists i :: 0 <= i < |commits| && OwnerOf(b) == CommitOwner(commits[i])
  }

  lemma {:induction false} DecisionOwners(commits: seq<Commit>, h: History)
    requires HistoryOK(h) && commits <= h.commits
    ensures forall b :: b in DecisionsOf(commits) ==> Block(b) && OwnedByOneOf(b, commits)
    decreases |commits|
  {
    if commits != [] {
      var n := |commits| - 1;
      DecisionOwners(commits[..n], h);
      CommitRows(commits[n], h, n);
      forall b | b in DecisionsOf(commits[..n]) ensures OwnedByOneOf(b, commits) {
        var i :| 0 <= i < n && OwnerOf(b) == CommitOwner(commits[..n][i]);
        assert commits[i] == commits[..n][i];
      }
      if commits[n].Allocated? { assert OwnerOf(commits[n].journal.decisions) == CommitOwner(commits[n]); }
    }
  }

  lemma {:induction false} DecisionBlocks(commits: seq<Commit>, h: History)
    requires HistoryOK(h) && commits <= h.commits
    ensures Blocks(DecisionsOf(commits))
    decreases |commits|
  {
    if commits != [] {
      var n := |commits| - 1;
      var earlier := DecisionsOf(commits[..n]);
      DecisionBlocks(commits[..n], h);
      DecisionOwners(commits[..n], h);
      CommitRows(commits[n], h, n);
      forall b | b in earlier ensures OwnerOf(b) != CommitOwner(commits[n]) {
        var i :| 0 <= i < n && OwnerOf(b) == CommitOwner(commits[..n][i]);
        DistinctOwners(h, i, n);
      }
      assert forall i :: 0 <= i < |earlier| ==> earlier[i] in earlier;
    }
  }
}
