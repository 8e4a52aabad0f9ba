// The campaign as an atomic machine, without journals, crashes or recovery: the
// crashing system refines it.
module CampaignAtomic {
  import opened Wrappers
  import opened CampaignData
  import opened CampaignLogs
  import opened Campaign
  import opened CampaignInvariant
  import opened CampaignRecovery
  import opened CampaignRuns

  // Canonical state, the commits in order, and the unowned rows of both logs.
  datatype Ledger = Ledger(state: State, commits: seq<Commit>, decisions: Log, events: Log)

  datatype Op =
    | Allocate(batch: Batch)
    | Reset(request: RebuildRequest)
    | End(id: nat, detail: string)
    | Beat(beat: nat, note: string)
    | Take(cores: seq<Core>, contract: nat, config: string)
    | NoteEvent(event: LogRow)
    | NoteDecision(decision: LogRow)

  function Atomic(l: Ledger, op: Op): Ledger {
    match op
    case Allocate(b) =>
      var snapshot := NextSnapshot(l.state, b);
      if snapshot.None? || |b.decisions| != |b.cores| then l
      else
        var j := NewJournal(l.state, b, snapshot.value);
        l.(state := AllocatedState(l.state, j), commits := l.commits + [Allocated(j)])
    case Reset(r) =>
      if l.state.optimizer.None? then l
      else
        var s := RebuiltState(l.state, r);
        l.(state := Cleared(s), commits := l.commits + [Rebuilt(PendingRebuild(s).value)])
    case End(id, detail) =>
      var i := IndexOf(l.state.pending, id);
      if i.None? then l else l.(state := FinishedState(l.state, i.value, detail))
    case Beat(id, note) =>
      var i := IndexOf(l.state.pending, id);
      if i.None? then l else l.(state := BeatState(l.state, i.value, note))
    case Take(cores, contract, config) => l.(state := ImportedState(l.state, cores, contract, config))
    case NoteEvent(row) => l.(events := l.events + [row])
    case NoteDecision(row) => l.(decisions := l.decisions + [row])
  }

  function AtomicRun(l: Ledger, ops: seq<Op>): Ledger
    decreases |ops|
  {
    if ops == [] then l else AtomicRun(Atomic(l, ops[0]), ops[1..])
  }

  // What a crashing campaign looks like from outside: a rebuild event still to be
  // published is already a commit.
  function View(d: Disk, commits: seq<Commit>): Ledger {
    Ledger(Cleared(d.state), commits, Owned(d.decisions, Nobody), Owned(d.events, Nobody))
  }

  // The atomic operations a command performed before it was cut off.
  function OpsOf(d: Disk, c: Command, limit: nat): seq<Op> {
    match c
    case DoCommitAllocation(b) => if Allocatable(d, b) && limit >= 2 then [Allocate(b)] else []
    case DoRebuild(r) => if Rebuildable(d, r) && limit >= 1 then [Reset(r)] else []
    case DoFinish(id, detail, eventFirst) =>
      var note := NoteEvent(Unowned(id, detail));
      if IndexOf(d.state.pending, id).None? || limit < 2 then []
      else if eventFirst then [note] + if limit >= 3 then [End(id, detail)] else []
      else [End(id, detail)] + if limit >= 3 then [note] else []
    case DoRetireStale(ids, why) =>
      var rows := RetiredRows(d.state, ids, why);
      if rows == [] || limit == 0 then [] else Ends(ids, why) + Notes(rows, why, (limit - 1) / 2)
    case DoHeartbeat(id, note) =>
      if IndexOf(d.state.pending, id).None? || limit < 2 then []
      else [Beat(id, note)] + if limit >= 3 then [NoteEvent(Unowned(id, "heartbeat"))] else []
    case DoImport(cores, contract, config) =>
      if ImportObservations(d, cores, contract, config).writes == [] || limit <= |cores| then []
      else [Take(cores, contract, config)]
           + if limit >= |cores| + 2 then [NoteEvent(Unowned(0, "observations_imported"))] else []
    case DoAppendEvent(text) => if limit >= 1 then [NoteEvent(Unowned(0, text))] else []
    case DoAppendDecision(text) => if limit >= 1 then [NoteDecision(Unowned(0, text))] else []
    case _ => []
  }

  function Ends(ids: seq<nat>, detail: string): (r: seq<Op>)
    ensures forall op :: op in r ==> op.End?
  {
    if ids == [] then [] else [End(ids[0], detail)] + Ends(ids[1..], detail)
  }

  // The first n of these rows' events.
  function Notes(rows: seq<Trial>, detail: string, n: nat): (r: seq<Op>)
    ensures forall op :: op in r ==> op.NoteEvent?
  {
    if rows == [] || n == 0 then []
    else [NoteEvent(Unowned(rows[0].id, detail))] + Notes(rows[1..], detail, n - 1)
  }

  // ---- writes that cannot be seen from outside --------------------------------------------

  predicate Silent(w: Write, l: Ledger) {
    match w
    case PutState(s) => Cleared(s) == l.state
    case PutDecisions(log) => Owned(log, Nobody) == l.decisions
    case PutEvents(log) => Owned(log, Nobody) == l.events
    case _ => true
  }

  predicate AllSilent(ws: seq<Write>, l: Ledger) {
    forall w :: w in ws ==> Silent(w, l)
  }

  lemma {:induction false} SilentWrites(d: Disk, ws: seq<Write>, l: Ledger)
    requires l == View(d, l.commits) && AllSilent(ws, l)
    ensures View(ApplyAll(d, ws), l.commits) == l
    decreases |ws|
  {
    if ws != [] {
      assert Silent(ws[0], l);
      SilentApply(d, ws[0], l);
      hide Silent, Apply, View;
      SilentWrites(Apply(d, ws[0]), ws[1..], l);
    }
  }

  lemma SilentApply(d: Disk, w: Write, l: Ledger)
    requires l == View(d, l.commits) && Silent(w, l)
    ensures View(Apply(d, w), l.commits) == l
  {
    hide Owned, Cleared;
  }

  lemma SilentStops(d: Disk, p: Plan, limit: nat, commits: seq<Commit>)
    requires AllSilent(p.writes, View(d, commits))
    ensures View(Stopped(d, p, limit), commits) == View(d, commits)
  {
    assert View(d, commits).commits == commits;
    hide View, Silent;
    var k := if limit < |p.writes| then limit else |p.writes|;
    forall w | w in p.writes[..k] ensures w in p.writes {}
    SilentWrites(d, p.writes[..k], View(d, commits));
  }

  lemma PublishIsSilent(log: Log, rows: Log)
    requires Block(rows)
    ensures Publish(log, rows).Some? ==> Owned(Publish(log, rows).value, Nobody) == Owned(log, Nobody)
  {
    OwnedAppends(log, rows, Nobody);
    OwnedOfBlock(rows, Nobody);
  }

  // The writes of a recovery, one by one.
  lemma RecoverWrites(d: Disk, cfg: string, w: Write)
    requires w in RecoverAllocation(d, cfg).writes
    ensures d.journal.Some? && ValidJournal(d.journal.value)
    ensures var j := d.journal.value;
            || w == DropJournal
            || w in ManifestWrites(d.state, j.suggestions)
            || (w.PutDecisions? && Publish(d.decisions, j.decisions) == Some(w.log))
            || (w.PutEvents? && Publish(d.events, j.events) == Some(w.log))
  {
    hide ManifestWrites, Publish, AllocationStatus;
  }

  // Recovery is invisible from outside, whatever the disk.
  lemma RecoverAllocationIsSilent(d: Disk, cfg: string, commits: seq<Commit>)
    ensures AllSilent(RecoverAllocation(d, cfg).writes, View(d, commits))
  {
    forall w | w in RecoverAllocation(d, cfg).writes ensures Silent(w, View(d, commits)) {
      hide RecoverAllocation, Owned, Publish, Cleared, ManifestWrites;
      RecoverWrites(d, cfg, w);
      var j := d.journal.value;
      PublishIsSilent(d.decisions, j.decisions);
      PublishIsSilent(d.events, j.events);
      ManifestWritesAreManifests(d.state, j.suggestions);
    }
  }

  lemma RecoverRebuildIsSilent(d: Disk, commits: seq<Commit>)
    ensures AllSilent(RecoverRebuild(d).writes, View(d, commits))
  {
    if PendingRebuild(d.state).Some? {
      var row := [RebuildRow(PendingRebuild(d.state).value)];
      assert Block(row);
      PublishIsSilent(d.events, row);
      assert Cleared(Cleared(d.state)) == Cleared(d.state);
      hide Owned, Publish, Block, Cleared;
    }
  }

  // ---- one command -----------------------------------------------------------------------------

  lemma OneOp(l: Ledger, op: Op)
    ensures AtomicRun(l, []) == l
    ensures AtomicRun(l, [op]) == Atomic(l, op)
    ensures [op] + [] == [op]
  {
    assert [op][1..] == [];
  }

  lemma TwoOps(l: Ledger, a: Op, b: Op)
    ensures AtomicRun(l, [a] + [b]) == Atomic(Atomic(l, a), b)
  {
    hide Atomic;
    assert ([a] + [b])[1..] == [b] && ([a] + [b])[0] == a;
    OneOp(Atomic(l, a), b);
  }

  lemma NoteRow(log: Log, row: LogRow)
    requires row.owner == Nobody
    ensures Owned(log + [row], Nobody) == Owned(log, Nobody) + [row]
  {
    assert (log + [row])[..|log|] == log;
  }

  // ---- plans, write by write -------------------------------------------------------------------

  lemma StoppedAfterOne(d: Disk, p: Plan, first: Write, rest: seq<Write>, limit: nat)
    requires p.writes == [first] + rest && limit >= 1
    ensures Stopped(d, p, limit) == Stopped(Apply(d, first), Plan(rest, false), limit - 1)
  {
    hide Apply;
    StoppedInSecond(d, p, [first], rest, limit);
    assert [first][1..] == [];
    assert ApplyAll(Apply(d, first), []) == Apply(d, first);
    assert ApplyAll(d, [first]) == Apply(d, first);
  }

  lemma StoppedAtOnce(d: Disk, p: Plan)
    ensures Stopped(d, p, 0) == d
  {
  }

  lemma StoppedThree(d: Disk, p: Plan, limit: nat)
    requires |p.writes| == 3
    ensures var d1 := Apply(d, p.writes[0]);
            var d2 := Apply(d1, p.writes[1]);
            Stopped(d, p, limit)
            == if limit == 0 then d else if limit == 1 then d1 else if limit == 2 then d2 else Apply(d2, p.writes[2])
  {
    var w := p.writes;
    var d1, d2 := Apply(d, w[0]), Apply(Apply(d, w[0]), w[1]);
    assert w == [w[0]] + [w[1], w[2]] && [w[1], w[2]] == [w[1]] + [w[2]] && [w[2]] == [w[2]] + [];
    hide *;
    if limit == 0 {
      StoppedAtOnce(d, p);
    } else {
      StoppedAfterOne(d, p, w[0], [w[1], w[2]], limit);
      StoppedTwo(d1, w[1], w[2], limit - 1);
    }
  }

  lemma StoppedTwo(d: Disk, a: Write, b: Write, limit: nat)
    ensures Stopped(d, Plan([a, b], false), limit)
         == if limit == 0 then d else if limit == 1 then Apply(d, a) else Apply(Apply(d, a), b)
  {
    assert [a, b] == [a] + [b] && [b] == [b] + [];
    hide *;
    if limit == 0 {
      StoppedAtOnce(d, Plan([a, b], false));
    } else {
      StoppedAfterOne(d, Plan([a, b], false), a, [b], limit);
      if limit == 1 {
        StoppedAtOnce(Apply(d, a), Plan([b], false));
      } else {
        StoppedAfterOne(Apply(d, a), Plan([b], false), b, [], limit - 1);
        RefusedStops(Apply(Apply(d, a), b), Plan([], false), limit - 2);
      }
    }
  }

  function Outside(sys: Sys): Ledger {
    View(sys.disk, sys.history.commits)
  }

  predicate Refines(sys: Sys, c: Command, limit: nat) {
    Outside(After(sys, c, limit)) == AtomicRun(Outside(sys), OpsOf(sys.disk, c, limit))
  }

  lemma CommitShape(d: Disk, h: History, b: Batch, limit: nat)
    requires Allocatable(d, b)
    ensures var j := JournalFor(d, b);
            var d2 := d.(journal := Some(j), state := AllocatedState(d.state, j));
            && CommitAllocation(d, b).writes
               == [PutJournal(j)] + ([PutState(d2.state)] + RecoverAllocation(d2, b.objectiveConfig).writes)
            && Apply(Apply(d, PutJournal(j)), PutState(d2.state)) == d2
            && HistoryAfter(d, h, DoCommitAllocation(b), limit).commits
               == if limit >= 2 then h.commits + [Allocated(j)] else h.commits
  {
    hide RecoverAllocation, NextSnapshot, NewJournal, AllocatedState;
  }

  lemma CommitView(d: Disk, b: Batch, commits: seq<Commit>)
    requires Allocatable(d, b)
    ensures var j := JournalFor(d, b);
            var d2 := d.(journal := Some(j), state := AllocatedState(d.state, j));
            && View(d2, commits + [Allocated(j)]) == Atomic(View(d, commits), Allocate(b))
            && View(Apply(d, PutJournal(j)), commits) == View(d, commits)
  {
    assert Cleared(d.state) == d.state;
    hide Owned, NextSnapshot, NewJournal;
  }

  lemma CommitRefines(sys: Sys, b: Batch, limit: nat)
    ensures Refines(sys, DoCommitAllocation(b), limit)
  {
    var d, h := sys.disk, sys.history;
    OneOp(Outside(sys), Allocate(b));
    CrashIsStopped(d, DoCommitAllocation(b), limit);
    hide RecoverAllocation, NewJournal, AllocatedState, View, Atomic, Apply;
    if !Allocatable(d, b) {
      assert CommitAllocation(d, b) == REFUSED;
      RefusedStops(d, REFUSED, limit);
    } else {
      CommitShape(d, h, b, limit);
      CommitView(d, b, h.commits);
      CommitShows(d, h, b, limit);
    }
  }

  lemma CommitShows(d: Disk, h: History, b: Batch, limit: nat)
    requires Allocatable(d, b)
    ensures View(Stopped(d, CommitAllocation(d, b), limit), HistoryAfter(d, h, DoCommitAllocation(b), limit).commits)
         == if limit >= 2 then Atomic(View(d, h.commits), Allocate(b)) else View(d, h.commits)
  {
    CommitShape(d, h, b, limit);
    CommitView(d, b, h.commits);
    var j := JournalFor(d, b);
    var d2 := d.(journal := Some(j), state := AllocatedState(d.state, j));
    var rest := RecoverAllocation(d2, b.objectiveConfig).writes;
    var p := CommitAllocation(d, b);
    hide *;
    if limit == 0 {
      StoppedAtOnce(d, p);
    } else {
      var d1 := Apply(d, PutJournal(j));
      StoppedAfterOne(d, p, PutJournal(j), [PutState(d2.state)] + rest, limit);
      if limit == 1 {
        StoppedAtOnce(d1, Plan([PutState(d2.state)] + rest, false));
      } else {
        StoppedAfterOne(d1, Plan([PutState(d2.state)] + rest, false), PutState(d2.state), rest, limit - 1);
        RecoverAllocationIsSilent(d2, b.objectiveConfig, h.commits + [Allocated(j)]);
        SilentStops(d2, Plan(rest, false), limit - 2, h.commits + [Allocated(j)]);
      }
    }
  }

  lemma RebuildView(d: Disk, r: RebuildRequest, commits: seq<Commit>)
    requires Rebuildable(d, r)
    ensures var s := RebuiltState(d.state, r);
            PendingRebuild(s).Some?
            && View(d.(state := s), commits + [Rebuilt(PendingRebuild(s).value)]) == Atomic(View(d, commits), Reset(r))
  {
    assert Cleared(d.state) == d.state;
    hide Owned;
  }

  lemma RebuildRefines(sys: Sys, r: RebuildRequest, limit: nat)
    ensures Refines(sys, DoRebuild(r), limit)
  {
    var d, h := sys.disk, sys.history;
    OneOp(Outside(sys), Reset(r));
    CrashIsStopped(d, DoRebuild(r), limit);
    hide RecoverRebuild, RebuildOptimizer, View, Atomic, Apply, HistoryAfter, Stopped, Crash;
    if Rebuildable(d, r) {
      RebuildShows(d, h, r, limit);
    } else {
      RebuildOtherwise(d, h, r, limit);
      RecoverRebuildIsSilent(d, h.commits);
      assert AllSilent(RebuildOptimizer(d, r).writes, View(d, h.commits));
      SilentStops(d, RebuildOptimizer(d, r), limit, h.commits);
    }
  }

  lemma RebuildShows(d: Disk, h: History, r: RebuildRequest, limit: nat)
    requires Rebuildable(d, r)
    ensures View(Stopped(d, RebuildOptimizer(d, r), limit), HistoryAfter(d, h, DoRebuild(r), limit).commits)
         == if limit >= 1 then Atomic(View(d, h.commits), Reset(r)) else View(d, h.commits)
  {
    RebuildPlan(d, h, r, limit);
    RebuildView(d, r, h.commits);
    var s := RebuiltState(d.state, r);
    assert Apply(d, PutState(s)) == d.(state := s);
    var p := RebuildOptimizer(d, r);
    var rest := RecoverRebuild(d.(state := s)).writes;
    hide *;
    if limit == 0 {
      StoppedAtOnce(d, p);
    } else {
      var commits := h.commits + [Rebuilt(PendingRebuild(s).value)];
      StoppedAfterOne(d, p, PutState(s), rest, limit);
      RecoverRebuildIsSilent(d.(state := s), commits);
      SilentStops(d.(state := s), Plan(rest, false), limit - 1, commits);
    }
  }

  lemma FinishViews(d: Disk, commits: seq<Commit>, id: nat, detail: string)
    requires IndexOf(d.state.pending, id).Some?
    ensures var i := IndexOf(d.state.pending, id).value;
            var s := FinishedState(d.state, i, detail);
            var row := Unowned(id, detail);
            && Atomic(View(d, commits), End(id, detail)) == View(d.(state := s), commits)
            && Atomic(View(d, commits), NoteEvent(row)) == View(d.(events := d.events + [row]), commits)
            && Atomic(Atomic(View(d, commits), End(id, detail)), NoteEvent(row))
               == View(d.(state := s, events := d.events + [row]), commits)
               == Atomic(Atomic(View(d, commits), NoteEvent(row)), End(id, detail))
  {
    hide Owned, IndexOf;
    NoteRow(d.events, Unowned(id, detail));
  }

  lemma FinishPlan(d: Disk, id: nat, detail: string, eventFirst: bool, limit: nat)
    requires IndexOf(d.state.pending, id).Some?
    ensures var i := IndexOf(d.state.pending, id).value;
            var s := FinishedState(d.state, i, detail);
            var events := d.events + [Unowned(id, detail)];
            var e := Stopped(d, FinishTrial(d, id, detail, eventFirst), limit);
            && e == d.(manifests := e.manifests,
                       state := if limit >= (if eventFirst then 3 else 2) then s else d.state,
                       events := if limit >= (if eventFirst then 2 else 3) then events else d.events)
  {
    hide IndexOf, FinishedState, Stopped, Unowned;
    StoppedThree(d, FinishTrial(d, id, detail, eventFirst), limit);
  }

  lemma SameView(d: Disk, e: Disk, commits: seq<Commit>)
    requires e.state == d.state && e.decisions == d.decisions && e.events == d.events
    ensures View(e, commits) == View(d, commits)
  {
  }

  lemma FinishRefines(sys: Sys, id: nat, detail: string, eventFirst: bool, limit: nat)
    ensures Refines(sys, DoFinish(id, detail, eventFirst), limit)
  {
    hide View, Atomic, AtomicRun, Stopped, IndexOf, Unowned, FinishedState;
    var d, commits := sys.disk, sys.history.commits;
    var l := Outside(sys);
    var note := NoteEvent(Unowned(id, detail));
    var p := FinishTrial(d, id, detail, eventFirst);
    OneOp(l, note);
    if IndexOf(d.state.pending, id).None? {
      assert p == REFUSED;
      RefusedStops(d, p, limit);
    } else {
      var s := FinishedState(d.state, IndexOf(d.state.pending, id).value, detail);
      var events := d.events + [Unowned(id, detail)];
      FinishPlan(d, id, detail, eventFirst, limit);
      FinishViews(d, commits, id, detail);
      var e := Stopped(d, p, limit);
      SameView(d.(state := e.state, events := e.events), e, commits);
      OneOp(l, End(id, detail));
      TwoOps(l, note, End(id, detail));
      TwoOps(l, End(id, detail), note);
    }
  }

  lemma {:induction false} EndsRetire(l: Ledger, ids: seq<nat>, detail: string)
    ensures AtomicRun(l, Ends(ids, detail)) == l.(state := RetiredState(l.state, ids, detail))
    decreases |ids|
  {
    if ids != [] {
      var first := End(ids[0], detail);
      var next := Atomic(l, first);
      EndsRetire(next, ids[1..], detail);
      hide IndexOf, FinishedState;
      assert ([first] + Ends(ids[1..], detail))[1..] == Ends(ids[1..], detail);
    }
  }

  lemma {:induction false} RetiredIsVisible(s: State, ids: seq<nat>, detail: string)
    ensures Cleared(RetiredState(s, ids, detail)) == RetiredState(Cleared(s), ids, detail)
    decreases |ids|
  {
    if ids != [] {
      var i := IndexOf(s.pending, ids[0]);
      hide IndexOf;
      RetiredIsVisible(if i.None? then s else FinishedState(s, i.value, detail), ids[1..], detail);
    }
  }

  lemma RetiredView(d: Disk, commits: seq<Commit>, ids: seq<nat>, detail: string)
    ensures View(d.(state := RetiredState(d.state, ids, detail)), commits)
         == AtomicRun(View(d, commits), Ends(ids, detail))
  {
    EndsRetire(View(d, commits), ids, detail);
    RetiredIsVisible(d.state, ids, detail);
    hide RetiredState, Owned, Cleared, AtomicRun;
  }

  lemma {:induction false} NotesView(d: Disk, commits: seq<Commit>, rows: seq<Trial>, detail: string, limit: nat)
    ensures View(Stopped(d, Plan(RetirementWrites(d.events, rows, detail), false), limit), commits)
         == AtomicRun(View(d, commits), Notes(rows, detail, limit / 2))
    decreases |rows|
  {
    var p := Plan(RetirementWrites(d.events, rows, detail), false);
    hide View, Stopped, Atomic, Apply;
    if rows == [] {
      RefusedStops(d, p, limit);
    } else {
      var row := Unowned(rows[0].id, detail);
      var manifest, event := PutManifest(rows[0].id, Manifest(rows[0], false)), PutEvents(d.events + [row]);
      var rest := RetirementWrites(d.events + [row], rows[1..], detail);
      if limit == 0 {
        StoppedAtOnce(d, p);
      } else {
        var d1 := Apply(d, manifest);
        ApplyIs(d, manifest);
        SameView(d, d1, commits);
        StoppedAfterOne(d, p, manifest, [event] + rest, limit);
        if limit == 1 {
          StoppedAtOnce(d1, Plan([event] + rest, false));
        } else {
          var d2 := Apply(d1, event);
          ApplyIs(d1, event);
          StoppedAfterOne(d1, Plan([event] + rest, false), event, rest, limit - 1);
          AppendViews(d1, commits, row);
          NotesView(d2, commits, rows[1..], detail, limit - 2);
          assert (limit - 2) / 2 == limit / 2 - 1;
          NoteFirst(View(d1, commits), NoteEvent(row), Notes(rows[1..], detail, limit / 2 - 1));
        }
      }
    }
  }

  lemma NoteFirst(l: Ledger, op: Op, rest: seq<Op>)
    ensures AtomicRun(l, [op] + rest) == AtomicRun(Atomic(l, op), rest)
  {
    hide Atomic;
    assert ([op] + rest)[1..] == rest;
  }

  lemma RetireRefines(sys: Sys, ids: seq<nat>, detail: string, limit: nat)
    ensures Refines(sys, DoRetireStale(ids, detail), limit)
  {
    var d, l, commits := sys.disk, Outside(sys), sys.history.commits;
    var c, p := DoRetireStale(ids, detail), RetireStale(d, ids, detail);
    var rows := RetiredRows(d.state, ids, detail);
    CrashIsStopped(d, c, limit);
    hide View, AtomicRun, Stopped, Apply, Crash, RetiredRows, RetiredState, RetirementWrites, Ends, Notes;
    if rows == [] {
      RefusedStops(d, p, limit);
      OneOp(l, Beat(0, ""));
    } else if limit == 0 {
      StoppedAtOnce(d, p);
      OneOp(l, Beat(0, ""));
    } else {
      var s := RetiredState(d.state, ids, detail);
      var d1 := d.(state := s);
      ApplyIs(d, PutState(s));
      StoppedAfterOne(d, p, PutState(s), RetirementWrites(d.events, rows, detail), limit);
      RetiredView(d, commits, ids, detail);
      NotesView(d1, commits, rows, detail, limit - 1);
      AtomicConcat(l, Ends(ids, detail), Notes(rows, detail, (limit - 1) / 2));
    }
  }

  lemma HeartbeatViews(d: Disk, commits: seq<Commit>, id: nat, note: string)
    requires IndexOf(d.state.pending, id).Some?
    ensures var s := BeatState(d.state, IndexOf(d.state.pending, id).value, note);
            var row := Unowned(id, "heartbeat");
            && Atomic(View(d, commits), Beat(id, note)) == View(d.(state := s), commits)
            && Atomic(Atomic(View(d, commits), Beat(id, note)), NoteEvent(row))
               == View(d.(state := s, events := d.events + [row]), commits)
  {
    hide Owned, IndexOf;
    NoteRow(d.events, Unowned(id, "heartbeat"));
  }

  lemma HeartbeatPlan(d: Disk, id: nat, note: string, limit: nat)
    ensures IndexOf(d.state.pending, id).None? ==> Stopped(d, Heartbeat(d, id, note), limit) == d
    ensures IndexOf(d.state.pending, id).Some? ==>
              var e := Stopped(d, Heartbeat(d, id, note), limit);
              e == d.(manifests := e.manifests,
                      state := if limit >= 2 then BeatState(d.state, IndexOf(d.state.pending, id).value, note)
                               else d.state,
                      events := if limit >= 3 then d.events + [Unowned(id, "heartbeat")] else d.events)
  {
    hide IndexOf, BeatState, Stopped, Unowned;
    var p := Heartbeat(d, id, note);
    if IndexOf(d.state.pending, id).Some? { StoppedThree(d, p, limit); } else { RefusedStops(d, p, limit); }
  }

  lemma HeartbeatRefines(sys: Sys, id: nat, note: string, limit: nat)
    ensures Refines(sys, DoHeartbeat(id, note), limit)
  {
    hide View, Atomic, AtomicRun, Stopped, Heartbeat, IndexOf, Unowned, BeatState;
    var d, commits := sys.disk, sys.history.commits;
    var l := Outside(sys);
    var row := Unowned(id, "heartbeat");
    OneOp(l, Beat(id, note));
    HeartbeatPlan(d, id, note, limit);
    if IndexOf(d.state.pending, id).Some? {
      HeartbeatViews(d, commits, id, note);
      var e := Stopped(d, Heartbeat(d, id, note), limit);
      SameView(d.(state := e.state, events := e.events), e, commits);
      TwoOps(l, Beat(id, note), NoteEvent(row));
    }
  }

  lemma AppendViews(d: Disk, commits: seq<Commit>, row: LogRow)
    requires row.owner == Nobody
    ensures View(Apply(d, PutEvents(d.events + [row])), commits) == Atomic(View(d, commits), NoteEvent(row))
    ensures View(Apply(d, PutDecisions(d.decisions + [row])), commits) == Atomic(View(d, commits), NoteDecision(row))
  {
    hide Owned, Cleared;
    NoteRow(d.events, row);
    NoteRow(d.decisions, row);
  }

  lemma AppendRefines(sys: Sys, text: string, limit: nat)
    ensures Refines(sys, DoAppendEvent(text), limit) && Refines(sys, DoAppendDecision(text), limit)
  {
    hide View, Atomic, AtomicRun, Stopped, Apply;
    var d, l := sys.disk, Outside(sys);
    var row := Unowned(0, text);
    AppendViews(d, sys.history.commits, row);
    OneOp(l, NoteEvent(row));
    OneOp(l, NoteDecision(row));
    StoppedOne(d, PutEvents(d.events + [row]), limit);
    StoppedOne(d, PutDecisions(d.decisions + [row]), limit);
  }

  lemma StoppedOne(d: Disk, w: Write, limit: nat)
    ensures Stopped(d, Plan([w], false), limit) == if limit == 0 then d else Apply(d, w)
  {
    assert [w] == [w] + [];
    hide *;
    if limit == 0 {
      StoppedAtOnce(d, Plan([w], false));
    } else {
      StoppedAfterOne(d, Plan([w], false), w, [], limit);
      RefusedStops(Apply(d, w), Plan([], false), limit - 1);
    }
  }

  lemma ManifestsAreSilent(d: Disk, ws: seq<Write>, commits: seq<Commit>)
    requires ManifestsOnly(ws)
    ensures AllSilent(ws, View(d, commits))
    ensures ApplyAll(d, ws) == d.(manifests := ApplyAll(d, ws).manifests)
    decreases |ws|
  {
    hide View;
    if ws != [] {
      assert ws[0] in ws;
      ManifestsAreSilent(Apply(d, ws[0]), ws[1..], commits);
    }
  }

  lemma ImportRefines(sys: Sys, cores: seq<Core>, contract: nat, config: string, limit: nat)
    ensures Refines(sys, DoImport(cores, contract, config), limit)
  {
    var d, h, l := sys.disk, sys.history, Outside(sys);
    var c := DoImport(cores, contract, config);
    var p := ImportObservations(d, cores, contract, config);
    var row := Unowned(0, "observations_imported");
    CrashIsStopped(d, c, limit);
    OneOp(l, Take(cores, contract, config));
    TwoOps(l, Take(cores, contract, config), NoteEvent(row));
    if p.writes == [] {
      RefusedStops(d, p, limit);
    } else {
      ImportStops(d, h.commits, cores, contract, config, limit);
      hide ImportObservations, AtomicRun, Atomic, Stopped, View, Crash;
    }
  }

  lemma ImportStops(d: Disk, commits: seq<Commit>, cores: seq<Core>, contract: nat, config: string, limit: nat)
    requires ImportObservations(d, cores, contract, config).writes != []
    ensures View(Stopped(d, ImportObservations(d, cores, contract, config), limit), commits)
         == if limit <= |cores| then View(d, commits)
            else if limit == |cores| + 1 then Atomic(View(d, commits), Take(cores, contract, config))
            else Atomic(Atomic(View(d, commits), Take(cores, contract, config)),
                        NoteEvent(Unowned(0, "observations_imported")))
  {
    var p := ImportObservations(d, cores, contract, config);
    var m := TerminalManifests(NewTrials(d.state.nextTrialId, cores));
    var s := ImportedState(d.state, cores, contract, config);
    var row := Unowned(0, "observations_imported");
    var rest := [PutState(s), PutEvents(d.events + [row])];
    assert p.writes == m + rest;
    TerminalManifestsAreManifests(NewTrials(d.state.nextTrialId, cores));
    if limit <= |cores| {
      ManifestsAreSilent(d, m, commits);
      StoppedInFirst(d, p, m, rest, limit);
      hide ManifestsOnly, View;
      SilentStops(d, Plan(m, false), limit, commits);
    } else {
      ManifestsAreSilent(d, m, commits);
      StoppedInSecond(d, p, m, rest, limit);
      ImportView(d, ApplyAll(d, m), commits, cores, contract, config);
      hide View, Atomic, Apply, ImportedState, ImportObservations;
      StoppedTwo(ApplyAll(d, m), rest[0], rest[1], limit - |m|);
    }
  }

  lemma ImportView(d: Disk, d1: Disk, commits: seq<Commit>, cores: seq<Core>, contract: nat, config: string)
    requires d1 == d.(manifests := d1.manifests)
    ensures var took := Atomic(View(d, commits), Take(cores, contract, config));
            var row := Unowned(0, "observations_imported");
            var d2 := Apply(d1, PutState(ImportedState(d.state, cores, contract, config)));
            && View(d2, commits) == took
            && View(Apply(d2, PutEvents(d.events + [row])), commits) == Atomic(took, NoteEvent(row))
  {
    hide Owned;
    NoteRow(d.events, Unowned(0, "observations_imported"));
  }

  // Main result: a command cut off anywhere is a few atomic operations, and
  // recovery is none at all.
  lemma StepRefines(sys: Sys, c: Command, limit: nat)
    ensures Refines(sys, c, limit)
  {
    CrashIsStopped(sys.disk, c, limit);
    OtherHistory(sys.disk, sys.history, c, limit);
    match c
    case DoRecoverAllocation(cfg) =>
      hide RecoverAllocation, View;
      RecoverAllocationIsSilent(sys.disk, cfg, sys.history.commits);
      SilentStops(sys.disk, RecoverAllocation(sys.disk, cfg), limit, sys.history.commits);
    case DoCommitAllocation(b) => CommitRefines(sys, b, limit);
    case DoRecoverRebuild =>
      hide RecoverRebuild, View;
      RecoverRebuildIsSilent(sys.disk, sys.history.commits);
      SilentStops(sys.disk, RecoverRebuild(sys.disk), limit, sys.history.commits);
    case DoRebuild(r) => RebuildRefines(sys, r, limit);
    case DoFinish(id, detail, eventFirst) => FinishRefines(sys, id, detail, eventFirst, limit);
    case DoRetireStale(ids, why) => RetireRefines(sys, ids, why, limit);
    case DoHeartbeat(id, note) => HeartbeatRefines(sys, id, note, limit);
    case DoImport(cores, contract, config) => ImportRefines(sys, cores, contract, config, limit);
    case DoAppendEvent(text) => AppendRefines(sys, text, limit);
    case DoAppendDecision(text) => AppendRefines(sys, text, limit);
  }

  function RunOps(sys: Sys, steps: seq<Step>): seq<Op>
    decreases |steps|
  {
    if steps == [] then []
    else
      OpsOf(sys.disk, steps[0].command, steps[0].limit)
      + RunOps(After(sys, steps[0].command, steps[0].limit), steps[1..])
  }

  lemma {:induction false} AtomicConcat(l: Ledger, a: seq<Op>, b: seq<Op>)
    ensures AtomicRun(l, a + b) == AtomicRun(AtomicRun(l, a), b)
    decreases |a|
  {
    hide Atomic;
    if a == [] {
      assert a + b == b;
    } else {
      AtomicConcat(Atomic(l, a[0]), a[1..], b);
      assert (a + b)[0] == a[0] && (a + b)[1..] == a[1..] + b;
    }
  }

  // Main result: every run with crashes and recoveries looks like an atomic run.
  lemma {:induction false} RunRefines(sys: Sys, steps: seq<Step>)
    ensures Outside(Run(sys, steps)) == AtomicRun(Outside(sys), RunOps(sys, steps))
    decreases |steps|
  {
    hide Outside, After, OpsOf, Atomic;
    if steps != [] {
      var next := After(sys, steps[0].command, steps[0].limit);
      StepRefines(sys, steps[0].command, steps[0].limit);
      RunRefines(next, steps[1..]);
      AtomicConcat(Outside(sys), OpsOf(sys.disk, steps[0].command, steps[0].limit), RunOps(next, steps[1..]));
    }
  }
}
