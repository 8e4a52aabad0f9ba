// The same commands as the program performs them: a controller that updates its
// files in place and may die after any atomic write. Each method is proved
// against the plan the campaign theorems are about.
module CampaignController {
  import opened Wrappers
  import opened CampaignData
  import opened CampaignLogs
  import opened Campaign
  import opened CampaignRecovery
  import opened CampaignRuns
  import opened CampaignAtomic

  function Left(n: nat, used: nat): nat {
    if n < used then 0 else n - used
  }

  lemma StoppedTwice(d: Disk, a: seq<Write>, b: seq<Write>, n: nat)
    ensures Stopped(Stopped(d, Plan(a, false), n), Plan(b, false), Left(n, |a|)) == Stopped(d, Plan(a + b, false), n)
    ensures Left(Left(n, |a|), |b|) == Left(n, |a + b|)
  {
    if n <= |a| {
      StoppedInFirst(d, Plan(a + b, false), a, b, n);
      StoppedAtOnce(Stopped(d, Plan(a, false), n), Plan(b, false));
    } else {
      StoppedInSecond(d, Plan(a + b, false), a, b, n);
      assert a[..|a|] == a;
    }
  }

  lemma ManifestWritesSnoc(s: State, ts: seq<Trial>, t: Trial)
    ensures ManifestWrites(s, ts + [t]) == ManifestWrites(s, ts) + [PutManifest(t.id, CurrentManifest(s, t))]
  {
    hide CurrentManifest;
    if ts == [] {
      assert [t][1..] == [];
    } else {
      ManifestWritesSnoc(s, ts[1..], t);
      assert (ts + [t])[1..] == ts[1..] + [t];
    }
  }

  lemma TwoThen(d: Disk, j: Journal, s: State, rest: seq<Write>, n: nat)
    ensures var d2 := d.(journal := Some(j), state := s);
            var all := [PutJournal(j), PutState(s)] + rest;
            var e := Stopped(Stopped(d, Plan([PutJournal(j)], false), n), Plan([PutState(s)], false), Left(n, 1));
            && (n >= 2 ==> e == d2 && Stopped(d2, Plan(rest, false), n - 2) == Stopped(d, Plan(all, false), n))
            && (n < 2 ==> e == Stopped(d, Plan(all, false), n))
  {
    var two := [PutJournal(j), PutState(s)];
    assert two == [PutJournal(j)] + [PutState(s)];
    assert Apply(Apply(d, PutJournal(j)), PutState(s)) == d.(journal := Some(j), state := s);
    hide *;
    StoppedTwo(d, PutJournal(j), PutState(s), n);
    LeftOf(n);
    StoppedTwice(d, [PutJournal(j)], [PutState(s)], n);
    StoppedTwice(d, two, rest, n);
    if n < 2 { StoppedAtOnce(Stopped(d, Plan(two, false), n), Plan(rest, false)); }
  }

  lemma LeftOf(n: nat)
    ensures Left(n, 1) == (if n == 0 then 0 else n - 1) && Left(n, 2) == (if n < 2 then 0 else n - 2)
  {
  }

  lemma OneThen(d: Disk, s: State, rest: seq<Write>, n: nat)
    ensures var e := Stopped(d, Plan([PutState(s)], false), n);
            && (n >= 1 ==> e == d.(state := s)
                           && Stopped(e, Plan(rest, false), n - 1) == Stopped(d, Plan([PutState(s)] + rest, false), n))
            && (n == 0 ==> e == Stopped(d, Plan([PutState(s)] + rest, false), n))
  {
    assert Apply(d, PutState(s)) == d.(state := s);
    hide *;
    StoppedOne(d, PutState(s), n);
    LeftOf(n);
    StoppedTwice(d, [PutState(s)], rest, n);
    if n == 0 { StoppedAtOnce(Stopped(d, Plan([PutState(s)], false), n), Plan(rest, false)); }
  }

  class Controller {
    var journal: Option<Journal>
    var state: State
    var manifests: map<nat, Manifest>
    var decisions: Log
    var events: Log
    // Atomic writes left before the process dies; afterwards the disk stays as it is.
    var budget: nat

    constructor (d: Disk, writes: nat)
      ensures Contents() == d && budget == writes
    {
      journal, state, manifests := d.journal, d.state, d.manifests;
      decisions, events, budget := d.decisions, d.events, writes;
    }

    function Contents(): Disk
      reads this
    {
      Disk(journal, state, manifests, decisions, events)
    }

    // From disk d and n writes to go, the writes ws were performed as far as n allowed.
    predicate Did(d: Disk, n: nat, ws: seq<Write>)
      reads this
    {
      Contents() == Stopped(d, Plan(ws, false), n) && budget == Left(n, |ws|)
    }

    method Perform(w: Write)
      modifies this
      ensures Did(old(Contents()), old(budget), [w])
    {
      StoppedOne(Contents(), w, budget);
      if budget > 0 {
        match w {
          case PutJournal(j) => journal := Some(j);
          case DropJournal => journal := None;
          case PutState(s) => state := s;
          case PutManifest(id, m) => manifests := manifests[id := m];
          case PutDecisions(log) => decisions := log;
          case PutEvents(log) => events := log;
        }
        budget := budget - 1;
      }
    }

    method OwnedRows(log: Log, o: Owner) returns (rows: Log)
      ensures rows == Owned(log, o)
    {
      rows := [];
      for i := 0 to |log|
        invariant rows == Owned(log[..i], o)
      {
        assert log[..i + 1][..i] == log[..i];
        if log[i].owner == o { rows := rows + [log[i]]; }
      }
      assert log[..|log|] == log;
    }

    // _publish_allocation_rows for either log.
    method PublishRows(rows: Log, toEvents: bool) returns (ok: bool)
      requires rows != []
      modifies this
      ensures var log := if toEvents then old(events) else old(decisions);
              ok == Publish(log, rows).Some?
      ensures var log := if toEvents then old(events) else old(decisions);
              var published := Publish(log, rows);
              Did(old(Contents()), old(budget),
                  if published.None? then []
                  else PublishWrites(log, published.value,
                                     if toEvents then PutEvents(published.value) else PutDecisions(published.value)))
      ensures journal == old(journal) && state == old(state) && manifests == old(manifests)
      ensures if toEvents then decisions == old(decisions) else events == old(events)
    {
      var log := if toEvents then events else decisions;
      var present := OwnedRows(log, rows[0].owner);
      RefusedStops(Contents(), Plan([], false), budget);
      if present != [] {
        ok := present == rows;
      } else {
        ok := true;
        assert log + rows != log;
        StoppedOne(Contents(), PutEvents(log + rows), budget);
        StoppedOne(Contents(), PutDecisions(log + rows), budget);
        if toEvents { Perform(PutEvents(log + rows)); } else { Perform(PutDecisions(log + rows)); }
      }
    }

    method WriteManifests(s: State, suggestions: seq<Trial>)
      modifies this
      ensures Did(old(Contents()), old(budget), ManifestWrites(s, suggestions))
      ensures Contents() == old(Contents()).(manifests := manifests)
    {
      ghost var d, n := Contents(), budget;
      RefusedStops(d, Plan([], false), n);
      for i := 0 to |suggestions|
        invariant Did(d, n, ManifestWrites(s, suggestions[..i]))
        invariant Contents() == d.(manifests := manifests)
      {
        var t := suggestions[i];
        assert suggestions[..i + 1] == suggestions[..i] + [t];
        ghost var before := ManifestWrites(s, suggestions[..i]);
        ManifestWritesSnoc(s, suggestions[..i], t);
        hide CurrentManifest, ManifestWrites, Stopped;
        StoppedTwice(d, before, [PutManifest(t.id, CurrentManifest(s, t))], n);
        StoppedOne(Contents(), PutManifest(t.id, CurrentManifest(s, t)), budget);
        Perform(PutManifest(t.id, CurrentManifest(s, t)));
      }
      assert suggestions[..|suggestions|] == suggestions;
    }

    method RecoverAllocation(objectiveConfig: string) returns (ok: bool)
      modifies this
      ensures Did(old(Contents()), old(budget), Campaign.RecoverAllocation(old(Contents()), objectiveConfig).writes)
      ensures ok == !Campaign.RecoverAllocation(old(Contents()), objectiveConfig).failed
    {
      ghost var d, n := Contents(), budget;
      RefusedStops(d, Plan([], false), n);
      if journal.None? { return true; }
      var j := journal.value;
      if !ValidJournal(j) { return false; }
      var status := AllocationStatus(j, state);
      if status == Prepared {
        Perform(DropJournal);
        return true;
      }
      if status != Committed || objectiveConfig != j.objectiveConfig { return false; }
      hide ManifestWrites, Stopped, AllocationStatus, ValidJournal, Publish;
      WriteManifests(state, j.suggestions);
      ghost var m := ManifestWrites(d.state, j.suggestions);
      ghost var x := Publish(d.decisions, j.decisions);
      ghost var a := if x.None? then [] else PublishWrites(d.decisions, x.value, PutDecisions(x.value));
      ok := PublishRows(j.decisions, false);
      StoppedTwice(d, m, a, n);
      if !ok {
        assert m + [] == m;
        return;
      }
      ghost var y := Publish(d.events, j.events);
      ghost var b := if y.None? then [] else PublishWrites(d.events, y.value, PutEvents(y.value));
      ok := PublishRows(j.events, true);
      StoppedTwice(d, m + a, b, n);
      if !ok {
        assert m + a + [] == m + a;
        return;
      }
      Perform(DropJournal);
      StoppedTwice(d, m + a + b, [DropJournal], n);
    }

    method CommitAllocation(b: Batch) returns (ok: bool)
      modifies this
      ensures Did(old(Contents()), old(budget), Campaign.CommitAllocation(old(Contents()), b).writes)
      ensures old(budget) >= 2 ==> ok == !Campaign.CommitAllocation(old(Contents()), b).failed
    {
      ghost var d, n := Contents(), budget;
      RefusedStops(d, Plan([], false), n);
      if |b.cores| == 0 || |b.decisions| != |b.cores| || b.allocationId == "" || PendingRebuild(state).Some? {
        return false;
      }
      var snapshot := NextSnapshot(state, b);
      if snapshot.None? || journal.Some? { return false; }
      var j := NewJournal(state, b, snapshot.value);
      var s := AllocatedState(state, j);
      ghost var d2 := d.(journal := Some(j), state := s);
      ghost var rest := Campaign.RecoverAllocation(d2, b.objectiveConfig).writes;
      assert Campaign.CommitAllocation(d, b) ==
             Plan([PutJournal(j), PutState(s)] + rest, Campaign.RecoverAllocation(d2, b.objectiveConfig).failed);
      TwoThen(d, j, s, rest, n);
      hide Stopped, NextSnapshot, NewJournal, Campaign.RecoverAllocation, Campaign.CommitAllocation;
      Perform(PutJournal(j));
      Perform(PutState(s));
      ghost var e, m := Contents(), budget;
      ok := RecoverAllocation(b.objectiveConfig);
      if m == 0 { StoppedAtOnce(e, Plan(Campaign.RecoverAllocation(e, b.objectiveConfig).writes, false)); }
    }

    method RecoverRebuild() returns (ok: bool)
      modifies this
      ensures Did(old(Contents()), old(budget), Campaign.RecoverRebuild(old(Contents())).writes)
      ensures ok == !Campaign.RecoverRebuild(old(Contents())).failed
    {
      ghost var d, n := Contents(), budget;
      RefusedStops(d, Plan([], false), n);
      if PendingRebuild(state).None? { return true; }
      var e := PendingRebuild(state).value;
      if !ValidRebuildEvent(state.optimizer.value, e) { return false; }
      hide Stopped, Publish, Cleared;
      ghost var y := Publish(d.events, [RebuildRow(e)]);
      ghost var b := if y.None? then [] else PublishWrites(d.events, y.value, PutEvents(y.value));
      ok := PublishRows([RebuildRow(e)], true);
      if !ok { return; }
      assert state == d.state;
      Perform(PutState(Cleared(state)));
      StoppedTwice(d, b, [PutState(Cleared(d.state))], n);
    }

    method RebuildOptimizer(r: RebuildRequest) returns (ok: bool)
      modifies this
      ensures Did(old(Contents()), old(budget), Campaign.RebuildOptimizer(old(Contents()), r).writes)
      ensures old(budget) >= 1 ==> ok == !Campaign.RebuildOptimizer(old(Contents()), r).failed
    {
      ghost var d, n := Contents(), budget;
      RefusedStops(d, Plan([], false), n);
      if state.optimizer.None? || journal.Some? || r.rebuildId == "" { return false; }
      if PendingRebuild(state).Some? {
        ok := RecoverRebuild();
        return;
      }
      if !RebuildAllowed(state, r) { return false; }
      var s := RebuiltState(state, r);
      ghost var d1 := d.(state := s);
      ghost var rest := Campaign.RecoverRebuild(d1).writes;
      assert Campaign.RebuildOptimizer(d, r) == Plan([PutState(s)] + rest, Campaign.RecoverRebuild(d1).failed);
      OneThen(d, s, rest, n);
      hide Stopped, RebuildAllowed, Campaign.RecoverRebuild, Campaign.RebuildOptimizer, RebuiltState;
      Perform(PutState(s));
      ghost var e, m := Contents(), budget;
      ok := RecoverRebuild();
      if m == 0 { StoppedAtOnce(e, Plan(Campaign.RecoverRebuild(e).writes, false)); }
    }

    // ingest, cancel and retire, seen from the files they replace.
    method FinishTrial(id: nat, detail: string, eventFirst: bool) returns (ok: bool)
      modifies this
      ensures Did(old(Contents()), old(budget), Campaign.FinishTrial(old(Contents()), id, detail, eventFirst).writes)
      ensures ok == !Campaign.FinishTrial(old(Contents()), id, detail, eventFirst).failed
    {
      ghost var d, n := Contents(), budget;
      RefusedStops(d, Plan([], false), n);
      var i := IndexOf(state.pending, id);
      if i.None? { return false; }
      hide IndexOf, FinishedState, Stopped;
      var s := FinishedState(state, i.value, detail);
      var first := PutManifest(id, Manifest(s.observations[|s.observations| - 1], false));
      var event, save := PutEvents(events + [Unowned(id, detail)]), PutState(s);
      var second, third := if eventFirst then event else save, if eventFirst then save else event;
      Perform(first);
      Perform(second);
      StoppedTwice(d, [first], [second], n);
      Perform(third);
      StoppedTwice(d, [first] + [second], [third], n);
      assert [first] + [second] + [third] == [first, second, third];
      ok := true;
    }

    // The trials the retirement ends, and the state without them.
    method CollectStale(ids: seq<nat>, why: string) returns (s: State, rows: seq<Trial>)
      ensures s == RetiredState(state, ids, why) && rows == RetiredRows(state, ids, why)
    {
      s, rows := state, [];
      hide IndexOf, FinishedState;
      assert ids[0..] == ids;
      for k := 0 to |ids|
        invariant RetiredState(s, ids[k..], why) == RetiredState(state, ids, why)
        invariant rows + RetiredRows(s, ids[k..], why) == RetiredRows(state, ids, why)
      {
        assert ids[k..][1..] == ids[k + 1..];
        var i := IndexOf(s.pending, ids[k]);
        if i.Some? {
          rows := rows + [s.pending[i.value].(detail := why)];
          s := FinishedState(s, i.value, why);
        }
      }
    }

    // The automatic retirement of stale trials by a suggestion.
    method RetireStale(ids: seq<nat>, why: string) returns (ok: bool)
      modifies this
      ensures Did(old(Contents()), old(budget), Campaign.RetireStale(old(Contents()), ids, why).writes)
      ensures ok
    {
      ghost var d, n := Contents(), budget;
      ghost var all := Campaign.RetireStale(d, ids, why).writes;
      RefusedStops(d, Plan([], false), n);
      var s, rows := CollectStale(ids, why);
      if rows == [] { return true; }
      hide RetiredState, RetiredRows, Stopped;
      var log := events;
      Perform(PutState(s));
      ghost var done := [PutState(s)];
      assert rows[0..] == rows;
      for k := 0 to |rows|
        invariant Did(d, n, done) && done + RetirementWrites(log, rows[k..], why) == all
      {
        var manifest := PutManifest(rows[k].id, Manifest(rows[k], false));
        RetirementNext(done, log, rows, why, k);
        log := log + [Unowned(rows[k].id, why)];
        Perform(manifest);
        StoppedTwice(d, done, [manifest], n);
        Perform(PutEvents(log));
        StoppedTwice(d, done + [manifest], [PutEvents(log)], n);
        done := done + [manifest] + [PutEvents(log)];
      }
      assert done + [] == done;
      ok := true;
    }
  }

  lemma RetirementNext(done: seq<Write>, log: Log, rows: seq<Trial>, why: string, k: nat)
    requires k < |rows|
    ensures var more := log + [Unowned(rows[k].id, why)];
            done + RetirementWrites(log, rows[k..], why)
            == done + [PutManifest(rows[k].id, Manifest(rows[k], false))] + [PutEvents(more)]
               + RetirementWrites(more, rows[k + 1..], why)
  {
    assert rows[k..][1..] == rows[k + 1..];
  }
}
