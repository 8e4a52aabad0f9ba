// Recovery keeps the invariant at every write, classifies every reachable
// journal, and finishes what a crash left.
module CampaignRecovery {
  import opened Wrappers
  import opened CampaignData
  import opened CampaignLogs
  import opened Campaign
  import opened CampaignInvariant
  import opened CampaignIds

  // ---- sequences of writes ----------------------------------------------------------

  lemma {:induction false} ApplyConcat(d: Disk, a: seq<Write>, b: seq<Write>)
    ensures ApplyAll(d, a + b) == ApplyAll(ApplyAll(d, a), b)
    decreases |a|
  {
    if a == [] {
      assert a + b == b;
    } else {
      ApplyConcat(Apply(d, a[0]), a[1..], b);
      assert (a + b)[0] == a[0] && (a + b)[1..] == a[1..] + b;
    }
  }

  // The invariant holds before, between and after the writes.
  ghost predicate Safe(d: Disk, ws: seq<Write>, h: History)
    decreases |ws|
  {
    Inv(d, h) && (ws != [] ==> Safe(Apply(d, ws[0]), ws[1..], h))
  }

  lemma {:induction false} SafePrefix(d: Disk, ws: seq<Write>, h: History, k: nat)
    requires Safe(d, ws, h) && k <= |ws|
    ensures Inv(ApplyAll(d, ws[..k]), h)
    decreases |ws|
  {
    hide Inv, Apply;
    if k > 0 {
      SafePrefix(Apply(d, ws[0]), ws[1..], h, k - 1);
      assert ws[..k][1..] == ws[1..][..k - 1];
    }
  }

  lemma {:induction false} SafeConcat(d: Disk, a: seq<Write>, b: seq<Write>, h: History)
    requires Safe(d, a, h) && Safe(ApplyAll(d, a), b, h)
    ensures Safe(d, a + b, h)
    decreases |a|
  {
    hide Inv, Apply;
    if a == [] {
      assert a + b == b;
    } else {
      SafeConcat(Apply(d, a[0]), a[1..], b, h);
      assert (a + b)[0] == a[0] && (a + b)[1..] == a[1..] + b;
    }
  }

  lemma SafeOne(d: Disk, w: Write, h: History)
    requires Inv(d, h) && Inv(Apply(d, w), h)
    ensures Safe(d, [w], h) && ApplyAll(d, [w]) == Apply(d, w)
  {
    assert [w][1..] == [];
    assert Safe(Apply(d, w), [], h);
    assert ApplyAll(Apply(d, w), []) == Apply(d, w);
  }

  // ---- manifests never matter to the invariant ----------------------------------------

  predicate ManifestsOnly(ws: seq<Write>) {
    forall w :: w in ws ==> w.PutManifest?
  }

  lemma {:induction false} ManifestsAreSafe(d: Disk, ws: seq<Write>, h: History)
    requires Inv(d, h) && ManifestsOnly(ws)
    ensures Safe(d, ws, h)
    ensures ApplyAll(d, ws) == d.(manifests := ApplyAll(d, ws).manifests)
    decreases |ws|
  {
    if ws != [] {
      assert ws[0] in ws;
      ManifestsAreSafe(Apply(d, ws[0]), ws[1..], h);
    }
  }

  lemma {:induction false} ManifestWritesAreManifests(s: State, suggestions: seq<Trial>)
    ensures ManifestsOnly(ManifestWrites(s, suggestions))
  {
    if suggestions != [] { ManifestWritesAreManifests(s, suggestions[1..]); }
  }

  // ---- classification ------------------------------------------------------------------

  // Main result: in every reachable state a journal is exactly prepared or
  // committed, unless an import overran it while it was prepared - and then, and
  // only then, it belongs to "a different canonical history".
  lemma ClassificationIsExact(d: Disk, h: History)
    requires Inv(d, h) && d.journal.Some?
    ensures ValidJournal(d.journal.value)
    ensures AllocationStatus(d.journal.value, d.state)
         == if InPublication(d, h) then Committed else if h.overrun then DifferentHistory else Prepared
    ensures InPublication(d, h) <==> !InPreparation(d, h)
  {
    if InPublication(d, h) {
      PublicationIsCommitted(d, h);
    } else {
      PreparationIsPrepared(d, h);
    }
  }

  lemma PublicationIsCommitted(d: Disk, h: History)
    requires Inv(d, h) && InPublication(d, h)
    ensures ValidJournal(d.journal.value)
    ensures AllocationStatus(d.journal.value, d.state) == Committed
    ensures !InPreparation(d, h)
  {
    var j := d.journal.value;
    assert Latest(h) in h.commits;
    forall t | t in j.suggestions ensures Matches(d.state, t) && t.id < d.state.nextTrialId {
      var r :| r in Rows(d.state) && r.id == t.id && r.core == t.core;
      NumberedRow(d.state, r);
    }
    assert j.suggestions[|j.suggestions| - 1] in j.suggestions;
  }

  lemma PreparationIsPrepared(d: Disk, h: History)
    requires Inv(d, h) && InPreparation(d, h)
    ensures AllocationStatus(d.journal.value, d.state) == if h.overrun then DifferentHistory else Prepared
  {
    var j := d.journal.value;
    if !h.overrun {
      forall t | t in j.suggestions ensures Find(Rows(d.state), t.id).None? {
        FindNone(Rows(d.state), t.id);
        forall r | r in Rows(d.state) ensures r.id != t.id { NumberedRow(d.state, r); }
      }
    }
  }

  // ---- publication ----------------------------------------------------------------------

  lemma DecisionsPublish(d: Disk, h: History)
    requires Inv(d, h) && InPublication(d, h)
    ensures d.journal.value.decisions != []
    ensures Publish(d.decisions, d.journal.value.decisions).Some?
    ensures BlockForm(Publish(d.decisions, d.journal.value.decisions).value, DecisionsOf(h.commits))
  {
    LatestDecisions(d, h);
    hide *;
    PublishEither(d.decisions, DecisionsOf(Earlier(h)), d.journal.value.decisions);
  }

  lemma LatestDecisions(d: Disk, h: History)
    requires Inv(d, h) && InPublication(d, h)
    ensures h.commits != [] && d.journal.Some?
    ensures DecisionsOf(h.commits) == DecisionsOf(Earlier(h)) + [d.journal.value.decisions]
    ensures Blocks(DecisionsOf(Earlier(h)) + [d.journal.value.decisions])
    ensures BlockForm(d.decisions, DecisionsOf(Earlier(h)))
         || BlockForm(d.decisions, DecisionsOf(Earlier(h)) + [d.journal.value.decisions])
  {
    hide BlockForm, Blocks, Numbered, OptimizerOK, Kept;
    HistorySplits(h);
    OneMoreCommit(Earlier(h), Latest(h));
    DecisionBlocks(h.commits, h);
  }

  lemma EventsPublish(d: Disk, h: History)
    requires Inv(d, h) && InPublication(d, h)
    ensures d.journal.value.events != []
    ensures Publish(d.events, d.journal.value.events).Some?
    ensures BlockForm(Publish(d.events, d.journal.value.events).value, EventsOf(h.commits))
  {
    LatestEvents(d, h);
    hide *;
    PublishEither(d.events, EventsOf(Earlier(h)), d.journal.value.events);
  }

  lemma LatestEvents(d: Disk, h: History)
    requires Inv(d, h) && InPublication(d, h)
    ensures h.commits != [] && d.journal.Some?
    ensures EventsOf(h.commits) == EventsOf(Earlier(h)) + [d.journal.value.events]
    ensures Blocks(EventsOf(Earlier(h)) + [d.journal.value.events])
    ensures BlockForm(d.events, EventsOf(Earlier(h)))
         || BlockForm(d.events, EventsOf(Earlier(h)) + [d.journal.value.events])
  {
    hide BlockForm, Blocks, Numbered, OptimizerOK, Kept;
    HistorySplits(h);
    OneMoreCommit(Earlier(h), Latest(h));
    EventBlocks(h.commits, h);
  }

  lemma PublishEither(log: Log, blocks: seq<Log>, b: Log)
    requires Blocks(blocks + [b])
    requires BlockForm(log, blocks) || BlockForm(log, blocks + [b])
    ensures b != [] && Publish(log, b).Some? && BlockForm(Publish(log, b).value, blocks + [b])
  {
    assert (blocks + [b])[|blocks|] == b;
    assert forall i :: 0 <= i < |blocks| ==> (blocks + [b])[i] == blocks[i];
    if BlockForm(log, blocks + [b]) {
      PublishAgain(log, blocks, b);
    } else {
      PublishFresh(log, blocks, b);
    }
  }

  lemma DecisionsWrite(d: Disk, h: History, log: Log)
    requires Inv(d, h) && Inv(d.(decisions := log), h)
    ensures Safe(d, PublishWrites(d.decisions, log, PutDecisions(log)), h)
    ensures ApplyAll(d, PublishWrites(d.decisions, log, PutDecisions(log))) == d.(decisions := log)
  {
    hide Inv;
    if log != d.decisions { SafeOne(d, PutDecisions(log), h); }
  }

  lemma EventsWrite(d: Disk, h: History, log: Log)
    requires Inv(d, h) && Inv(d.(events := log), h)
    ensures Safe(d, PublishWrites(d.events, log, PutEvents(log)), h)
    ensures ApplyAll(d, PublishWrites(d.events, log, PutEvents(log))) == d.(events := log)
  {
    hide Inv;
    if log != d.events { SafeOne(d, PutEvents(log), h); }
  }

  lemma DropWrite(d: Disk, h: History)
    requires Inv(d, h) && Inv(d.(journal := None), h)
    ensures Safe(d, [DropJournal], h)
    ensures ApplyAll(d, [DropJournal]) == d.(journal := None)
  {
    hide Inv;
    SafeOne(d, DropJournal, h);
  }

  lemma DropIsQuiet(d: Disk, h: History)
    requires Inv(d, h)
    requires (InPublication(d, h) && DecisionsAt(d, h.commits) && EventsAt(d, h.commits))
          || (InPreparation(d, h) && !h.overrun)
    ensures Inv(d.(journal := None), h) && Quiet(d.(journal := None), h)
  {
  }

  // The disk a finished recovery leaves.
  function Recovered(d: Disk): Disk
    requires d.journal.Some? && d.journal.value.decisions != [] && d.journal.value.events != []
    requires Publish(d.decisions, d.journal.value.decisions).Some? && Publish(d.events, d.journal.value.events).Some?
  {
    d.(journal := None,
       manifests := ApplyAll(d, ManifestWrites(d.state, d.journal.value.suggestions)).manifests,
       decisions := Publish(d.decisions, d.journal.value.decisions).value,
       events := Publish(d.events, d.journal.value.events).value)
  }

  // Recovering a committed batch: safe at every write, and it completes.
  lemma RecoverCommitted(d: Disk, h: History, cfg: string)
    requires Inv(d, h) && InPublication(d, h) && cfg == d.journal.value.objectiveConfig
    ensures d.journal.value.decisions != [] && d.journal.value.events != []
    ensures Publish(d.decisions, d.journal.value.decisions).Some? && Publish(d.events, d.journal.value.events).Some?
    ensures !RecoverAllocation(d, cfg).failed
    ensures Safe(d, RecoverAllocation(d, cfg).writes, h)
    ensures ApplyAll(d, RecoverAllocation(d, cfg).writes) == Recovered(d)
    ensures Quiet(Recovered(d), h)
  {
    assert d.journal.Some?;
    hide ManifestWrites, PublishWrites, Publish, RecoverAllocation, ApplyAll, Safe, Inv, Quiet, InPublication, BlockForm,
         AllocationStatus, ValidJournal, ManifestsOnly;
    PublicationIsCommitted(d, h);
    DecisionsPublish(d, h);
    EventsPublish(d, h);
    var j := d.journal.value;
    var m := ManifestWrites(d.state, j.suggestions);
    var decisions, events := Publish(d.decisions, j.decisions).value, Publish(d.events, j.events).value;
    ManifestWritesAreManifests(d.state, j.suggestions);
    CommittedShape(d, cfg, decisions, events);
    PublishStages(d, h, m, decisions, events);
  }

  lemma CommittedShape(d: Disk, cfg: string, decisions: Log, events: Log)
    requires d.journal.Some? && ValidJournal(d.journal.value) && cfg == d.journal.value.objectiveConfig
    requires AllocationStatus(d.journal.value, d.state) == Committed
    requires Publish(d.decisions, d.journal.value.decisions) == Some(decisions)
    requires Publish(d.events, d.journal.value.events) == Some(events)
    ensures RecoverAllocation(d, cfg).writes
         == ManifestWrites(d.state, d.journal.value.suggestions)
            + PublishWrites(d.decisions, decisions, PutDecisions(decisions))
            + PublishWrites(d.events, events, PutEvents(events)) + [DropJournal]
    ensures !RecoverAllocation(d, cfg).failed
  {
    hide AllocationStatus, ManifestWrites, PublishWrites, Publish;
  }

  lemma PublishStages(d: Disk, h: History, m: seq<Write>, decisions: Log, events: Log)
    requires Inv(d, h) && InPublication(d, h) && ManifestsOnly(m)
    requires BlockForm(decisions, DecisionsOf(h.commits)) && BlockForm(events, EventsOf(h.commits))
    ensures var writes := m + PublishWrites(d.decisions, decisions, PutDecisions(decisions))
                            + PublishWrites(d.events, events, PutEvents(events)) + [DropJournal];
            && Safe(d, writes, h)
            && ApplyAll(d, writes) == d.(journal := None, manifests := ApplyAll(d, m).manifests,
                                         decisions := decisions, events := events)
            && Quiet(ApplyAll(d, writes), h)
  {
    ManifestsAreSafe(d, m, h);
    StagesHold(d, h, ApplyAll(d, m).manifests, decisions, events);
    hide *;
    var d1 := ApplyAll(d, m);
    var a := PublishWrites(d.decisions, decisions, PutDecisions(decisions));
    var b := PublishWrites(d.events, events, PutEvents(events));
    DecisionsWrite(d1, h, decisions);
    EventsWrite(d1.(decisions := decisions), h, events);
    DropWrite(d1.(decisions := decisions, events := events), h);
    FourStages(d, m, a, b, [DropJournal], h);
  }

  lemma FourStages(d: Disk, m: seq<Write>, a: seq<Write>, b: seq<Write>, c: seq<Write>, h: History)
    requires Safe(d, m, h)
    requires Safe(ApplyAll(d, m), a, h)
    requires Safe(ApplyAll(ApplyAll(d, m), a), b, h)
    requires Safe(ApplyAll(ApplyAll(ApplyAll(d, m), a), b), c, h)
    ensures Safe(d, m + a + b + c, h)
    ensures ApplyAll(d, m + a + b + c) == ApplyAll(ApplyAll(ApplyAll(ApplyAll(d, m), a), b), c)
  {
    hide *;
    SafeConcat(d, m, a, h);
    ApplyConcat(d, m, a);
    SafeConcat(d, m + a, b, h);
    ApplyConcat(d, m + a, b);
    SafeConcat(d, m + a + b, c, h);
    ApplyConcat(d, m + a + b, c);
  }

  lemma StagesHold(d: Disk, h: History, manifests: map<nat, Manifest>, decisions: Log, events: Log)
    requires Inv(d, h) && InPublication(d, h)
    requires BlockForm(decisions, DecisionsOf(h.commits)) && BlockForm(events, EventsOf(h.commits))
    ensures Inv(d.(manifests := manifests), h)
    ensures Inv(d.(manifests := manifests, decisions := decisions), h)
    ensures Inv(d.(manifests := manifests, decisions := decisions, events := events), h)
    ensures Quiet(d.(journal := None, manifests := manifests, decisions := decisions, events := events), h)
    ensures Inv(d.(journal := None, manifests := manifests, decisions := decisions, events := events), h)
  {
    hide Numbered, OptimizerOK, HistoryOK, Kept, BlockForm;
  }

  // recover_allocation is safe at every write from every reachable state.
  lemma RecoverIsSafe(d: Disk, h: History, cfg: string)
    requires Inv(d, h)
    ensures Safe(d, RecoverAllocation(d, cfg).writes, h)
  {
    if d.journal.Some? {
      ClassificationIsExact(d, h);
      if InPublication(d, h) {
        if cfg == d.journal.value.objectiveConfig { RecoverCommitted(d, h, cfg); }
      } else if !h.overrun {
        DropIsQuiet(d, h);
        DropWrite(d, h);
      }
    }
  }

  // A committed batch waits for its own objective configuration.
  lemma RecoveryNeedsItsConfig(d: Disk, h: History, cfg: string)
    requires Inv(d, h) && d.journal.Some? && InPublication(d, h)
    ensures RecoverAllocation(d, cfg).failed <==> cfg != d.journal.value.objectiveConfig
    ensures cfg != d.journal.value.objectiveConfig ==> RecoverAllocation(d, cfg) == REFUSED
  {
    if cfg == d.journal.value.objectiveConfig {
      RecoverCommitted(d, h, cfg);
    } else {
      PublicationIsCommitted(d, h);
      hide Inv, InPublication, AllocationStatus, ValidJournal;
    }
  }
}
