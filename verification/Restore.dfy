// Restoring an archive over the runtime paths, with rollback (templates/_shared/archives.py).
module Restore {
  import opened Wrappers

  // What lies at a path: a file or a whole directory tree.
  type Content = string

  type Files = map<string, Content>

  // One archived artifact and the content the archive holds for it. Paths are
  // project-relative, so source_rel also names the target.
  datatype Entry = Entry(rel: string, archived: Content)

  predicate Distinct(entries: seq<Entry>) {
    forall i, j :: 0 <= i < j < |entries| ==> entries[i].rel != entries[j].rel
  }

  function Rels(entries: seq<Entry>): set<string> {
    set e | e in entries :: e.rel
  }

  // ---- _build_restore_entries ------------------------------------------------------------------

  datatype Source = Source(rel: string, archived: Content)

  predicate Plannable(sources: seq<Source>, restorable: set<string>, ignored: set<string>) {
    && (forall i :: 0 <= i < |sources| && sources[i].rel !in ignored ==> sources[i].rel in restorable)
    && (forall i, j :: 0 <= i < j < |sources| && sources[i].rel !in ignored ==> sources[i].rel != sources[j].rel)
  }

  // Refuses duplicates, unknown paths and archives with nothing to restore.
  method BuildRestoreEntries(sources: seq<Source>, restorable: set<string>, ignored: set<string>)
    returns (entries: Option<seq<Entry>>)
    ensures entries.Some? <==> Plannable(sources, restorable, ignored) && exists s :: s in sources && s.rel !in ignored
    ensures entries.Some? ==> Distinct(entries.value) && Rels(entries.value) <= restorable - ignored
    ensures entries.Some? ==>
      forall e :: e in entries.value <==> e.rel !in ignored && Source(e.rel, e.archived) in sources
  {
    var planned: seq<Entry> := [];
    var errors := false;
    for i := 0 to |sources|
      invariant !errors <==> Plannable(sources[..i], restorable, ignored)
      invariant Distinct(planned)
      invariant forall e :: e in planned ==> e.rel in restorable && e.rel !in ignored && Source(e.rel, e.archived) in sources[..i]
      invariant !errors ==> forall s :: s in sources[..i] && s.rel !in ignored ==> Entry(s.rel, s.archived) in planned
    {
      var s := sources[i];
      PlanNext(sources, i, restorable, ignored);
      if s.rel !in ignored {
        if s.rel in Rels(planned) {
          errors := true;
          var e :| e in planned && e.rel == s.rel;
          assert Source(e.rel, e.archived) in sources[..i];
        } else if s.rel !in restorable {
          errors := true;
        } else {
          planned := planned + [Entry(s.rel, s.archived)];
        }
      }
      assert sources[..i + 1] == sources[..i] + [s];
    }
    assert sources[..|sources|] == sources;
    entries := if errors || planned == [] then None else Some(planned);
    if exists s :: s in sources && s.rel !in ignored {
      var s :| s in sources && s.rel !in ignored;
      assert !errors ==> Entry(s.rel, s.archived) in planned;
    }
    if planned != [] { assert planned[0] in planned; }
  }

  lemma PlanNext(sources: seq<Source>, i: nat, restorable: set<string>, ignored: set<string>)
    requires i < |sources|
    ensures Plannable(sources[..i + 1], restorable, ignored) <==>
              Plannable(sources[..i], restorable, ignored)
              && (sources[i].rel !in ignored ==>
                    sources[i].rel in restorable && forall k :: 0 <= k < i ==> sources[k].rel != sources[i].rel)
  {
    var now, earlier := sources[..i + 1], sources[..i];
    assert now == earlier + [sources[i]];
    if Plannable(now, restorable, ignored) {
      forall k | 0 <= k < i && sources[i].rel !in ignored ensures sources[k].rel != sources[i].rel {
        assert now[k].rel !in ignored ==> now[k].rel != now[i].rel;
      }
    }
  }

  // ---- faults -----------------------------------------------------------------------------------

  datatype Phase = Staging | BackingUp | Removing | Applying

  // The one operation that raises, and what it leaves half-written, if anything.
  datatype Fault = NoFault | Fault(phase: Phase, at: nat, junk: Option<Content>)

  function Put(files: Files, rel: string, content: Option<Content>): Files {
    if content.Some? then files[rel := content.value] else files - {rel}
  }

  predicate FaultAt(fault: Fault, phase: Phase, i: nat) {
    fault.Fault? && fault.phase == phase && fault.at == i
  }

  // The targets as they were, for the first n entries.
  predicate BackedUp(backup: Files, before: Files, entries: seq<Entry>, n: nat)
    requires n <= |entries|
  {
    forall i :: 0 <= i < n ==>
      (entries[i].rel in backup <==> entries[i].rel in before)
      && (entries[i].rel in before ==> backup[entries[i].rel] == before[entries[i].rel])
  }

  predicate Untouched(now: Files, before: Files, entries: seq<Entry>) {
    forall rel :: rel in now.Keys + before.Keys && rel !in Rels(entries) ==>
      rel in now && rel in before && now[rel] == before[rel]
  }

  class Restorer {
    var targets: Files
    var staging: Files
    var backup: Files
    const fault: Fault

    constructor (targets: Files, fault: Fault)
      ensures this.targets == targets && this.fault == fault && staging == map[] && backup == map[]
    {
      this.targets, this.fault, staging, backup := targets, fault, map[], map[];
    }

    method Stage(entries: seq<Entry>) returns (ok: bool)
      requires Distinct(entries)
      modifies this`staging
      ensures ok <==> !(fault.Fault? && fault.phase == Staging && fault.at < |entries|)
      ensures ok ==> forall i :: 0 <= i < |entries| ==>
                entries[i].rel in staging && staging[entries[i].rel] == entries[i].archived
    {
      for i := 0 to |entries|
        invariant !(fault.Fault? && fault.phase == Staging && fault.at < i)
        invariant forall k :: 0 <= k < i ==> entries[k].rel in staging && staging[entries[k].rel] == entries[k].archived
      {
        if FaultAt(fault, Staging, i) {
          staging := Put(staging, entries[i].rel, fault.junk);
          return false;
        }
        staging := staging[entries[i].rel := entries[i].archived];
      }
      ok := true;
    }

    // Copies the targets that exist; on a failure, the entries before it are backed
    // up and those after it are not.
    method BackUp(entries: seq<Entry>) returns (ok: bool, overwritten: seq<string>)
      requires Distinct(entries) && backup == map[]
      modifies this`backup
      ensures ok <==> !(fault.Fault? && fault.phase == BackingUp && fault.at < |entries| && entries[fault.at].rel in targets)
      ensures ok ==> BackedUp(backup, targets, entries, |entries|)
      ensures !ok ==> FailedBackup(backup, targets, entries, fault)
      ensures ok ==> forall rel :: rel in overwritten <==> rel in Rels(entries) && rel in targets
    {
      overwritten := [];
      for i := 0 to |entries|
        invariant !(fault.Fault? && fault.phase == BackingUp && fault.at < i && entries[fault.at].rel in targets)
        invariant BackedUp(backup, targets, entries, i)
        invariant forall rel :: rel in backup ==> rel in Rels(entries[..i])
        invariant forall rel :: rel in overwritten <==> rel in Rels(entries[..i]) && rel in targets
      {
        var rel := entries[i].rel;
        RelsNext(entries, i);
        if rel in targets {
          if FaultAt(fault, BackingUp, i) {
            backup := Put(backup, rel, fault.junk);
            return false, [];
          }
          backup := backup[rel := targets[rel]];
          overwritten := overwritten + [rel];
        }
      }
      assert entries[..|entries|] == entries;
      ok := true;
    }

    method RemoveAll(entries: seq<Entry>)
      modifies this`targets
      ensures targets == old(targets) - Rels(entries)
    {
      for i := 0 to |entries|
        invariant targets == old(targets) - Rels(entries[..i])
      {
        RelsGrow(entries, i);
        targets := targets - {entries[i].rel};
      }
      assert entries[..|entries|] == entries;
    }

    method Remove(entries: seq<Entry>) returns (ok: bool)
      modifies this`targets
      ensures ok <==> !(fault.Fault? && fault.phase == Removing && fault.at < |entries|)
      ensures Untouched(targets, old(targets), entries)
      ensures ok ==> targets == old(targets) - Rels(entries)
    {
      for i := 0 to |entries|
        invariant !(fault.Fault? && fault.phase == Removing && fault.at < i)
        invariant targets == old(targets) - Rels(entries[..i])
      {
        RelsGrow(entries, i);
        assert entries[i] in entries;
        if FaultAt(fault, Removing, i) {
          targets := Put(targets, entries[i].rel, fault.junk);
          return false;
        }
        targets := targets - {entries[i].rel};
      }
      assert entries[..|entries|] == entries;
      ok := true;
    }

    method Apply(entries: seq<Entry>) returns (ok: bool)
      requires Distinct(entries)
      requires forall i :: 0 <= i < |entries| ==>
                 entries[i].rel in staging && staging[entries[i].rel] == entries[i].archived
      modifies this`targets
      ensures ok <==> !(fault.Fault? && fault.phase == Applying && fault.at < |entries|)
      ensures Untouched(targets, old(targets), entries)
      ensures ok ==> forall i :: 0 <= i < |entries| ==>
                entries[i].rel in targets && targets[entries[i].rel] == entries[i].archived
    {
      for i := 0 to |entries|
        invariant !(fault.Fault? && fault.phase == Applying && fault.at < i)
        invariant Untouched(targets, old(targets), entries)
        invariant forall k :: 0 <= k < i ==> entries[k].rel in targets && targets[entries[k].rel] == entries[k].archived
      {
        assert entries[i] in entries;
        if FaultAt(fault, Applying, i) {
          targets := Put(targets, entries[i].rel, fault.junk);
          return false;
        }
        targets := targets[entries[i].rel := staging[entries[i].rel]];
      }
      ok := true;
    }

    method RestoreBackup(entries: seq<Entry>)
      requires Distinct(entries) && forall e :: e in entries ==> e.rel !in targets
      modifies this`targets
      ensures Untouched(targets, old(targets), entries)
      ensures forall i :: 0 <= i < |entries| ==>
                (entries[i].rel in targets <==> entries[i].rel in backup)
                && (entries[i].rel in backup ==> targets[entries[i].rel] == backup[entries[i].rel])
    {
      for i := 0 to |entries|
        invariant Untouched(targets, old(targets), entries)
        invariant forall k :: 0 <= k < i ==>
                    (entries[k].rel in targets <==> entries[k].rel in backup)
                    && (entries[k].rel in backup ==> targets[entries[k].rel] == backup[entries[k].rel])
        invariant forall k :: i <= k < |entries| ==> entries[k].rel !in targets
      {
        assert entries[i] in entries;
        if entries[i].rel in backup { targets := targets[entries[i].rel := backup[entries[i].rel]]; }
      }
    }

    // The four phases in order; on a failure, what the backup holds.
    method Attempt(entries: seq<Entry>) returns (ok: bool)
      requires Distinct(entries) && backup == map[]
      modifies this
      ensures Untouched(targets, old(targets), entries)
      ensures ok <==> !Raises(fault, entries, old(targets))
      ensures ok ==> Restored(targets, entries)
      ensures !ok ==> fault.Fault? && BackupSays(backup, old(targets), entries, fault)
    {
      NothingTouched(targets, entries);
      hide BackedUp, Untouched, Distinct, FailedBackup, BackupSays;
      ok := Stage(entries);
      if !ok {
        NothingBackedUp(targets, entries, fault);
        return;
      }
      var overwritten;
      ok, overwritten := BackUp(entries);
      if !ok {
        PartlyBackedUp(backup, targets, entries, fault);
        return;
      }
      if fault.Fault? && fault.phase != Staging && fault.phase != BackingUp {
        FullyBackedUp(backup, targets, entries, fault);
      }
      ok := Remove(entries);
      if !ok { return; }
      ghost var removed := targets;
      ok := Apply(entries);
      TouchedChain(targets, removed, old(targets), entries);
    }

    // restore_reset_archive, from staging to cleanup.
    method Restore(entries: seq<Entry>) returns (ok: bool)
      requires Distinct(entries) && backup == map[]
      modifies this
      ensures Untouched(targets, old(targets), entries)
      ensures staging == map[] && backup == map[]
      ensures ok <==> !Raises(fault, entries, old(targets))
      ensures ok ==> Restored(targets, entries)
      ensures !ok ==> RolledBack(targets, old(targets), entries, fault)
    {
      ok := Attempt(entries);
      if !ok {
        ghost var halfway := targets;
        RemoveAll(entries);
        ghost var removed := targets;
        RemovedAll(halfway, removed, entries);
        RestoreBackup(entries);
        hide Untouched;
        TouchedChain(removed, halfway, old(targets), entries);
        TouchedChain(targets, removed, old(targets), entries);
      }
      staging, backup := map[], map[];
    }
  }

  lemma NothingTouched(files: Files, entries: seq<Entry>)
    ensures Untouched(files, files, entries)
  {
  }

  lemma TouchedChain(c: Files, b: Files, a: Files, entries: seq<Entry>)
    requires Untouched(c, b, entries) && Untouched(b, a, entries)
    ensures Untouched(c, a, entries)
  {
  }

  lemma RemovedAll(before: Files, after: Files, entries: seq<Entry>)
    requires after == before - Rels(entries)
    ensures Untouched(after, before, entries) && forall e :: e in entries ==> e.rel !in after
  {
  }

  // The backup holds exactly what rollback can bring back.
  predicate BackupSays(backup: Files, before: Files, entries: seq<Entry>, fault: Fault)
    requires fault.Fault?
  {
    forall i :: 0 <= i < |entries| ==>
      Survivor(before, entries, fault, i) == if entries[i].rel in backup then Some(backup[entries[i].rel]) else None
  }

  lemma NothingBackedUp(before: Files, entries: seq<Entry>, fault: Fault)
    requires fault.Fault? && fault.phase == Staging
    ensures BackupSays(map[], before, entries, fault)
  {
  }

  lemma PartlyBackedUp(backup: Files, before: Files, entries: seq<Entry>, fault: Fault)
    requires FailedBackup(backup, before, entries, fault) && fault.phase == BackingUp
    ensures BackupSays(backup, before, entries, fault)
  {
  }

  lemma FullyBackedUp(backup: Files, before: Files, entries: seq<Entry>, fault: Fault)
    requires BackedUp(backup, before, entries, |entries|)
    requires fault.Fault? && (fault.phase == Removing || fault.phase == Applying)
    ensures BackupSays(backup, before, entries, fault)
  {
  }

  lemma RelsNext(entries: seq<Entry>, i: nat)
    requires Distinct(entries) && i < |entries|
    ensures Rels(entries[..i + 1]) == Rels(entries[..i]) + {entries[i].rel}
    ensures entries[i].rel !in Rels(entries[..i])
  {
    RelsGrow(entries, i);
  }

  lemma RelsGrow(entries: seq<Entry>, i: nat)
    requires i < |entries|
    ensures Rels(entries[..i + 1]) == Rels(entries[..i]) + {entries[i].rel}
  {
    assert entries[..i + 1] == entries[..i] + [entries[i]];
  }

  // ---- outcomes ---------------------------------------------------------------------------------

  // The fault is met: a backup step only runs for a target that exists.
  predicate Raises(fault: Fault, entries: seq<Entry>, before: Files) {
    fault.Fault? && fault.at < |entries| && (fault.phase == BackingUp ==> entries[fault.at].rel in before)
  }

  predicate Restored(now: Files, entries: seq<Entry>) {
    forall i :: 0 <= i < |entries| ==> entries[i].rel in now && now[entries[i].rel] == entries[i].archived
  }

  predicate FailedBackup(backup: Files, before: Files, entries: seq<Entry>, fault: Fault) {
    && fault.Fault? && fault.at < |entries|
    && BackedUp(backup, before, entries, fault.at)
    && (entries[fault.at].rel in backup <==> fault.junk.Some?)
    && (fault.junk.Some? ==> backup[entries[fault.at].rel] == fault.junk.value)
    && (forall i :: fault.at < i < |entries| ==> entries[i].rel !in backup)
  }

  // What a failed restore leaves at entry i's path.
  function Survivor(before: Files, entries: seq<Entry>, fault: Fault, i: nat): Option<Content>
    requires i < |entries| && fault.Fault?
  {
    var original := if entries[i].rel in before then Some(before[entries[i].rel]) else None;
    match fault.phase
    case Staging => None
    case BackingUp => if i < fault.at then original else if i == fault.at then fault.junk else None
    case _ => original
  }

  predicate RolledBack(now: Files, before: Files, entries: seq<Entry>, fault: Fault) {
    fault.Fault? && forall i :: 0 <= i < |entries| ==>
      Survivor(before, entries, fault, i) == if entries[i].rel in now then Some(now[entries[i].rel]) else None
  }

  // Main result: a failure while removing or applying leaves everything exactly as
  // it was; an earlier one loses exactly the existing targets not yet backed up.
  lemma WhichFailuresLoseTargets(now: Files, before: Files, entries: seq<Entry>, fault: Fault)
    requires Distinct(entries) && Raises(fault, entries, before)
    requires Untouched(now, before, entries) && RolledBack(now, before, entries, fault)
    ensures fault.phase == Removing || fault.phase == Applying ==> now == before
    ensures fault.phase == Staging ==> now == before - Rels(entries)
    ensures fault.phase == BackingUp ==>
              (now == before <==>
                 fault.junk == Some(before[entries[fault.at].rel])
                 && forall i :: fault.at < i < |entries| ==> entries[i].rel !in before)
  {
    forall rel | rel in Rels(entries) ensures exists i :: 0 <= i < |entries| && entries[i].rel == rel {
      var e :| e in entries && e.rel == rel;
      var i :| 0 <= i < |entries| && entries[i] == e;
    }
    forall i | 0 <= i < |entries| ensures entries[i].rel in Rels(entries) { assert entries[i] in entries; }
  }

  // Such a loss happens: one existing target, and a fault while staging.
  lemma StagingCanLoseATarget(now: Files)
    requires var entries, before: Files := [Entry("state.json", "archived")], map["state.json" := "current"];
             var fault := Fault(Staging, 0, None);
             Untouched(now, before, entries) && RolledBack(now, before, entries, fault)
    ensures var entries, before: Files := [Entry("state.json", "archived")], map["state.json" := "current"];
            Distinct(entries) && Raises(Fault(Staging, 0, None), entries, before) && now == map[]
  {
    var entries, before: Files := [Entry("state.json", "archived")], map["state.json" := "current"];
    WhichFailuresLoseTargets(now, before, entries, Fault(Staging, 0, None));
    assert entries[0] in entries;
  }
}
