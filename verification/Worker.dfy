// The mirror projection and batch generation of templates/_shared/optimizer_ax_worker.py,
// against an abstract external client.
module Worker {
  import opened Wrappers
  import opened Space
  import opened Codec
  import C = Constraints

  datatype Status = Pending | Completed | Failed | Timeout | Killed

  // A canonical row; outcome stands for everything a terminal observation adds.
  datatype Record = Record(id: nat, params: Encoded, status: Status, outcome: string)

  // Digests are injective, so a signature is what it digests.
  datatype Signature = Signature(params: Encoded, status: Status, outcome: string)

  function PendingSignature(params: Encoded): Signature {
    Signature(params, Pending, "")
  }

  function SignatureOf(r: Record): Signature {
    if r.status == Pending then PendingSignature(r.params) else Signature(r.params, r.status, r.outcome)
  }

  // ---- the external client -------------------------------------------------------------------

  // What a trial of the client has come to; a finished one keeps its data and a
  // failed one its reason.
  datatype Phase = Running | Done(outcome: string) | Lost(reason: Status) | Abandoned

  datatype Trial = Trial(params: Encoded, phase: Phase)

  function PhaseOf(s: Status, outcome: string): Phase {
    match s
    case Pending => Running
    case Completed => Done(outcome)
    case Failed => Lost(Failed)
    case Timeout => Lost(Timeout)
    case Killed => Abandoned
  }

  datatype Proposal = Proposal(index: nat, params: Encoded)

  // One request for proposals: how many at most, and how many there were before.
  datatype Ask = Ask(most: nat, before: nat)

  // Whatever the client answers is a function of a clock and of the indices in
  // use; all that is known is that its indices are new.
  class Client {
    const attachIndex: (nat, set<nat>) -> nat
    const propose: (nat, set<nat>, nat) -> seq<Proposal>
    var clock: nat
    var trials: map<nat, Trial>
    // Everything proposed so far, in order.
    ghost var given: seq<Proposal>
    // How often and for how many it was asked.
    ghost var asks: seq<Ask>

    constructor (attachIndex: (nat, set<nat>) -> nat, propose: (nat, set<nat>, nat) -> seq<Proposal>,
                 snapshot: map<nat, Trial>)
      ensures this.attachIndex == attachIndex && this.propose == propose && trials == snapshot
    {
      this.attachIndex, this.propose, clock, trials := attachIndex, propose, 0, snapshot;
      given, asks := [], [];
    }

    ghost predicate FreshIndices() {
      && (forall t, used :: attachIndex(t, used) !in used)
      && (forall t, used, most :: FreshBatch(propose(t, used, most), used, most))
    }

    method AttachTrial(params: Encoded) returns (index: nat)
      requires FreshIndices()
      modifies this
      ensures index !in old(trials) && trials == old(trials)[index := Trial(params, Running)]
      ensures given == old(given) && asks == old(asks)
    {
      index := attachIndex(clock, trials.Keys);
      clock := clock + 1;
      trials := trials[index := Trial(params, Running)];
    }

    // Ends the trial of a row as the row ended.
    method End(index: nat, r: Record)
      requires index in trials && trials[index].phase == Running && r.status != Pending
      modifies this`trials
      ensures trials == old(trials)[index := old(trials)[index].(phase := PhaseOf(r.status, r.outcome))]
    {
      match r.status {
        case Completed => CompleteTrial(index, r.outcome);
        case Failed => MarkTrialFailed(index, Failed);
        case Timeout => MarkTrialFailed(index, Timeout);
        case Killed => MarkTrialAbandoned(index);
      }
    }

    // Only a running trial ends.
    method CompleteTrial(index: nat, outcome: string)
      requires index in trials && trials[index].phase == Running
      modifies this`trials
      ensures trials == old(trials)[index := old(trials)[index].(phase := Done(outcome))]
    {
      trials := trials[index := trials[index].(phase := Done(outcome))];
    }

    method MarkTrialFailed(index: nat, reason: Status)
      requires index in trials && trials[index].phase == Running
      modifies this`trials
      ensures trials == old(trials)[index := old(trials)[index].(phase := Lost(reason))]
    {
      trials := trials[index := trials[index].(phase := Lost(reason))];
    }

    method MarkTrialAbandoned(index: nat)
      requires index in trials && trials[index].phase == Running
      modifies this`trials
      ensures trials == old(trials)[index := old(trials)[index].(phase := Abandoned)]
    {
      trials := trials[index := trials[index].(phase := Abandoned)];
    }

    method GetNextTrials(most: nat) returns (proposals: seq<Proposal>)
      requires FreshIndices()
      modifies this
      ensures FreshBatch(proposals, old(trials).Keys, most)
      ensures trials == old(trials) + RunningTrials(proposals)
      ensures given == old(given) + proposals && asks == old(asks) + [Ask(most, |old(given)|)]
    {
      proposals := propose(clock, trials.Keys, most);
      asks := asks + [Ask(most, |given|)];
      given := given + proposals;
      clock := clock + 1;
      trials := trials + RunningTrials(proposals);
    }
  }

  predicate FreshBatch(batch: seq<Proposal>, used: set<nat>, most: nat) {
    && |batch| <= most
    && (forall i :: 0 <= i < |batch| ==> batch[i].index !in used)
    && (forall i, j :: 0 <= i < j < |batch| ==> batch[i].index != batch[j].index)
  }

  function RunningTrials(batch: seq<Proposal>): map<nat, Trial> {
    if batch == [] then map[]
    else
      var last := batch[|batch| - 1];
      RunningTrials(batch[..|batch| - 1])[last.index := Trial(last.params, Running)]
  }

  lemma {:induction false} RunningTrialsAre(batch: seq<Proposal>, used: set<nat>, most: nat)
    requires FreshBatch(batch, used, most)
    ensures forall n :: n in RunningTrials(batch) <==> exists i :: 0 <= i < |batch| && batch[i].index == n
    ensures forall i :: 0 <= i < |batch| ==> RunningTrials(batch)[batch[i].index] == Trial(batch[i].params, Running)
  {
    if batch != [] { RunningTrialsAre(batch[..|batch| - 1], used, most); }
  }

  // ---- what the projection keeps ------------------------------------------------------------

  // Nothing recorded before is lost or changed.
  predicate MapExtends<V(==)>(now: map<nat, V>, before: map<nat, V>) {
    forall id :: id in before ==> id in now && now[id] == before[id]
  }

  predicate Injective(mapping: map<nat, nat>) {
    forall a, b :: a in mapping && b in mapping && mapping[a] == mapping[b] ==> a == b
  }

  // Every projected trial has its own client trial, with its parameters and the
  // phase its status asks for; every other client trial is abandoned.
  predicate Synced(trials: map<nat, Trial>, mapping: map<nat, nat>, signatures: map<nat, Signature>) {
    && Linked(trials, mapping, signatures)
    && forall n :: n in trials ==> Mapped(mapping, n) || trials[n].phase == Abandoned
  }

  predicate Mapped(mapping: map<nat, nat>, index: nat) {
    exists id :: id in mapping && mapping[id] == index
  }

  predicate Linked(trials: map<nat, Trial>, mapping: map<nat, nat>, signatures: map<nat, Signature>) {
    && mapping.Keys == signatures.Keys && Injective(mapping)
    && forall id :: id in mapping ==>
         mapping[id] in trials && trials[mapping[id]] == Trial(signatures[id].params, PhaseOf(signatures[id].status, signatures[id].outcome))
  }

  datatype WorkerError =
    | HistoryLost
    | TerminalChanged(id: nat)
    | Exhausted
    | NoProposals
    | BadProposal

  predicate DistinctIds(records: seq<Record>) {
    forall i, j :: 0 <= i < j < |records| ==> records[i].id != records[j].id
  }

  function RecordIds(records: seq<Record>): set<nat> {
    set r | r in records :: r.id
  }

  // A row the projection accepts: new, unchanged, or until now pending with the
  // same parameters.
  predicate Admissible(r: Record, signatures: map<nat, Signature>) {
    r.id in signatures ==> signatures[r.id] == SignatureOf(r) || signatures[r.id] == PendingSignature(r.params)
  }

  class Projection {
    const client: Client
    var mapping: map<nat, nat>
    var signatures: map<nat, Signature>

    constructor (client: Client, mapping: map<nat, nat>, signatures: map<nat, Signature>)
      ensures this.client == client && this.mapping == mapping && this.signatures == signatures
    {
      this.client, this.mapping, this.signatures := client, mapping, signatures;
    }

    predicate Valid()
      reads this, client
    {
      Synced(client.trials, mapping, signatures)
    }

    // Gives a new row its own running client trial.
    method Attach(r: Record)
      requires Valid() && client.FreshIndices() && r.id !in mapping
      modifies this`mapping, client
      ensures Synced(client.trials, mapping, signatures[r.id := PendingSignature(r.params)])
      ensures mapping.Keys == old(mapping).Keys + {r.id} && MapExtends(mapping, old(mapping))
      ensures client.given == old(client.given) && client.asks == old(client.asks)
    {
      hide Synced;
      var index := client.AttachTrial(r.params);
      AttachLinks(old(client.trials), mapping, signatures, r.id, index, r.params);
      mapping := mapping[r.id := index];
    }

    // Ends the client trial of a pending row in step with its record.
    method Settle(r: Record, ghost pending: map<nat, Signature>)
      requires Synced(client.trials, mapping, pending)
      requires pending == signatures[r.id := PendingSignature(r.params)]
      modifies this`signatures, client`trials
      ensures Valid() && signatures == old(signatures)[r.id := SignatureOf(r)]
    {
      EndLinks(client.trials, mapping, pending, r);
      hide Synced, SignatureOf;
      hide PhaseOf;
      if r.status != Pending { client.End(mapping[r.id], r); }
      signatures := signatures[r.id := SignatureOf(r)];
      assert signatures == pending[r.id := SignatureOf(r)];
    }

    // One row of the projection loop.
    method ProjectRow(r: Record) returns (ok: bool)
      requires Valid() && client.FreshIndices()
      modifies this, client
      ensures client.given == old(client.given) && client.asks == old(client.asks)
      ensures ok <==> Admissible(r, old(signatures))
      ensures ok ==> Valid() && signatures == old(signatures)[r.id := SignatureOf(r)]
      ensures ok ==> mapping.Keys == old(mapping).Keys + {r.id}
      ensures ok ==> MapExtends(mapping, old(mapping))
    {
      SyncedKeys(client.trials, mapping, signatures);
      MapExtendsItself(mapping);
      hide Synced, MapExtends, Client.FreshIndices, SignatureOf;
      if r.id in signatures && signatures[r.id] == SignatureOf(r) {
        assert signatures == signatures[r.id := SignatureOf(r)] && mapping.Keys == mapping.Keys + {r.id};
        return true;
      }
      ghost var pending := signatures[r.id := PendingSignature(r.params)];
      if r.id !in mapping {
        Attach(r);
      } else if signatures[r.id] != PendingSignature(r.params) {
        return false;
      } else {
        assert pending == signatures && mapping.Keys == mapping.Keys + {r.id};
      }
      Settle(r, pending);
      ok := true;
    }

    // The projection loop: in step with the whole canonical history, or an error.
    method ProjectAll(records: seq<Record>) returns (error: Option<WorkerError>)
      requires Valid() && client.FreshIndices() && DistinctIds(records)
      modifies this, client
      ensures client.given == old(client.given) && client.asks == old(client.asks)
      ensures error.None? <==> old(mapping).Keys <= RecordIds(records)
                               && forall r :: r in records ==> Admissible(r, old(signatures))
      ensures error == Some(HistoryLost) <==> !(old(mapping).Keys <= RecordIds(records))
      ensures error.None? ==> Valid() && Projected(records, mapping, signatures)
      ensures error.None? ==> MapExtends(mapping, old(mapping))
      ensures error.None? ==> forall r :: r in records ==>
                r.id in mapping && mapping[r.id] in client.trials && Reached(client.trials[mapping[r.id]], r)
      ensures error.None? ==> forall n, outcome :: FitsOn(client.trials, n, outcome) <==> Measured(records, mapping, n, outcome)
      ensures match error
              case Some(TerminalChanged(id)) =>
                exists r :: r in records && r.id == id && !Admissible(r, old(signatures))
              case Some(other) => other == HistoryLost
              case None => true
    {
      if !(mapping.Keys <= RecordIds(records)) { return Some(HistoryLost); }
      ghost var before := signatures;
      StartProgress(records, before);
      SyncedKeys(client.trials, mapping, signatures);
      MapExtendsItself(mapping);
      hide Synced, Progress, Admissible, RecordIds, DistinctIds, MapExtends, Client.FreshIndices, SignatureOf, Projected;
      for i := 0 to |records|
        invariant Valid() && Progress(records, i, before, signatures) && client.given == old(client.given) && client.asks == old(client.asks)
        invariant forall k :: 0 <= k < i ==> Admissible(records[k], before)
        invariant MapExtends(mapping, old(mapping))
      {
        ghost var kept := mapping;
        ProgressAdmits(records, i, before, signatures);
        ProgressStep(records, i, before, signatures);
        var ok := ProjectRow(records[i]);
        if !ok {
          assert records[i] in records;
          return Some(TerminalChanged(records[i].id));
        }
        MapExtendsChain(mapping, kept, old(mapping));
      }
      SyncedKeys(client.trials, mapping, signatures);
      EndProgress(records, before, mapping, signatures);
      ProjectedPhases(records, client.trials, mapping, signatures);
      error := None;
    }
  }

  // The first i rows have their new signatures, the others those of before.
  ghost predicate Progress(records: seq<Record>, i: nat, before: map<nat, Signature>, now: map<nat, Signature>)
    requires i <= |records|
  {
    && now.Keys == before.Keys + RecordIds(records[..i])
    && (forall k :: 0 <= k < i ==> records[k].id in now && now[records[k].id] == SignatureOf(records[k]))
    && (forall id :: id !in RecordIds(records[..i]) ==>
          (id in now <==> id in before) && (id in now ==> now[id] == before[id]))
  }

  lemma StartProgress(records: seq<Record>, before: map<nat, Signature>)
    ensures Progress(records, 0, before, before)
  {
  }

  lemma NotSeen(records: seq<Record>, i: nat)
    requires DistinctIds(records) && i < |records|
    ensures records[i].id !in RecordIds(records[..i])
  {
  }

  lemma SeenIds(records: seq<Record>, i: nat)
    requires i < |records|
    ensures RecordIds(records[..i + 1]) == RecordIds(records[..i]) + {records[i].id}
    ensures forall k :: 0 <= k < i ==> records[k].id in RecordIds(records[..i])
  {
    assert records[..i + 1] == records[..i] + [records[i]];
    forall k | 0 <= k < i ensures records[k].id in RecordIds(records[..i]) {
      assert records[..i][k] in records[..i];
    }
  }

  lemma ProgressAdmits(records: seq<Record>, i: nat, before: map<nat, Signature>, now: map<nat, Signature>)
    requires DistinctIds(records) && i < |records| && Progress(records, i, before, now)
    ensures Admissible(records[i], now) <==> Admissible(records[i], before)
  {
    NotSeen(records, i);
    hide RecordIds, DistinctIds;
  }

  lemma ProgressStep(records: seq<Record>, i: nat, before: map<nat, Signature>, now: map<nat, Signature>)
    requires DistinctIds(records) && i < |records| && Progress(records, i, before, now)
    ensures Progress(records, i + 1, before, now[records[i].id := SignatureOf(records[i])])
  {
    hide DistinctIds, SignatureOf;
    NotSeen(records, i);
    SeenIds(records, i);
    hide RecordIds;
  }

  lemma EndProgress(records: seq<Record>, before: map<nat, Signature>, mapping: map<nat, nat>, now: map<nat, Signature>)
    requires Progress(records, |records|, before, now) && before.Keys <= RecordIds(records) && mapping.Keys == now.Keys
    ensures Projected(records, mapping, now)
  {
    assert records[..|records|] == records;
  }

  lemma SyncedKeys(trials: map<nat, Trial>, mapping: map<nat, nat>, signatures: map<nat, Signature>)
    requires Synced(trials, mapping, signatures)
    ensures mapping.Keys == signatures.Keys
  {
  }

  // The projection covers exactly the canonical rows, as they are now.
  predicate Projected(records: seq<Record>, mapping: map<nat, nat>, signatures: map<nat, Signature>) {
    && mapping.Keys == RecordIds(records) && signatures.Keys == RecordIds(records)
    && forall r :: r in records ==> r.id in signatures && signatures[r.id] == SignatureOf(r)
  }

  // The client trial of a row has its parameters and has ended as the row did.
  predicate Reached(t: Trial, r: Record) {
    && t.params == r.params
    && (t.phase == Running <==> r.status == Pending)
    && (t.phase.Done? <==> r.status == Completed) && (t.phase.Done? ==> t.phase.outcome == r.outcome)
    && (t.phase.Lost? <==> r.status == Failed || r.status == Timeout) && (t.phase.Lost? ==> t.phase.reason == r.status)
    && (t.phase == Abandoned <==> r.status == Killed)
  }

  // The client's model is fitted to this outcome of this trial.
  predicate FitsOn(trials: map<nat, Trial>, n: nat, outcome: string) {
    n in trials && trials[n].phase == Done(outcome)
  }

  predicate Measured(records: seq<Record>, mapping: map<nat, nat>, n: nat, outcome: string) {
    exists r :: r in records && r.status == Completed && r.outcome == outcome && r.id in mapping && mapping[r.id] == n
  }

  lemma RowReached(r: Record, trials: map<nat, Trial>, mapping: map<nat, nat>, signatures: map<nat, Signature>)
    requires Linked(trials, mapping, signatures) && r.id in signatures && signatures[r.id] == SignatureOf(r)
    ensures r.id in mapping && mapping[r.id] in trials && Reached(trials[mapping[r.id]], r)
  {
    assert r.id in mapping;
  }

  // What the client is fitted to: exactly the outcomes of the completed rows.
  lemma ProjectedPhases(records: seq<Record>, trials: map<nat, Trial>, mapping: map<nat, nat>, signatures: map<nat, Signature>)
    requires Synced(trials, mapping, signatures) && Projected(records, mapping, signatures)
    ensures forall r :: r in records ==> r.id in mapping && mapping[r.id] in trials && Reached(trials[mapping[r.id]], r)
    ensures forall n, outcome :: FitsOn(trials, n, outcome) <==> Measured(records, mapping, n, outcome)
  {
    forall r | r in records ensures r.id in mapping && mapping[r.id] in trials && Reached(trials[mapping[r.id]], r) {
      RowReached(r, trials, mapping, signatures);
    }
    forall n, outcome | FitsOn(trials, n, outcome) ensures Measured(records, mapping, n, outcome) {
      assert Mapped(mapping, n);
      var id :| id in mapping && mapping[id] == n;
      assert id in RecordIds(records);
      var r :| r in records && r.id == id;
      hide SignatureOf, PhaseOf, Synced, Projected, RecordIds;
      assert Reached(trials[n], r);
    }
  }

  lemma MapExtendsItself<V>(m: map<nat, V>)
    ensures MapExtends(m, m)
  {
  }

  lemma MapExtendsChain<V>(c: map<nat, V>, b: map<nat, V>, a: map<nat, V>)
    requires MapExtends(c, b) && MapExtends(b, a)
    ensures MapExtends(c, a)
  {
  }

  // Ending the client trial of a pending row in step with its record.
  lemma EndLinks(trials: map<nat, Trial>, mapping: map<nat, nat>, signatures: map<nat, Signature>, r: Record)
    requires Synced(trials, mapping, signatures)
    requires r.id in signatures && signatures[r.id] == PendingSignature(r.params)
    ensures r.id in mapping && mapping[r.id] in trials && trials[mapping[r.id]] == Trial(r.params, Running)
    ensures var ended := trials[mapping[r.id] := Trial(r.params, PhaseOf(r.status, r.outcome))];
            && Synced(ended, mapping, signatures[r.id := SignatureOf(r)])
            && (r.status == Pending ==> ended == trials)
  {
  }

  lemma AttachLinks(trials: map<nat, Trial>, mapping: map<nat, nat>, signatures: map<nat, Signature>,
                    id: nat, index: nat, params: Encoded)
    requires Synced(trials, mapping, signatures) && id !in mapping && index !in trials
    ensures Synced(trials[index := Trial(params, Running)], mapping[id := index],
                   signatures[id := PendingSignature(params)])
  {
    var grown := mapping[id := index];
    assert grown[id] == index && Mapped(grown, index);
    forall n | n in trials && Mapped(mapping, n) ensures Mapped(grown, n) {
      var prior :| prior in mapping && mapping[prior] == n;
      assert grown[prior] == n;
    }
  }

  // ---- proposals being worked through ---------------------------------------------------------

  predicate Waits(trials: map<nat, Trial>, mapping: map<nat, nat>, p: Proposal) {
    p.index in trials && trials[p.index] == Trial(p.params, Running) && !Mapped(mapping, p.index)
  }

  // In step, apart from the proposals still to be looked at.
  predicate SyncedBut(trials: map<nat, Trial>, mapping: map<nat, nat>, signatures: map<nat, Signature>, rest: seq<Proposal>) {
    && Linked(trials, mapping, signatures)
    && (forall i :: 0 <= i < |rest| ==> Waits(trials, mapping, rest[i]))
    && (forall i, j :: 0 <= i < j < |rest| ==> rest[i].index != rest[j].index)
    && forall n :: n in trials ==> Mapped(mapping, n) || trials[n].phase == Abandoned || Listed(rest, n)
  }

  predicate Listed(rest: seq<Proposal>, n: nat) {
    exists i :: 0 <= i < |rest| && rest[i].index == n
  }

  lemma Received(trials: map<nat, Trial>, mapping: map<nat, nat>, signatures: map<nat, Signature>,
                 batch: seq<Proposal>, most: nat)
    requires Synced(trials, mapping, signatures) && FreshBatch(batch, trials.Keys, most)
    ensures SyncedBut(trials + RunningTrials(batch), mapping, signatures, batch)
  {
    RunningTrialsAre(batch, trials.Keys, most);
    var grown := trials + RunningTrials(batch);
    forall i | 0 <= i < |batch| ensures Waits(grown, mapping, batch[i]) {
      assert !Mapped(mapping, batch[i].index);
    }
  }

  lemma Finished(trials: map<nat, Trial>, mapping: map<nat, nat>, signatures: map<nat, Signature>)
    requires SyncedBut(trials, mapping, signatures, [])
    ensures Synced(trials, mapping, signatures)
  {
  }

  // The first waiting proposal is abandoned.
  lemma Dropped(trials: map<nat, Trial>, mapping: map<nat, nat>, signatures: map<nat, Signature>, rest: seq<Proposal>)
    requires SyncedBut(trials, mapping, signatures, rest) && rest != []
    ensures Waits(trials, mapping, rest[0])
    ensures SyncedBut(trials[rest[0].index := Trial(rest[0].params, Abandoned)], mapping, signatures, rest[1..])
  {
    var p := rest[0];
    var ended := trials[p.index := Trial(p.params, Abandoned)];
    assert Waits(trials, mapping, p);
    ListedRest(rest);
    forall i | 0 <= i < |rest[1..]| ensures Waits(ended, mapping, rest[1..][i]) {
      assert rest[1..][i] == rest[i + 1];
    }
    assert Linked(ended, mapping, signatures) by {
      forall id | id in mapping ensures mapping[id] != p.index { assert mapping[id] == p.index ==> Mapped(mapping, p.index); }
    }
  }

  lemma ListedRest(rest: seq<Proposal>)
    requires rest != []
    ensures forall n :: Listed(rest, n) ==> n == rest[0].index || Listed(rest[1..], n)
  {
    forall n | Listed(rest, n) ensures n == rest[0].index || Listed(rest[1..], n) {
      var i :| 0 <= i < |rest| && rest[i].index == n;
      if i > 0 { assert rest[1..][i - 1].index == n; }
    }
  }

  // The first waiting proposal becomes the trial `id`.
  lemma Adopted(trials: map<nat, Trial>, mapping: map<nat, nat>, signatures: map<nat, Signature>, rest: seq<Proposal>, id: nat)
    requires SyncedBut(trials, mapping, signatures, rest) && rest != [] && id !in mapping
    ensures SyncedBut(trials, mapping[id := rest[0].index], signatures[id := PendingSignature(rest[0].params)], rest[1..])
  {
    var p := rest[0];
    var grown := mapping[id := p.index];
    assert Waits(trials, mapping, p);
    ListedRest(rest);
    MappedGrows(mapping, id, p.index);
    AdoptLinks(trials, mapping, signatures, id, p);
    hide Linked;
    forall i | 0 <= i < |rest[1..]| ensures Waits(trials, grown, rest[1..][i]) {
      assert rest[1..][i] == rest[i + 1] && Waits(trials, mapping, rest[i + 1]) && rest[0].index != rest[i + 1].index;
      StillUnmapped(mapping, id, p.index, rest[i + 1].index);
    }
  }

  lemma StillUnmapped(mapping: map<nat, nat>, id: nat, index: nat, n: nat)
    requires !Mapped(mapping, n) && n != index
    ensures !Mapped(mapping[id := index], n)
  {
    var grown := mapping[id := index];
    forall a | a in grown ensures grown[a] != n {
      if a != id { assert Mapped(mapping, mapping[a]); }
    }
  }

  lemma MappedGrows(mapping: map<nat, nat>, id: nat, index: nat)
    requires id !in mapping
    ensures Mapped(mapping[id := index], index)
    ensures forall n :: Mapped(mapping, n) ==> Mapped(mapping[id := index], n)
  {
    assert mapping[id := index][id] == index;
    forall n | Mapped(mapping, n) ensures Mapped(mapping[id := index], n) {
      var other :| other in mapping && mapping[other] == n;
      assert mapping[id := index][other] == n;
    }
  }

  lemma AdoptLinks(trials: map<nat, Trial>, mapping: map<nat, nat>, signatures: map<nat, Signature>, id: nat, p: Proposal)
    requires Linked(trials, mapping, signatures) && id !in mapping && Waits(trials, mapping, p)
    ensures Linked(trials, mapping[id := p.index], signatures[id := PendingSignature(p.params)])
  {
    forall a | a in mapping ensures mapping[a] != p.index { assert mapping[a] == p.index ==> Mapped(mapping, p.index); }
  }
}
