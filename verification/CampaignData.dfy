// Canonical campaign records: bo_state.json and what it points at.
module CampaignData {
  import opened Wrappers

  // The fields recovery compares: params, suggested_at and lease_token.
  datatype Core = Core(params: string, suggestedAt: real, leaseToken: Option<string>)

  // A pending entry or an observation; detail stands for the remaining fields.
  datatype Trial = Trial(id: nat, core: Core, detail: string)

  // Digests of the two configuration contracts cover different documents.
  datatype Fingerprint = Contract1(config: string) | Contract2(config: string)

  datatype Recovery = Recovery(
    rebuildId: string, lineage: string, sourceFormat: nat, targetFormat: nat, observations: nat, pending: nat)

  // An immutable snapshot envelope. Digests are injective, so the envelope also
  // stands for the pointer {path, sha256} that names it.
  datatype Snapshot = Snapshot(
    format: nat, fingerprint: Fingerprint, lineage: string, generation: nat,
    lastRebuild: Option<Recovery>, payload: string)

  datatype RebuildEvent = RebuildEvent(recovery: Recovery, snapshot: Snapshot)

  // state["optimizer"]; no snapshot means initialized == False.
  datatype Optimizer = Optimizer(
    format: nat, snapshot: Option<Snapshot>, fingerprint: Option<Fingerprint>,
    lastRebuild: Option<Recovery>, pendingRebuild: Option<RebuildEvent>)

  datatype State = State(
    pending: seq<Trial>, observations: seq<Trial>, nextTrialId: nat, optimizer: Option<Optimizer>)

  function Rows(s: State): seq<Trial> {
    s.pending + s.observations
  }

  function Pointer(s: State): Option<Snapshot> {
    if s.optimizer.Some? then s.optimizer.value.snapshot else None
  }

  function PendingRebuild(s: State): Option<RebuildEvent> {
    if s.optimizer.Some? then s.optimizer.value.pendingRebuild else None
  }

  // {row["trial_id"]: row for row in rows}: the last row wins.
  function Find(rows: seq<Trial>, id: nat): Option<Trial> {
    if rows == [] then None
    else if rows[|rows| - 1].id == id then Some(rows[|rows| - 1])
    else Find(rows[..|rows| - 1], id)
  }

  function Ids(rows: seq<Trial>): seq<nat> {
    seq(|rows|, i requires 0 <= i < |rows| => rows[i].id)
  }

  function Range(first: nat, count: nat): seq<nat> {
    seq(count, i => first + i)
  }

  // Trial ids 1 .. nextTrialId-1, each exactly once.
  predicate Numbered(s: State) {
    s.nextTrialId >= 1 && multiset(Ids(Rows(s))) == multiset(Range(1, s.nextTrialId - 1))
  }
}
