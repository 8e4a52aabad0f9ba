// One request from the controller to the worker and the controller's check of the
// answer (run_request_v2 in optimizer_ax_worker.py, _prepare_projection_v2 in
// optimizer_ax.py).
module Request {
  import opened Wrappers
  import opened Space
  import opened SpaceOrder
  import opened Codec
  import opened Worker
  import opened Batch
  import C = Constraints

  // A canonical trial with its public point.
  datatype Row = Row(id: nat, point: Point, status: Status, outcome: string)

  datatype Answer = Answer(mapping: map<nat, nat>, signatures: map<nat, Signature>, snapshot: map<nat, Trial>,
                           candidates: seq<Candidate>, attempts: nat, rejects: map<Reason, nat>)

  predicate RowsOK(space: seq<Param>, rows: seq<Row>, next: nat) {
    && Tree(space)
    && (forall i :: 0 <= i < |rows| ==> EncodePoint(space, rows[i].point).Some? && rows[i].id < next)
    && (forall i, j :: 0 <= i < j < |rows| ==> rows[i].id != rows[j].id)
  }

  function RecordsOf(space: seq<Param>, rows: seq<Row>, next: nat): (r: seq<Record>)
    requires RowsOK(space, rows, next)
    ensures |r| == |rows|
    ensures forall i :: 0 <= i < |r| ==>
      r[i] == Record(rows[i].id, EncodePoint(space, rows[i].point).value, rows[i].status, rows[i].outcome)
  {
    seq(|rows|, i requires 0 <= i < |rows| =>
      Record(rows[i].id, EncodePoint(space, rows[i].point).value, rows[i].status, rows[i].outcome))
  }

  predicate Blocks(status: Status, allowRepeats: bool) {
    status == Pending || !allowRepeats
  }

  // The worker compares decoded points, the controller the points as stored.
  function WorkerBlocked(space: seq<Param>, records: seq<Record>, allowRepeats: bool): set<Point>
    requires Tree(space)
  {
    set r | r in records && Blocks(r.status, allowRepeats) && DecodePoint(space, r.params).Some?
          :: DecodePoint(space, r.params).value
  }

  function StoredBlocked(rows: seq<Row>, allowRepeats: bool): set<Point> {
    set r | r in rows && Blocks(r.status, allowRepeats) :: r.point
  }

  // What may not be proposed again: the points of pending rows, and of all rows unless
  // repeats are allowed.
  lemma BlockedMeans(rows: seq<Row>, allowRepeats: bool, x: Point)
    ensures x in StoredBlocked(rows, allowRepeats) <==>
            exists r :: r in rows && r.point == x && (allowRepeats ==> r.status == Pending)
  {
  }

  lemma WorkerBlockedMeans(space: seq<Param>, records: seq<Record>, allowRepeats: bool, x: Point)
    requires Tree(space)
    ensures x in WorkerBlocked(space, records, allowRepeats) <==>
            exists r :: r in records && DecodePoint(space, r.params) == Some(x) && (allowRepeats ==> r.status == Pending)
  {
    hide Tree, DecodePoint;
  }

  // ---- the worker's side --------------------------------------------------------------------------

  lemma RecordIdsAre(space: seq<Param>, rows: seq<Row>, next: nat)
    requires RowsOK(space, rows, next)
    ensures DistinctIds(RecordsOf(space, rows, next))
    ensures forall id :: id in RecordIds(RecordsOf(space, rows, next)) ==> id < next
  {
  }

  // The generation half's view of a request.
  function SetupFor(space: seq<Param>, rules: C.Rules, rows: seq<Row>, next: nat, allowRepeats: bool): Setup
    requires RowsOK(space, rows, next)
  {
    Setup(space, rules, next, WorkerBlocked(space, RecordsOf(space, rows, next), allowRepeats))
  }

  // How a request ends: by the projection's two checks, or as generation ends on
  // the proposals the client made.
  ghost predicate RequestEnds(space: seq<Param>, rules: C.Rules, rows: seq<Row>, next: nat,
                              mapping: map<nat, nat>, signatures: map<nat, Signature>,
                              count: nat, budget: nat, allowRepeats: bool, proposals: seq<Proposal>,
                              error: Option<WorkerError>)
    requires RowsOK(space, rows, next)
  {
    var records := RecordsOf(space, rows, next);
    if !(mapping.Keys <= RecordIds(records)) then error == Some(HistoryLost)
    else if exists r :: r in records && !Admissible(r, signatures) then
      error.Some? && error.value.TerminalChanged?
    else
      Ready(SetupFor(space, rules, rows, next, allowRepeats)) &&
      GenerationEnds(SetupFor(space, rules, rows, next, allowRepeats), count, budget, proposals, error)
  }

  // Every request to the client is due.
  ghost predicate AsksOf(space: seq<Param>, rules: C.Rules, rows: seq<Row>, next: nat, count: nat, budget: nat,
                         allowRepeats: bool, first: nat, given: seq<Proposal>, before: seq<Ask>, now: seq<Ask>)
    requires RowsOK(space, rows, next)
  {
    now == before || (Ready(SetupFor(space, rules, rows, next, allowRepeats))
                      && AskedSince(SetupFor(space, rules, rows, next, allowRepeats), count, budget, first, given, before, now))
  }

  // The answer's candidates, attempts and reject counts are those of the proposals.
  ghost predicate Reports(space: seq<Param>, rules: C.Rules, rows: seq<Row>, next: nat, allowRepeats: bool,
                          proposals: seq<Proposal>, a: Answer)
    requires RowsOK(space, rows, next)
  {
    var s := SetupFor(space, rules, rows, next, allowRepeats);
    && Ready(s) && a.attempts == |proposals|
    && a.candidates == Tallied(s, proposals).candidates && a.rejects == Tallied(s, proposals).rejects
  }

  // run_request_v2
  method RunRequest(client: Client, space: seq<Param>, rules: C.Rules, rows: seq<Row>, next: nat,
                    mapping: map<nat, nat>, signatures: map<nat, Signature>,
                    count: nat, budget: nat, allowRepeats: bool)
    returns (answer: Answer, error: Option<WorkerError>)
    requires RowsOK(space, rows, next) && client.FreshIndices() && Synced(client.trials, mapping, signatures)
    modifies client
    ensures old(client.given) <= client.given
    ensures RequestEnds(space, rules, rows, next, mapping, signatures, count, budget, allowRepeats,
                        client.given[|old(client.given)|..], error)
    ensures AsksOf(space, rules, rows, next, count, budget, allowRepeats, |old(client.given)|, client.given,
                   old(client.asks), client.asks)
    ensures error.None? ==> Reports(space, rules, rows, next, allowRepeats, client.given[|old(client.given)|..], answer)
    ensures error.None? ==> answer.snapshot == client.trials
    ensures error.None? ==> MapExtends(answer.mapping, mapping)
    ensures error.None? ==> Synced(answer.snapshot, answer.mapping, answer.signatures)
    ensures error.None? ==> Accepted(space, rules, rows, next, count, budget, allowRepeats, answer)
  {
    hide *;
    answer := Answer(map[], map[], map[], [], 0, map[]);
    var records := RecordsOf(space, rows, next);
    RecordIdsAre(space, rows, next);
    var projection := new Projection(client, mapping, signatures);
    ProjectionValid(projection);
    error := projection.ProjectAll(records);
    if error.Some? {
      EndsEarly(space, rules, rows, next, mapping, signatures, count, budget, allowRepeats, error);
      assert client.given[|old(client.given)|..] == [];
      NothingAsked(space, rules, rows, next, count, budget, allowRepeats, |old(client.given)|, client.given, client.asks);
      return;
    }
    ghost var projected := projection.mapping;
    SetupIsReady(space, rules, rows, next, allowRepeats);
    var setup := SetupFor(space, rules, rows, next, allowRepeats);
    answer, error := GenerateBatch(setup, projection, rows, records, count, budget, allowRepeats);
    EndsLate(space, rules, rows, next, mapping, signatures, count, budget, allowRepeats,
             client.given[|old(client.given)|..], error);
    Asked(space, rules, rows, next, count, budget, allowRepeats, |old(client.given)|, client.given, old(client.asks), client.asks);
    if error.None? {
      MapExtendsChain(answer.mapping, projected, mapping);
      Reported(space, rules, rows, next, allowRepeats, client.given[|old(client.given)|..], answer);
    }
  }

  lemma NothingAsked(space: seq<Param>, rules: C.Rules, rows: seq<Row>, next: nat, count: nat, budget: nat,
                     allowRepeats: bool, first: nat, given: seq<Proposal>, asks: seq<Ask>)
    requires RowsOK(space, rows, next)
    ensures AsksOf(space, rules, rows, next, count, budget, allowRepeats, first, given, asks, asks)
  {
    hide RowsOK;
  }

  lemma Asked(space: seq<Param>, rules: C.Rules, rows: seq<Row>, next: nat, count: nat, budget: nat,
              allowRepeats: bool, first: nat, given: seq<Proposal>, before: seq<Ask>, now: seq<Ask>)
    requires RowsOK(space, rows, next) && Ready(SetupFor(space, rules, rows, next, allowRepeats))
    requires AskedSince(SetupFor(space, rules, rows, next, allowRepeats), count, budget, first, given, before, now)
    ensures AsksOf(space, rules, rows, next, count, budget, allowRepeats, first, given, before, now)
  {
    hide RowsOK, Ready, SetupFor, AskedSince;
  }

  lemma Reported(space: seq<Param>, rules: C.Rules, rows: seq<Row>, next: nat, allowRepeats: bool,
                 proposals: seq<Proposal>, a: Answer)
    requires RowsOK(space, rows, next) && Ready(SetupFor(space, rules, rows, next, allowRepeats))
    requires a.attempts == |proposals|
    requires var t := Tallied(SetupFor(space, rules, rows, next, allowRepeats), proposals);
             a.candidates == t.candidates && a.rejects == t.rejects
    ensures Reports(space, rules, rows, next, allowRepeats, proposals, a)
  {
    hide RowsOK, Ready, SetupFor, Tallied;
  }

  lemma SetupIsReady(space: seq<Param>, rules: C.Rules, rows: seq<Row>, next: nat, allowRepeats: bool)
    requires RowsOK(space, rows, next)
    ensures var s := SetupFor(space, rules, rows, next, allowRepeats);
            && Ready(s) && s.space == space && s.rules == rules && s.next == next
            && Tree(space) && s.start == WorkerBlocked(space, RecordsOf(space, rows, next), allowRepeats)
  {
    hide Tree, WorkerBlocked;
  }

  lemma EndsEarly(space: seq<Param>, rules: C.Rules, rows: seq<Row>, next: nat,
                  mapping: map<nat, nat>, signatures: map<nat, Signature>, count: nat, budget: nat, allowRepeats: bool,
                  error: Option<WorkerError>)
    requires RowsOK(space, rows, next)
    requires var records := RecordsOf(space, rows, next);
             && (error == Some(HistoryLost) <==> !(mapping.Keys <= RecordIds(records)))
             && (error.None? <==> mapping.Keys <= RecordIds(records) && forall r :: r in records ==> Admissible(r, signatures))
             && (error.Some? ==> error.value == HistoryLost || error.value.TerminalChanged?)
    requires error.Some?
    ensures RequestEnds(space, rules, rows, next, mapping, signatures, count, budget, allowRepeats, [], error)
  {
    hide RowsOK, Admissible, RecordIds, GenerationEnds, RecordsOf, Ready;
  }

  lemma EndsLate(space: seq<Param>, rules: C.Rules, rows: seq<Row>, next: nat,
                 mapping: map<nat, nat>, signatures: map<nat, Signature>, count: nat, budget: nat, allowRepeats: bool,
                 proposals: seq<Proposal>, error: Option<WorkerError>)
    requires RowsOK(space, rows, next)
    requires var records := RecordsOf(space, rows, next);
             mapping.Keys <= RecordIds(records) && forall r :: r in records ==> Admissible(r, signatures)
    requires var s := SetupFor(space, rules, rows, next, allowRepeats);
             Ready(s) && GenerationEnds(s, count, budget, proposals, error)
    ensures RequestEnds(space, rules, rows, next, mapping, signatures, count, budget, allowRepeats, proposals, error)
  {
    hide RowsOK, Admissible, RecordIds, GenerationEnds, RecordsOf, Ready, SetupFor;
  }

  // The generation half, on a projection of the canonical rows.
  method GenerateBatch(setup: Setup, projection: Projection, rows: seq<Row>, records: seq<Record>,
                       count: nat, budget: nat, allowRepeats: bool)
    returns (answer: Answer, error: Option<WorkerError>)
    requires RowsOK(setup.space, rows, setup.next) && records == RecordsOf(setup.space, rows, setup.next)
    requires Ready(setup) && Tree(setup.space) && setup.start == WorkerBlocked(setup.space, records, allowRepeats)
    requires projection.Valid() && projection.client.FreshIndices()
    requires Projected(records, projection.mapping, projection.signatures)
    modifies projection, projection.client
    ensures old(projection.client.given) <= projection.client.given
    ensures GenerationEnds(setup, count, budget, projection.client.given[|old(projection.client.given)|..], error)
    ensures AskedSince(setup, count, budget, |old(projection.client.given)|, projection.client.given,
                       old(projection.client.asks), projection.client.asks)
    ensures error.None? ==>
              var proposals := projection.client.given[|old(projection.client.given)|..];
              && answer.attempts == |proposals|
              && answer.candidates == Tallied(setup, proposals).candidates
              && answer.rejects == Tallied(setup, proposals).rejects
    ensures error.None? ==> Synced(answer.snapshot, answer.mapping, answer.signatures)
    ensures error.None? ==> answer.snapshot == projection.client.trials
    ensures error.None? ==> MapExtends(answer.mapping, old(projection.mapping))
    ensures error.None? ==>
              Accepted(setup.space, setup.rules, rows, setup.next, count, budget, allowRepeats, answer)
  {
    answer := Answer(map[], map[], map[], [], 0, map[]);
    ghost var projected, signed := projection.mapping, projection.signatures;
    hide RowsOK, Ready, Synced, Projected, SyncedBut, Grown, Client.FreshIndices, WorkerBlocked, MapExtends, Accepted,
         RecordIds, GenerationEnds, Tallied, Tree, AskedSince;
    var g := new Generator(setup, projection);
    StartGrown(setup, projection.mapping, projection.signatures);
    NothingTallied(setup);
    RecordIdsAre(setup.space, rows, setup.next);
    KeysBelow(records, projected, signed, setup.next);
    StartWaiting(projection.client.trials, projection.mapping, projection.signatures);
    error := g.Generate(count, budget);
    if error.Some? { return; }
    Finished(projection.client.trials, projection.mapping, projection.signatures);
    assert projection.client.given[|old(projection.client.given)|..] == g.seen;
    answer := Answer(projection.mapping, projection.signatures, projection.client.trials, g.candidates, g.attempts, g.rejects);
    AnswerAccepted(setup, rows, records, projected, signed, g.blocked, count, budget, allowRepeats, answer);
  }

  lemma NothingTallied(s: Setup)
    requires Ready(s)
    ensures Tallied(s, []) == Tally([], s.start, map[])
  {
  }

  lemma ProjectionValid(p: Projection)
    requires Synced(p.client.trials, p.mapping, p.signatures)
    ensures p.Valid()
  {
  }

  lemma SetupReady(s: Setup)
    requires Tree(s.space)
    ensures Ready(s)
  {
  }

  lemma TreeOf(space: seq<Param>, rows: seq<Row>, next: nat)
    requires RowsOK(space, rows, next)
    ensures Tree(space)
  {
  }

  lemma KeysBelow(records: seq<Record>, mapping: map<nat, nat>, signatures: map<nat, Signature>, next: nat)
    requires Projected(records, mapping, signatures) && forall id :: id in RecordIds(records) ==> id < next
    ensures forall id :: id in mapping.Keys ==> id < next
  {
  }

  lemma StartWaiting(trials: map<nat, Trial>, mapping: map<nat, nat>, signatures: map<nat, Signature>)
    requires Synced(trials, mapping, signatures)
    ensures SyncedBut(trials, mapping, signatures, [])
  {
  }

  // Why a finished generation passes the controller's check.
  lemma AnswerAccepted(setup: Setup, rows: seq<Row>, records: seq<Record>, projected: map<nat, nat>,
                       signed: map<nat, Signature>, blocked: set<Point>, count: nat, budget: nat, allowRepeats: bool,
                       a: Answer)
    requires RowsOK(setup.space, rows, setup.next) && records == RecordsOf(setup.space, rows, setup.next)
    requires Ready(setup) && setup.start == WorkerBlocked(setup.space, records, allowRepeats)
    requires Projected(records, projected, signed) && Synced(a.snapshot, a.mapping, a.signatures)
    requires Grown(setup, projected.Keys, a.candidates, blocked, a.mapping, a.signatures)
    requires MapExtends(a.signatures, signed)
    requires count <= a.attempts <= budget && |a.candidates| == count
    ensures Accepted(setup.space, setup.rules, rows, setup.next, count, budget, allowRepeats, a)
  {
    SyncedKeys(a.snapshot, a.mapping, a.signatures);
    assert Injective(a.mapping);
    RegisteredMaps(setup, projected.Keys, a);
    hide RowsOK, Ready, Synced, WorkerBlocked, StoredBlocked, GoodBatch, Projected, Registered, MapExtends,
         ExpectedSignatures, Injective, MapsTo, PointsOf;
    StoredIsWeaker(setup, rows, records, allowRepeats, a.candidates);
    AsExpected(records, setup, projected, signed, a);
  }

  lemma RegisteredMaps(setup: Setup, before: set<nat>, a: Answer)
    requires Registered(setup, a.candidates, before, a.mapping, a.signatures)
    ensures MapsTo(a.mapping, setup.next, a.candidates)
  {
    forall i | 0 <= i < |a.candidates| ensures MapsAt(a.mapping, setup.next + i, a.candidates[i]) {
      assert CandidateAt(setup, a.candidates, i, a.mapping, a.signatures);
    }
  }

  lemma AsExpected(records: seq<Record>, setup: Setup, projected: map<nat, nat>, signed: map<nat, Signature>, a: Answer)
    requires Projected(records, projected, signed) && MapExtends(a.signatures, signed)
    requires Registered(setup, a.candidates, projected.Keys, a.mapping, a.signatures)
    requires a.mapping.Keys == a.signatures.Keys
    ensures ExpectedSignatures(records, setup.next, a.candidates, a.signatures)
  {
    hide RecordIds;
    forall id ensures id in a.signatures <==> id in RecordIds(records) || setup.next <= id < setup.next + |a.candidates| {
      assert id in a.signatures <==> id in a.mapping;
    }
    forall i | 0 <= i < |a.candidates| ensures SignedAt(a.signatures, setup.next + i, a.candidates[i]) {
      assert CandidateAt(setup, a.candidates, i, a.mapping, a.signatures);
    }
  }

  // A stored point that equals a decoded one is blocked on the worker's side too.
  lemma StoredIsWeaker(setup: Setup, rows: seq<Row>, records: seq<Record>, allowRepeats: bool, cands: seq<Candidate>)
    requires RowsOK(setup.space, rows, setup.next) && records == RecordsOf(setup.space, rows, setup.next)
    requires Ready(setup) && setup.start == WorkerBlocked(setup.space, records, allowRepeats)
    requires GoodBatch(setup, cands)
    ensures GoodBatch(setup.(start := StoredBlocked(rows, allowRepeats)), cands)
  {
    var stored := setup.(start := StoredBlocked(rows, allowRepeats));
    assert Ready(stored) && Tree(setup.space);
    hide RowsOK, Ready, Tree, DecodePoint, C.Feasible;
    forall i | 0 <= i < |cands|
      ensures GoodCandidate(stored, cands[i]) && PointOf(stored, cands[i]).value !in stored.start
    {
      assert GoodCandidate(setup, cands[i]);
      var w := PointOf(setup, cands[i]).value;
      forall k | 0 <= k < |rows| && Blocks(rows[k].status, allowRepeats) ensures rows[k].point != w {
        BlockedOnBothSides(setup, rows, records, allowRepeats, k, cands[i].params);
      }
    }
    forall i, j | 0 <= i < j < |cands| ensures PointOf(stored, cands[i]) != PointOf(stored, cands[j]) {
      assert PointOf(setup, cands[i]) != PointOf(setup, cands[j]);
    }
  }

  lemma BlockedOnBothSides(setup: Setup, rows: seq<Row>, records: seq<Record>, allowRepeats: bool, k: nat, e: Encoded)
    requires RowsOK(setup.space, rows, setup.next) && records == RecordsOf(setup.space, rows, setup.next)
    requires k < |rows| && Blocks(rows[k].status, allowRepeats)
    requires Tree(setup.space) && DecodePoint(setup.space, e).Some?
    ensures rows[k].point == DecodePoint(setup.space, e).value ==>
              rows[k].point in WorkerBlocked(setup.space, records, allowRepeats)
  {
    assert EncodePoint(setup.space, rows[k].point).Some?;
    assert records[k] in records;
    hide RowsOK, Tree, DecodePoint, EncodePoint;
    DecodeUndoesEncode(setup.space, rows[k].point);
    if rows[k].point == DecodePoint(setup.space, e).value { DecodedIsWidened(setup.space, e); }
  }

  // ---- the controller's side ------------------------------------------------------------------------

  // The signatures the canonical history and the batch call for.
  ghost predicate ExpectedSignatures(records: seq<Record>, next: nat, cands: seq<Candidate>, signatures: map<nat, Signature>) {
    && (forall id :: id in signatures <==> id in RecordIds(records) || next <= id < next + |cands|)
    && (forall r :: r in records ==> r.id in signatures && signatures[r.id] == SignatureOf(r))
    && (forall i :: 0 <= i < |cands| ==> SignedAt(signatures, next + i, cands[i]))
  }

  predicate SignedAt(signatures: map<nat, Signature>, id: nat, c: Candidate) {
    id in signatures && signatures[id] == PendingSignature(c.params)
  }

  // What the controller requires of an answer before it commits the batch.
  ghost predicate Accepted(space: seq<Param>, rules: C.Rules, rows: seq<Row>, next: nat,
                           count: nat, budget: nat, allowRepeats: bool, a: Answer)
    requires RowsOK(space, rows, next)
  {
    && count <= a.attempts <= budget && |a.candidates| == count
    && GoodBatch(Setup(space, rules, next, StoredBlocked(rows, allowRepeats)), a.candidates)
    && MapsTo(a.mapping, next, a.candidates)
    && ExpectedSignatures(RecordsOf(space, rows, next), next, a.candidates, a.signatures)
    && a.mapping.Keys == a.signatures.Keys && Injective(a.mapping)
  }

  // ---- the check itself ------------------------------------------------------------------------------

  // As many values as keys means that no two keys share a value.
  lemma {:induction false} DistinctValues(m: map<nat, nat>)
    ensures |m.Values| <= |m.Keys|
    ensures |m.Values| == |m.Keys| <==> Injective(m)
  {
    if m.Keys != {} {
      var k :| k in m.Keys;
      var rest := m - {k};
      DistinctValues(rest);
      assert m.Keys == rest.Keys + {k};
      ValuesWithout(m, k);
      if m[k] in rest.Values {
        var j :| j in rest && rest[j] == m[k];
        assert m[j] == m[k] && j != k;
      } else {
        OneMoreValue(m, rest, k);
      }
    }
  }

  lemma ValuesWithout(m: map<nat, nat>, k: nat)
    requires k in m
    ensures m.Values == (m - {k}).Values + {m[k]}
  {
    forall v | v in m.Values ensures v in (m - {k}).Values + {m[k]} {
      var j :| j in m && m[j] == v;
      if j != k { assert (m - {k})[j] == v; }
    }
    forall v | v in (m - {k}).Values ensures v in m.Values {
      var j :| j in m - {k} && (m - {k})[j] == v;
      assert m[j] == v;
    }
    assert m[k] in m.Values;
  }

  lemma OneMoreValue(m: map<nat, nat>, rest: map<nat, nat>, k: nat)
    requires k in m && rest == m - {k} && m[k] !in rest.Values
    ensures Injective(m) <==> Injective(rest)
  {
    forall b | b in rest ensures m[b] != m[k] { assert rest[b] in rest.Values; }
    if Injective(rest) {
      forall a, b | a in m && b in m && m[a] == m[b] ensures a == b {
        if a in rest && b in rest { assert rest[a] == rest[b]; }
      }
    }
    if Injective(m) {
      forall a, b | a in rest && b in rest && rest[a] == rest[b] ensures a == b {
        assert m[a] == m[b];
      }
    }
  }

  method RecordSignatures(records: seq<Record>) returns (expected: map<nat, Signature>)
    requires DistinctIds(records)
    ensures ExpectedSignatures(records, 0, [], expected)
  {
    expected := map[];
    for i := 0 to |records|
      invariant Progress(records, i, map[], expected)
    {
      ProgressStep(records, i, map[], expected);
      expected := expected[records[i].id := SignatureOf(records[i])];
    }
    EndProgress(records, map[], map id | id in expected :: 0, expected);
    assert records[..|records|] == records;
  }

  lemma NoCandidatesYet(records: seq<Record>, next: nat, expected: map<nat, Signature>)
    requires ExpectedSignatures(records, 0, [], expected)
    ensures ExpectedSignatures(records, next, [], expected)
  {
  }

  lemma ExpectedNext(records: seq<Record>, next: nat, cands: seq<Candidate>, expected: map<nat, Signature>, c: Candidate)
    requires ExpectedSignatures(records, next, cands, expected)
    requires forall id :: id in RecordIds(records) ==> id < next
    ensures ExpectedSignatures(records, next, cands + [c], expected[next + |cands| := PendingSignature(c.params)])
  {
    forall r | r in records ensures r.id in RecordIds(records) {}
    hide RecordIds, SignatureOf;
  }

  lemma ExpectedOnly(records: seq<Record>, next: nat, cands: seq<Candidate>, a: map<nat, Signature>, b: map<nat, Signature>)
    requires ExpectedSignatures(records, next, cands, a) && ExpectedSignatures(records, next, cands, b)
    ensures a == b
  {
    assert a.Keys == b.Keys;
    forall id | id in a ensures a[id] == b[id] {
      if id in RecordIds(records) {
        var r :| r in records && r.id == id;
      } else {
        var i := id - next;
        assert id == next + i && cands[i] in cands;
      }
    }
  }

  // The prefix of a batch that has been looked at.
  ghost predicate Seen(s: Setup, cands: seq<Candidate>, i: nat, blocked: set<Point>)
    requires Ready(s) && i <= |cands|
  {
    GoodBatch(s, cands[..i]) && blocked == s.start + PointsOf(s, cands[..i])
  }

  lemma SeenNext(s: Setup, cands: seq<Candidate>, i: nat, blocked: set<Point>)
    requires Ready(s) && i < |cands| && Seen(s, cands, i, blocked)
    ensures GoodCandidate(s, cands[i]) && PointOf(s, cands[i]).value !in blocked ==>
              Seen(s, cands, i + 1, blocked + {PointOf(s, cands[i]).value})
    ensures !(GoodCandidate(s, cands[i]) && PointOf(s, cands[i]).value !in blocked) ==> !GoodBatch(s, cands)
  {
    assert cands[..i + 1] == cands[..i] + [cands[i]];
    hide Ready, Tree, DecodePoint, C.Feasible;
    if GoodCandidate(s, cands[i]) {
      if PointOf(s, cands[i]).value !in blocked {
        MoreGood(s, cands[..i], cands[i]);
        MorePoints(s, cands[..i], cands[i]);
      } else {
        Repeats(s, cands, i);
      }
    }
  }

  lemma Repeats(s: Setup, cands: seq<Candidate>, i: nat)
    requires Ready(s) && i < |cands| && GoodCandidate(s, cands[i])
    requires PointOf(s, cands[i]).value in s.start + PointsOf(s, cands[..i])
    ensures !GoodBatch(s, cands)
  {
    var w := PointOf(s, cands[i]).value;
    if w in PointsOf(s, cands[..i]) {
      var c :| c in cands[..i] && DecodePoint(s.space, c.params) == Some(w);
      var k :| 0 <= k < i && cands[k] == c;
      assert PointOf(s, cands[k]) == PointOf(s, cands[i]);
    }
  }

  predicate MapsAt(mapping: map<nat, nat>, id: nat, c: Candidate) {
    id in mapping && mapping[id] == c.index
  }

  predicate MapsTo(mapping: map<nat, nat>, next: nat, cands: seq<Candidate>) {
    forall i :: 0 <= i < |cands| ==> MapsAt(mapping, next + i, cands[i])
  }

  // The state of the loop before candidate i.
  ghost predicate Checked(setup: Setup, records: seq<Record>, mapping: map<nat, nat>, cands: seq<Candidate>, i: nat,
                          blocked: set<Point>, expected: map<nat, Signature>)
    requires Ready(setup) && i <= |cands|
  {
    && Seen(setup, cands, i, blocked)
    && ExpectedSignatures(records, setup.next, cands[..i], expected)
    && MapsTo(mapping, setup.next, cands[..i])
    && forall id :: id in RecordIds(records) ==> id < setup.next
  }

  // What the loop asks of one candidate.
  ghost predicate Passes(setup: Setup, mapping: map<nat, nat>, blocked: set<Point>, i: nat, c: Candidate)
    requires Ready(setup)
  {
    GoodCandidate(setup, c) && PointOf(setup, c).value !in blocked && MapsAt(mapping, setup.next + i, c)
  }

  lemma CheckedNext(setup: Setup, records: seq<Record>, mapping: map<nat, nat>, cands: seq<Candidate>, i: nat,
                    blocked: set<Point>, expected: map<nat, Signature>)
    requires Ready(setup) && i < |cands| && Checked(setup, records, mapping, cands, i, blocked, expected)
    ensures Passes(setup, mapping, blocked, i, cands[i]) ==>
              Checked(setup, records, mapping, cands, i + 1, blocked + {PointOf(setup, cands[i]).value},
                      expected[setup.next + i := PendingSignature(cands[i].params)])
    ensures !Passes(setup, mapping, blocked, i, cands[i]) ==>
              !(GoodBatch(setup, cands) && MapsTo(mapping, setup.next, cands))
  {
    hide Ready, ExpectedSignatures, Seen, GoodBatch, GoodCandidate, RecordIds, MapsTo, DecodePoint;
    assert cands[..i + 1] == cands[..i] + [cands[i]];
    SeenNext(setup, cands, i, blocked);
    MapsNext(mapping, setup.next, cands, i);
    ExpectedNext(records, setup.next, cands[..i], expected, cands[i]);
  }

  lemma MapsNext(mapping: map<nat, nat>, next: nat, cands: seq<Candidate>, i: nat)
    requires i < |cands| && MapsTo(mapping, next, cands[..i])
    ensures if MapsAt(mapping, next + i, cands[i]) then MapsTo(mapping, next, cands[..i + 1])
            else !MapsTo(mapping, next, cands)
  {
    hide MapsAt;
    var earlier, now := cands[..i], cands[..i + 1];
    forall k | 0 <= k < i ensures MapsAt(mapping, next + k, now[k]) {
      assert now[k] == earlier[k];
    }
  }

  lemma StartChecked(setup: Setup, records: seq<Record>, mapping: map<nat, nat>, cands: seq<Candidate>,
                     expected: map<nat, Signature>)
    requires Ready(setup) && ExpectedSignatures(records, setup.next, [], expected)
    requires forall id :: id in RecordIds(records) ==> id < setup.next
    ensures Checked(setup, records, mapping, cands, 0, setup.start, expected)
  {
    assert cands[..0] == [];
  }

  lemma AllChecked(setup: Setup, records: seq<Record>, mapping: map<nat, nat>, cands: seq<Candidate>,
                   blocked: set<Point>, expected: map<nat, Signature>)
    requires Ready(setup) && Checked(setup, records, mapping, cands, |cands|, blocked, expected)
    ensures GoodBatch(setup, cands) && MapsTo(mapping, setup.next, cands)
    ensures ExpectedSignatures(records, setup.next, cands, expected)
  {
    assert cands[..|cands|] == cands;
  }

  method CheckCandidate(setup: Setup, mapping: map<nat, nat>, blocked: set<Point>, i: nat, c: Candidate)
    returns (raw: Option<Point>)
    requires Ready(setup)
    ensures raw.Some? <==> Passes(setup, mapping, blocked, i, c)
    ensures raw.Some? ==> raw == PointOf(setup, c)
  {
    ReadyIs(setup);
    hide Ready, Tree, DecodePoint, C.Feasible;
    raw := DecodePoint(setup.space, c.params);
    if raw.None? { return; }
    var violations := C.EvaluateConstraints(raw.value, setup.rules);
    if raw.value in blocked || violations != [] || !MapsAt(mapping, setup.next + i, c) { raw := None; }
  }

  method CheckCandidates(setup: Setup, records: seq<Record>, signed: map<nat, Signature>,
                         mapping: map<nat, nat>, cands: seq<Candidate>)
    returns (ok: bool, expected: map<nat, Signature>)
    requires Ready(setup) && ExpectedSignatures(records, setup.next, [], signed)
    requires forall id :: id in RecordIds(records) ==> id < setup.next
    ensures ok <==> GoodBatch(setup, cands) && MapsTo(mapping, setup.next, cands)
    ensures ok ==> ExpectedSignatures(records, setup.next, cands, expected)
  {
    hide *;
    expected := signed;
    var blocked := setup.start;
    StartChecked(setup, records, mapping, cands, expected);
    for i := 0 to |cands|
      invariant Checked(setup, records, mapping, cands, i, blocked, expected)
    {
      CheckedNext(setup, records, mapping, cands, i, blocked, expected);
      var raw := CheckCandidate(setup, mapping, blocked, i, cands[i]);
      if raw.None? { return false, expected; }
      blocked := blocked + {raw.value};
      expected := expected[setup.next + i := PendingSignature(cands[i].params)];
    }
    AllChecked(setup, records, mapping, cands, blocked, expected);
    ok := true;
  }

  // Main result: the controller's loop accepts exactly the answers that meet every
  // requirement, whoever produced them.
  method CheckAnswer(space: seq<Param>, rules: C.Rules, rows: seq<Row>, next: nat,
                     count: nat, budget: nat, allowRepeats: bool, a: Answer) returns (ok: bool)
    requires RowsOK(space, rows, next)
    ensures ok <==> Accepted(space, rules, rows, next, count, budget, allowRepeats, a)
  {
    if !(count <= a.attempts <= budget) || |a.candidates| != count { return false; }
    TreeOf(space, rows, next);
    var setup := Setup(space, rules, next, StoredBlocked(rows, allowRepeats));
    SetupReady(setup);
    hide RowsOK, Ready, Tree, DecodePoint, ExpectedSignatures, GoodBatch, StoredBlocked, RecordIds, DistinctIds, Injective;
    var records := RecordsOf(space, rows, next);
    RecordIdsAre(space, rows, next);
    var signed := RecordSignatures(records);
    NoCandidatesYet(records, next, signed);
    var expected;
    ok, expected := CheckCandidates(setup, records, signed, a.mapping, a.candidates);
    if !ok { return; }
    DistinctValues(a.mapping);
    if ExpectedSignatures(records, next, a.candidates, a.signatures) {
      ExpectedOnly(records, next, a.candidates, a.signatures, expected);
    }
    ok := a.signatures == expected && a.mapping.Keys == expected.Keys && |a.mapping.Values| == |expected.Keys|;
  }
}
