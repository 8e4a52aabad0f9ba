// Runs of requests, results and imports: the committed projection stays in step
// with the canonical rows.
module ProjectionRuns {
  import opened Wrappers
  import opened Space
  import opened SpaceOrder
  import opened Codec
  import opened Worker
  import opened Batch
  import opened Request
  import C = Constraints

  // Canonical rows with the counter, and the projection committed with them.
  datatype Campaign = Campaign(rows: seq<Row>, next: nat, snapshot: map<nat, Trial>,
                               mapping: map<nat, nat>, signatures: map<nat, Signature>)

  // A request's size, budget and repeat policy.
  datatype Terms = Terms(count: nat, budget: nat, allowRepeats: bool)

  datatype Step =
    | Accept(answer: Answer, terms: Terms)
    | Rebuild(anew: Answer, rebuilt: Terms, toSpace: seq<Param>, toRules: C.Rules)
    | Refuse
    | Finish(i: nat, status: Status, outcome: string)
    | Import(imported: seq<Row>)

  // What a successful request guarantees about its answer.
  ghost predicate Answers(space: seq<Param>, rules: C.Rules, c: Campaign, t: Terms, a: Answer) {
    && RowsOK(space, c.rows, c.next)
    && Synced(a.snapshot, a.mapping, a.signatures)
    && MapExtends(a.mapping, c.mapping)
    && Accepted(space, rules, c.rows, c.next, t.count, t.budget, t.allowRepeats, a)
  }

  function Unprojected(c: Campaign): Campaign {
    c.(snapshot := map[], mapping := map[], signatures := map[])
  }

  predicate Decode(space: seq<Param>, cands: seq<Candidate>)
    requires Tree(space)
  {
    forall i :: 0 <= i < |cands| ==> DecodePoint(space, cands[i].params).Some?
  }

  // The rows a committed batch adds.
  function NewRows(space: seq<Param>, next: nat, cands: seq<Candidate>): (r: seq<Row>)
    requires Tree(space) && Decode(space, cands)
    ensures |r| == |cands|
    ensures forall i :: 0 <= i < |r| ==> r[i] == Row(next + i, DecodePoint(space, cands[i].params).value, Pending, "")
  {
    seq(|cands|, i requires 0 <= i < |cands| => Row(next + i, DecodePoint(space, cands[i].params).value, Pending, ""))
  }

  // A rebuild may change the configuration when nothing is outstanding.
  ghost predicate Enabled(space: seq<Param>, rules: C.Rules, c: Campaign, s: Step) {
    match s
    case Accept(a, t) => Answers(space, rules, c, t, a)
    case Rebuild(a, t, toSpace, toRules) =>
      && t.count == 0 && Answers(toSpace, toRules, Unprojected(c), t, a)
      && ((toSpace == space && toRules == rules) || forall r :: r in c.rows ==> r.status != Pending)
    case Refuse => true
    case Finish(i, status, _) => i < |c.rows| && c.rows[i].status == Pending && status != Pending
    case Import(rows) =>
      Tree(space) &&
      forall k :: 0 <= k < |rows| ==>
        rows[k].id == c.next + k && rows[k].status != Pending && EncodePoint(space, rows[k].point).Some?
  }

  ghost function Next(space: seq<Param>, rules: C.Rules, c: Campaign, s: Step): Campaign
    requires Enabled(space, rules, c, s)
  {
    match s
    case Accept(a, t) =>
      AcceptedDecode(space, rules, c, t, a);
      Campaign(c.rows + NewRows(space, c.next, a.candidates), c.next + |a.candidates|, a.snapshot, a.mapping, a.signatures)
    case Rebuild(a, _, _, _) => c.(snapshot := a.snapshot, mapping := a.mapping, signatures := a.signatures)
    case Refuse => c
    case Finish(i, status, outcome) => c.(rows := c.rows[i := c.rows[i].(status := status, outcome := outcome)])
    case Import(rows) => c.(rows := c.rows + rows, next := c.next + |rows|)
  }

  function SpaceAfter(space: seq<Param>, s: Step): seq<Param> {
    if s.Rebuild? then s.toSpace else space
  }

  lemma AcceptedDecode(space: seq<Param>, rules: C.Rules, c: Campaign, t: Terms, a: Answer)
    requires Answers(space, rules, c, t, a)
    ensures Tree(space) && Decode(space, a.candidates)
  {
    TreeOf(space, c.rows, c.next);
    hide RowsOK, Tree, DecodePoint, Synced;
    forall i | 0 <= i < |a.candidates| ensures DecodePoint(space, a.candidates[i].params).Some? {
      assert GoodCandidate(Setup(space, rules, c.next, StoredBlocked(c.rows, t.allowRepeats)), a.candidates[i]);
    }
  }

  // ---- the invariant ---------------------------------------------------------------------------

  // The rows are well formed, and the client is in step with the mapping, whose
  // keys are rows.
  ghost predicate InStep(space: seq<Param>, c: Campaign) {
    && RowsOK(space, c.rows, c.next)
    && Synced(c.snapshot, c.mapping, c.signatures)
    && c.mapping.Keys <= RecordIds(RecordsOf(space, c.rows, c.next))
  }

  // A signed row is as it was signed or was pending then; its parameters are the
  // signed ones as the decoder compares them, which takes 1 and 1.0 for equal.
  predicate Continued(r: Record, signatures: map<nat, Signature>) {
    r.id in signatures ==>
      var signed := signatures[r.id];
      && SameEncoded(r.params, signed.params)
      && (signed == PendingSignature(signed.params) || signed == SignatureOf(r.(params := signed.params)))
  }

  // A signed row has the signed parameters.
  predicate Exact(r: Record, signatures: map<nat, Signature>) {
    r.id in signatures ==> signatures[r.id].params == r.params
  }

  lemma ExactIsAdmissible(r: Record, signatures: map<nat, Signature>)
    requires Continued(r, signatures)
    ensures Admissible(r, signatures) <==> Exact(r, signatures)
  {
    hide SameEncoded;
  }

  ghost predicate AllContinued(space: seq<Param>, rows: seq<Row>, next: nat, signatures: map<nat, Signature>)
    requires RowsOK(space, rows, next)
  {
    forall i :: 0 <= i < |rows| ==> Continued(RecordsOf(space, rows, next)[i], signatures)
  }

  ghost predicate AllExact(space: seq<Param>, rows: seq<Row>, next: nat, signatures: map<nat, Signature>)
    requires RowsOK(space, rows, next)
  {
    forall i :: 0 <= i < |rows| ==> Exact(RecordsOf(space, rows, next)[i], signatures)
  }

  // What every run keeps, and what it keeps if the client answers float columns
  // with floats.
  ghost predicate Steady(space: seq<Param>, c: Campaign) {
    InStep(space, c) && AllContinued(space, c.rows, c.next, c.signatures)
  }

  ghost predicate Good(space: seq<Param>, c: Campaign) {
    Steady(space, c) && AllExact(space, c.rows, c.next, c.signatures)
  }

  // The client answers a float column with a float: the candidate is the encoding
  // of its own point.
  predicate Canonical(space: seq<Param>, c: Candidate)
    requires Tree(space)
  {
    var raw := DecodePoint(space, c.params);
    raw.Some? && EncodePoint(space, raw.value) == Some(c.params)
  }

  ghost predicate CanonicalStep(space: seq<Param>, s: Step) {
    s.Accept? ==> Tree(space) && forall i :: 0 <= i < |s.answer.candidates| ==> Canonical(space, s.answer.candidates[i])
  }

  lemma FinishedRows(space: seq<Param>, c: Campaign, i: nat, status: Status, outcome: string)
    requires Steady(space, c) && i < |c.rows| && c.rows[i].status == Pending
    ensures var n := c.(rows := c.rows[i := c.rows[i].(status := status, outcome := outcome)]);
            Steady(space, n) && (Good(space, c) ==> Good(space, n))
  {
    var rows := c.rows[i := c.rows[i].(status := status, outcome := outcome)];
    assert RowsOK(space, rows, c.next) by { hide Tree, EncodePoint; }
    hide Tree, EncodePoint, Synced, RowsOK, SameEncoded;
    var now, before := RecordsOf(space, rows, c.next), RecordsOf(space, c.rows, c.next);
    forall k | 0 <= k < |rows|
      ensures now[k].id == before[k].id && Continued(now[k], c.signatures)
      ensures Exact(before[k], c.signatures) ==> Exact(now[k], c.signatures)
    {
      assert Continued(before[k], c.signatures);
    }
    SameIds(now, before);
  }

  lemma SameIds(a: seq<Record>, b: seq<Record>)
    requires |a| == |b| && forall k :: 0 <= k < |a| ==> a[k].id == b[k].id
    ensures RecordIds(a) == RecordIds(b)
  {
    forall r | r in a ensures r.id in RecordIds(b) {
      var k :| 0 <= k < |a| && a[k] == r;
      assert b[k] in b;
    }
    forall r | r in b ensures r.id in RecordIds(a) {
      var k :| 0 <= k < |b| && b[k] == r;
      assert a[k] in a;
    }
  }

  // Rows added with the next ids.
  predicate Follows(space: seq<Param>, next: nat, more: seq<Row>)
    requires Tree(space)
  {
    forall k :: 0 <= k < |more| ==> more[k].id == next + k && EncodePoint(space, more[k].point).Some?
  }

  lemma RowsFollow(space: seq<Param>, rows: seq<Row>, next: nat, more: seq<Row>)
    requires RowsOK(space, rows, next) && Tree(space) && Follows(space, next, more)
    ensures RowsOK(space, rows + more, next + |more|)
    ensures RecordsOf(space, rows + more, next + |more|)[..|rows|] == RecordsOf(space, rows, next)
  {
    hide Tree, EncodePoint;
    var all := rows + more;
    forall i | 0 <= i < |all| ensures EncodePoint(space, all[i].point).Some? && all[i].id < next + |more| {
      if i >= |rows| { assert all[i] == more[i - |rows|]; }
    }
    forall i, j | 0 <= i < j < |all| ensures all[i].id != all[j].id {
      if j >= |rows| {
        assert all[j] == more[j - |rows|];
        if i >= |rows| { assert all[i] == more[i - |rows|]; }
      }
    }
  }

  lemma ImportedRows(space: seq<Param>, c: Campaign, rows: seq<Row>)
    requires Steady(space, c) && Tree(space) && Follows(space, c.next, rows)
    ensures var n := c.(rows := c.rows + rows, next := c.next + |rows|);
            Steady(space, n) && (Good(space, c) ==> Good(space, n))
  {
    hide *;
    SteadyIs(space, c);
    RowsFollow(space, c.rows, c.next, rows);
    UnsignedRows(space, c, rows);
    IdsGrow(RecordsOf(space, c.rows + rows, c.next + |rows|), RecordsOf(space, c.rows, c.next));
    IsSteady(space, c.(rows := c.rows + rows, next := c.next + |rows|));
    GoodIsExact(space, c);
    GoodIsExact(space, c.(rows := c.rows + rows, next := c.next + |rows|));
  }

  lemma SteadyIs(space: seq<Param>, c: Campaign)
    requires Steady(space, c)
    ensures RowsOK(space, c.rows, c.next) && Synced(c.snapshot, c.mapping, c.signatures)
    ensures c.mapping.Keys <= RecordIds(RecordsOf(space, c.rows, c.next)) && AllContinued(space, c.rows, c.next, c.signatures)
    ensures |RecordsOf(space, c.rows, c.next)| == |c.rows|
  {
  }

  lemma IsSteady(space: seq<Param>, c: Campaign)
    requires RowsOK(space, c.rows, c.next) && Synced(c.snapshot, c.mapping, c.signatures)
    requires c.mapping.Keys <= RecordIds(RecordsOf(space, c.rows, c.next)) && AllContinued(space, c.rows, c.next, c.signatures)
    ensures Steady(space, c)
  {
  }

  lemma GoodIsExact(space: seq<Param>, c: Campaign)
    requires RowsOK(space, c.rows, c.next)
    ensures Good(space, c) <==> Steady(space, c) && AllExact(space, c.rows, c.next, c.signatures)
  {
  }

  lemma SignedBelow(space: seq<Param>, c: Campaign)
    requires Steady(space, c)
    ensures forall id :: id in c.signatures ==> id < c.next
  {
    RecordIdsAre(space, c.rows, c.next);
    SyncedKeys(c.snapshot, c.mapping, c.signatures);
    hide RowsOK, Synced, DistinctIds, RecordIds, AllContinued;
    forall id | id in c.signatures ensures id < c.next {
      assert id in c.mapping.Keys;
    }
  }

  lemma UnsignedRows(space: seq<Param>, c: Campaign, rows: seq<Row>)
    requires Steady(space, c) && Tree(space) && Follows(space, c.next, rows)
    requires RowsOK(space, c.rows + rows, c.next + |rows|) && RowsOK(space, c.rows, c.next)
    requires RecordsOf(space, c.rows + rows, c.next + |rows|)[..|c.rows|] == RecordsOf(space, c.rows, c.next)
    ensures AllContinued(space, c.rows + rows, c.next + |rows|, c.signatures)
    ensures AllExact(space, c.rows, c.next, c.signatures) ==> AllExact(space, c.rows + rows, c.next + |rows|, c.signatures)
  {
    SignedBelow(space, c);
    hide *;
    var now, before := RecordsOf(space, c.rows + rows, c.next + |rows|), RecordsOf(space, c.rows, c.next);
    RecordSizes(space, c, rows);
    forall k | |c.rows| <= k < |now| ensures now[k].id !in c.signatures { UnsignedRow(space, c, rows, k); }
    forall k | 0 <= k < |c.rows| ensures now[k] == before[k] { assert now[k] == now[..|c.rows|][k]; }
    BothSides(space, c, rows);
  }

  lemma RecordSizes(space: seq<Param>, c: Campaign, rows: seq<Row>)
    requires RowsOK(space, c.rows + rows, c.next + |rows|) && RowsOK(space, c.rows, c.next)
    ensures |RecordsOf(space, c.rows + rows, c.next + |rows|)| == |c.rows| + |rows|
    ensures |RecordsOf(space, c.rows, c.next)| == |c.rows|
  {
    hide RowsOK, EncodePoint;
  }

  lemma UnsignedRow(space: seq<Param>, c: Campaign, rows: seq<Row>, k: nat)
    requires Tree(space) && Follows(space, c.next, rows) && RowsOK(space, c.rows + rows, c.next + |rows|)
    requires |c.rows| <= k < |c.rows| + |rows| && forall id :: id in c.signatures ==> id < c.next
    ensures k < |RecordsOf(space, c.rows + rows, c.next + |rows|)|
    ensures RecordsOf(space, c.rows + rows, c.next + |rows|)[k].id !in c.signatures
  {
    assert (c.rows + rows)[k] == rows[k - |c.rows|];
    hide Tree, RowsOK, EncodePoint;
  }

  lemma BothSides(space: seq<Param>, c: Campaign, rows: seq<Row>)
    requires Steady(space, c) && RowsOK(space, c.rows + rows, c.next + |rows|) && RowsOK(space, c.rows, c.next)
    requires var now, before := RecordsOf(space, c.rows + rows, c.next + |rows|), RecordsOf(space, c.rows, c.next);
             && |before| == |c.rows| && |now| == |c.rows| + |rows|
             && (forall k :: 0 <= k < |c.rows| ==> now[k] == before[k])
             && (forall k :: |c.rows| <= k < |now| ==> now[k].id !in c.signatures)
    ensures AllContinued(space, c.rows + rows, c.next + |rows|, c.signatures)
    ensures AllExact(space, c.rows, c.next, c.signatures) ==> AllExact(space, c.rows + rows, c.next + |rows|, c.signatures)
  {
    hide RowsOK, InStep, SameEncoded, SignatureOf, PendingSignature, EncodePoint;
    var now, before := RecordsOf(space, c.rows + rows, c.next + |rows|), RecordsOf(space, c.rows, c.next);
    assert AllContinued(space, c.rows, c.next, c.signatures);
    hide RecordsOf;
    forall k | 0 <= k < |now|
      ensures Continued(now[k], c.signatures)
      ensures AllExact(space, c.rows, c.next, c.signatures) ==> Exact(now[k], c.signatures)
    {
      if k < |c.rows| { assert Continued(before[k], c.signatures) && now[k] == before[k]; }
    }
  }

  lemma IdsGrow(now: seq<Record>, before: seq<Record>)
    requires |before| <= |now| && now[..|before|] == before
    ensures RecordIds(before) <= RecordIds(now)
  {
    forall r | r in before ensures r.id in RecordIds(now) { assert r in now[..|before|]; }
  }

  // ---- a committed batch -------------------------------------------------------------------------

  lemma NewRowsFollow(space: seq<Param>, next: nat, cands: seq<Candidate>)
    requires Tree(space) && Decode(space, cands)
    ensures Follows(space, next, NewRows(space, next, cands))
  {
    hide Tree, EncodePoint, DecodePoint;
    forall i | 0 <= i < |cands| ensures EncodePoint(space, DecodePoint(space, cands[i].params).value).Some? {
      EncodeUndoesDecode(space, cands[i].params);
    }
  }

  // The signature a committed candidate has against the one its row asks for.
  lemma CandidateRow(space: seq<Param>, next: nat, cands: seq<Candidate>, signatures: map<nat, Signature>, row: Row, i: nat)
    requires Tree(space) && i < |cands| && DecodePoint(space, cands[i].params).Some?
    requires row == Row(next + i, DecodePoint(space, cands[i].params).value, Pending, "")
    requires SignedAt(signatures, next + i, cands[i]) && EncodePoint(space, row.point).Some?
    ensures NewlySigned(space, Record(row.id, EncodePoint(space, row.point).value, Pending, ""), signatures, cands[i])
  {
    hide Tree, EncodePoint, Decodable, ReadColumns, SameEncoded;
  }

  // The row of a candidate is signed with the candidate's parameters, which are its
  // own exactly if the candidate is canonical.
  ghost predicate NewlySigned(space: seq<Param>, r: Record, signatures: map<nat, Signature>, c: Candidate)
    requires Tree(space)
  {
    && r.status == Pending && r.id in signatures && signatures[r.id] == PendingSignature(c.params)
    && SameEncoded(r.params, c.params) && (r.params == c.params <==> Canonical(space, c))
  }

  // The rows after a batch, one by one.
  ghost predicate RowSigned(space: seq<Param>, c: Campaign, a: Answer, r: Record, k: nat)
    requires Tree(space)
  {
    && (k < |c.rows| ==> SignedRow(r, a.signatures))
    && (k >= |c.rows| ==> k - |c.rows| < |a.candidates| && NewlySigned(space, r, a.signatures, a.candidates[k - |c.rows|]))
  }

  ghost predicate SignedAfter(space: seq<Param>, n: Campaign, c: Campaign, a: Answer, k: nat) {
    && Tree(space) && RowsOK(space, n.rows, n.next) && k < |n.rows|
    && RowSigned(space, c, a, RecordsOf(space, n.rows, n.next)[k], k)
  }

  lemma AcceptedRow(space: seq<Param>, rules: C.Rules, c: Campaign, t: Terms, a: Answer, k: nat)
    requires Answers(space, rules, c, t, a) && Enabled(space, rules, c, Accept(a, t))
    requires k < |Next(space, rules, c, Accept(a, t)).rows|
    ensures SignedAfter(space, Next(space, rules, c, Accept(a, t)), c, a, k)
  {
    hide *;
    var more := BatchRows(space, rules, c, t, a);
    var n := Next(space, rules, c, Accept(a, t));
    if k < |c.rows| {
      EarlierRow(space, n, c, a, more, k);
    } else {
      LaterRow(space, n, c, a, more, k - |c.rows|);
    }
  }

  lemma BatchRows(space: seq<Param>, rules: C.Rules, c: Campaign, t: Terms, a: Answer) returns (more: seq<Row>)
    requires Answers(space, rules, c, t, a) && Enabled(space, rules, c, Accept(a, t))
    ensures Tree(space) && Decode(space, a.candidates) && more == NewRows(space, c.next, a.candidates)
    ensures RowsOK(space, c.rows, c.next) && RowsOK(space, c.rows + more, c.next + |more|)
    ensures RecordsOf(space, c.rows + more, c.next + |more|)[..|c.rows|] == RecordsOf(space, c.rows, c.next)
    ensures ExpectedSignatures(RecordsOf(space, c.rows, c.next), c.next, a.candidates, a.signatures)
    ensures var n := Next(space, rules, c, Accept(a, t));
            n.rows == c.rows + more && n.next == c.next + |more| && n.signatures == a.signatures
            && n.mapping == a.mapping && n.snapshot == a.snapshot && |more| == |a.candidates|
  {
    AcceptedDecode(space, rules, c, t, a);
    more := NewRows(space, c.next, a.candidates);
    hide Decode, DecodePoint, EncodePoint, Tree, RowsOK, Synced, GoodBatch, ExpectedSignatures, RecordIds;
    NewRowsFollow(space, c.next, a.candidates);
    RowsFollow(space, c.rows, c.next, more);
  }

  lemma EarlierRow(space: seq<Param>, n: Campaign, c: Campaign, a: Answer, more: seq<Row>, k: nat)
    requires Tree(space) && RowsOK(space, c.rows, c.next) && RowsOK(space, n.rows, n.next)
    requires n.rows == c.rows + more && n.next == c.next + |more|
    requires RecordsOf(space, n.rows, n.next)[..|c.rows|] == RecordsOf(space, c.rows, c.next)
    requires ExpectedSignatures(RecordsOf(space, c.rows, c.next), c.next, a.candidates, a.signatures)
    requires k < |c.rows|
    ensures SignedAfter(space, n, c, a, k)
  {
    var now, before := RecordsOf(space, n.rows, n.next), RecordsOf(space, c.rows, c.next);
    assert now[k] == now[..|c.rows|][k] == before[k];
    assert before[k] in before;
    hide Tree, EncodePoint, RowsOK, Admissible, Canonical, SignatureOf, RecordIds, SignedAt, RecordsOf;
  }

  lemma LaterRow(space: seq<Param>, n: Campaign, c: Campaign, a: Answer, more: seq<Row>, i: nat)
    requires Tree(space) && Decode(space, a.candidates) && more == NewRows(space, c.next, a.candidates)
    requires RowsOK(space, c.rows, c.next) && RowsOK(space, n.rows, n.next)
    requires n.rows == c.rows + more && n.next == c.next + |more|
    requires ExpectedSignatures(RecordsOf(space, c.rows, c.next), c.next, a.candidates, a.signatures)
    requires i < |more|
    ensures SignedAfter(space, n, c, a, |c.rows| + i)
  {
    hide *;
    NewRowIs(space, c, a, more, i);
    assert n.rows[|c.rows| + i] == more[i];
    LaterRowIs(space, n.rows, n.next, |c.rows| + i);
    CandidateRow(space, c.next, a.candidates, a.signatures, more[i], i);
    RowIsSigned(space, n, c, a, more[i], i);
  }

  lemma NewRowIs(space: seq<Param>, c: Campaign, a: Answer, more: seq<Row>, i: nat)
    requires Tree(space) && Decode(space, a.candidates) && more == NewRows(space, c.next, a.candidates)
    requires RowsOK(space, c.rows, c.next) && i < |more|
    requires ExpectedSignatures(RecordsOf(space, c.rows, c.next), c.next, a.candidates, a.signatures)
    ensures i < |a.candidates| && SignedAt(a.signatures, c.next + i, a.candidates[i]) && c.next + i in a.signatures
    ensures DecodePoint(space, a.candidates[i].params).Some?
    ensures more[i] == Row(c.next + i, DecodePoint(space, a.candidates[i].params).value, Pending, "")
  {
    hide Tree, DecodePoint, RowsOK, RecordsOf, RecordIds;
    assert SignedAt(a.signatures, c.next + i, a.candidates[i]);
  }

  lemma RowIsSigned(space: seq<Param>, n: Campaign, c: Campaign, a: Answer, row: Row, i: nat)
    requires Tree(space) && RowsOK(space, n.rows, n.next) && |c.rows| + i < |n.rows| && i < |a.candidates|
    requires EncodePoint(space, row.point).Some?
    requires RecordsOf(space, n.rows, n.next)[|c.rows| + i] == Record(row.id, EncodePoint(space, row.point).value, Pending, "")
    requires NewlySigned(space, Record(row.id, EncodePoint(space, row.point).value, Pending, ""), a.signatures, a.candidates[i])
    ensures SignedAfter(space, n, c, a, |c.rows| + i)
  {
    hide Tree, EncodePoint, RowsOK, NewlySigned, RecordsOf;
  }

  lemma LaterRowIs(space: seq<Param>, rows: seq<Row>, next: nat, k: nat)
    requires RowsOK(space, rows, next) && k < |rows|
    ensures Tree(space) && EncodePoint(space, rows[k].point).Some?
    ensures RecordsOf(space, rows, next)[k]
         == Record(rows[k].id, EncodePoint(space, rows[k].point).value, rows[k].status, rows[k].outcome)
  {
    hide Tree, EncodePoint;
  }

  // ---- after a request ----------------------------------------------------------------------------

  // Every row is signed as it is now.
  ghost predicate Signed(space: seq<Param>, c: Campaign) {
    && RowsOK(space, c.rows, c.next)
    && Synced(c.snapshot, c.mapping, c.signatures)
    && c.mapping.Keys == RecordIds(RecordsOf(space, c.rows, c.next))
    && forall k :: 0 <= k < |c.rows| ==> SignedRow(RecordsOf(space, c.rows, c.next)[k], c.signatures)
  }

  predicate SignedRow(r: Record, signatures: map<nat, Signature>) {
    r.id in signatures && signatures[r.id] == SignatureOf(r)
  }

  // The client trial of a row has its parameters and the phase its status asks for.
  predicate InPhase(c: Campaign, r: Record) {
    && r.id in c.mapping && c.mapping[r.id] in c.snapshot
    && Reached(c.snapshot[c.mapping[r.id]], r)
  }

  // The client trial of a row is in the phase its status asks for, with its
  // parameters as the decoder compares them.
  predicate Tracked(c: Campaign, r: Record) {
    && r.id in c.mapping && c.mapping[r.id] in c.snapshot
    && var trial := c.snapshot[c.mapping[r.id]];
    && Reached(trial.(params := r.params), r) && SameEncoded(r.params, trial.params)
  }

  lemma SameCodes(e: Encoded)
    ensures SameEncoded(e, e)
  {
  }

  lemma SignedIsGood(space: seq<Param>, c: Campaign)
    requires Signed(space, c)
    ensures Good(space, c) && Steady(space, c)
    ensures forall k :: 0 <= k < |c.rows| ==> InPhase(c, RecordsOf(space, c.rows, c.next)[k])
  {
    hide *;
    SignedIs(space, c);
    forall k | 0 <= k < |c.rows|
      ensures InPhase(c, RecordsOf(space, c.rows, c.next)[k])
      ensures Continued(RecordsOf(space, c.rows, c.next)[k], c.signatures)
      ensures Exact(RecordsOf(space, c.rows, c.next)[k], c.signatures)
    {
      SignedRowIs(c, RecordsOf(space, c.rows, c.next)[k]);
    }
    AllContinuedIs(space, c);
    AllExactIs(space, c);
    IsSteady(space, c);
    GoodIsExact(space, c);
  }

  lemma SignedIs(space: seq<Param>, c: Campaign)
    requires Signed(space, c)
    ensures RowsOK(space, c.rows, c.next) && |RecordsOf(space, c.rows, c.next)| == |c.rows|
    ensures Synced(c.snapshot, c.mapping, c.signatures) && Linked(c.snapshot, c.mapping, c.signatures)
    ensures c.mapping.Keys <= RecordIds(RecordsOf(space, c.rows, c.next))
    ensures forall k :: 0 <= k < |c.rows| ==> SignedRow(RecordsOf(space, c.rows, c.next)[k], c.signatures)
  {
    hide RowsOK, Linked, RecordIds, SignedRow, EncodePoint;
  }

  lemma AllExactIs(space: seq<Param>, c: Campaign)
    requires RowsOK(space, c.rows, c.next)
    requires forall k :: 0 <= k < |c.rows| ==> Exact(RecordsOf(space, c.rows, c.next)[k], c.signatures)
    ensures AllExact(space, c.rows, c.next, c.signatures)
  {
    hide Exact, RowsOK;
  }

  lemma SignedRowIs(c: Campaign, r: Record)
    requires SignedRow(r, c.signatures) && Linked(c.snapshot, c.mapping, c.signatures)
    ensures InPhase(c, r) && Continued(r, c.signatures) && Exact(r, c.signatures)
  {
    SameCodes(r.params);
    RowReached(r, c.snapshot, c.mapping, c.signatures);
    hide SameEncoded, PhaseOf, Reached, Linked;
  }

  lemma PhaseIsTracked(c: Campaign, r: Record)
    requires InPhase(c, r)
    ensures Tracked(c, r)
  {
    SameCodes(r.params);
  }

  // An accepted batch keeps the invariant, whatever the client answered, and leaves
  // every row tracked.
  lemma AcceptKeepsSteady(space: seq<Param>, rules: C.Rules, c: Campaign, t: Terms, a: Answer)
    requires Answers(space, rules, c, t, a) && Enabled(space, rules, c, Accept(a, t))
    ensures var n := Next(space, rules, c, Accept(a, t));
            && Steady(space, n) && n.mapping.Keys == RecordIds(RecordsOf(space, n.rows, n.next))
            && forall k :: 0 <= k < |n.rows| ==> Tracked(n, RecordsOf(space, n.rows, n.next)[k])
  {
    hide *;
    var n := Next(space, rules, c, Accept(a, t));
    NextRows(space, rules, c, t, a);
    AcceptedKeys(space, rules, c, t, a);
    forall k | 0 <= k < |n.rows|
      ensures Continued(RecordsOf(space, n.rows, n.next)[k], n.signatures) && Tracked(n, RecordsOf(space, n.rows, n.next)[k])
    {
      AcceptedRow(space, rules, c, t, a, k);
      AcceptedTracked(space, n, c, a, k);
    }
    AllContinuedIs(space, n);
    IsSteady(space, n);
  }

  lemma AllContinuedIs(space: seq<Param>, c: Campaign)
    requires RowsOK(space, c.rows, c.next)
    requires forall k :: 0 <= k < |c.rows| ==> Continued(RecordsOf(space, c.rows, c.next)[k], c.signatures)
    ensures AllContinued(space, c.rows, c.next, c.signatures)
  {
    hide Continued, RowsOK;
  }

  lemma AcceptedTracked(space: seq<Param>, n: Campaign, c: Campaign, a: Answer, k: nat)
    requires SignedAfter(space, n, c, a, k) && RowsOK(space, n.rows, n.next) && k < |n.rows|
    requires n.signatures == a.signatures && Synced(n.snapshot, n.mapping, n.signatures)
    ensures Continued(RecordsOf(space, n.rows, n.next)[k], n.signatures) && Tracked(n, RecordsOf(space, n.rows, n.next)[k])
  {
    var r := RecordsOf(space, n.rows, n.next)[k];
    SignedAfterIs(space, n, c, a, k);
    assert Linked(n.snapshot, n.mapping, n.signatures);
    hide *;
    if k < |c.rows| {
      SignedRowIs(n, r);
      PhaseIsTracked(n, r);
    } else {
      NewlyTracked(space, n, r, a.candidates[k - |c.rows|]);
    }
  }

  lemma SignedAfterIs(space: seq<Param>, n: Campaign, c: Campaign, a: Answer, k: nat)
    requires SignedAfter(space, n, c, a, k) && RowsOK(space, n.rows, n.next)
    ensures var r := RecordsOf(space, n.rows, n.next)[k];
            && Tree(space) && (k < |c.rows| ==> SignedRow(r, a.signatures))
            && (k >= |c.rows| ==> k - |c.rows| < |a.candidates| && NewlySigned(space, r, a.signatures, a.candidates[k - |c.rows|]))
  {
    hide Tree, RowsOK, SignedRow, NewlySigned, EncodePoint;
  }

  lemma NewlyTracked(space: seq<Param>, n: Campaign, r: Record, c: Candidate)
    requires Tree(space) && NewlySigned(space, r, n.signatures, c) && Linked(n.snapshot, n.mapping, n.signatures)
    ensures Continued(r, n.signatures) && Tracked(n, r)
  {
    hide Tree, SameEncoded, Canonical;
  }

  // Accepted batches sign all earlier rows, and each new one exactly if its
  // candidate is canonical.
  lemma AcceptSigns(space: seq<Param>, rules: C.Rules, c: Campaign, t: Terms, a: Answer)
    requires Answers(space, rules, c, t, a) && Enabled(space, rules, c, Accept(a, t))
    requires CanonicalStep(space, Accept(a, t))
    ensures Signed(space, Next(space, rules, c, Accept(a, t)))
  {
    var n := Next(space, rules, c, Accept(a, t));
    AcceptedKeys(space, rules, c, t, a);
    hide *;
    forall k | 0 <= k < |n.rows| ensures SignedRow(RecordsOf(space, n.rows, n.next)[k], n.signatures) {
      AcceptedSigned(space, rules, c, t, a, k);
    }
    IsSigned(space, n);
  }

  lemma IsSigned(space: seq<Param>, c: Campaign)
    requires RowsOK(space, c.rows, c.next) && Synced(c.snapshot, c.mapping, c.signatures)
    requires c.mapping.Keys == RecordIds(RecordsOf(space, c.rows, c.next))
    requires forall k :: 0 <= k < |c.rows| ==> SignedRow(RecordsOf(space, c.rows, c.next)[k], c.signatures)
    ensures Signed(space, c)
  {
  }

  lemma AcceptedSigned(space: seq<Param>, rules: C.Rules, c: Campaign, t: Terms, a: Answer, k: nat)
    requires Answers(space, rules, c, t, a) && Enabled(space, rules, c, Accept(a, t))
    requires CanonicalStep(space, Accept(a, t)) && k < |Next(space, rules, c, Accept(a, t)).rows|
    ensures var n := Next(space, rules, c, Accept(a, t));
            RowsOK(space, n.rows, n.next) && SignedRow(RecordsOf(space, n.rows, n.next)[k], n.signatures)
  {
    hide *;
    AcceptedRow(space, rules, c, t, a, k);
    NextRows(space, rules, c, t, a);
    CanonicalRow(space, Next(space, rules, c, Accept(a, t)), c, t, a, k);
  }

  lemma CanonicalRow(space: seq<Param>, n: Campaign, c: Campaign, t: Terms, a: Answer, k: nat)
    requires SignedAfter(space, n, c, a, k) && n.signatures == a.signatures && CanonicalStep(space, Accept(a, t))
    ensures RowsOK(space, n.rows, n.next) && SignedRow(RecordsOf(space, n.rows, n.next)[k], n.signatures)
  {
    hide Tree, Canonical, RowsOK, SameEncoded, EncodePoint;
    if k >= |c.rows| { assert Canonical(space, a.candidates[k - |c.rows|]); }
  }

  lemma NextRows(space: seq<Param>, rules: C.Rules, c: Campaign, t: Terms, a: Answer)
    requires Answers(space, rules, c, t, a) && Enabled(space, rules, c, Accept(a, t))
    ensures |Next(space, rules, c, Accept(a, t)).rows| == |c.rows| + |a.candidates|
    ensures Next(space, rules, c, Accept(a, t)).signatures == a.signatures
  {
    hide Tree, DecodePoint, Accepted, Synced;
  }

  lemma AcceptedKeys(space: seq<Param>, rules: C.Rules, c: Campaign, t: Terms, a: Answer)
    requires Answers(space, rules, c, t, a) && Enabled(space, rules, c, Accept(a, t))
    ensures var n := Next(space, rules, c, Accept(a, t));
            && RowsOK(space, n.rows, n.next) && Synced(n.snapshot, n.mapping, n.signatures)
            && n.mapping.Keys == RecordIds(RecordsOf(space, n.rows, n.next))
  {
    var more := BatchRows(space, rules, c, t, a);
    var n := Next(space, rules, c, Accept(a, t));
    SyncedKeys(a.snapshot, a.mapping, a.signatures);
    hide Tree, EncodePoint, DecodePoint, Synced, RowsOK, GoodBatch, Admissible, SignatureOf, Accepted, SignedAt, Decode, Next, Enabled;
    KeysOfBatch(RecordsOf(space, n.rows, n.next), RecordsOf(space, c.rows, c.next), c.next, |a.candidates|);
  }

  lemma KeysOfBatch(now: seq<Record>, before: seq<Record>, next: nat, count: nat)
    requires |now| == |before| + count && now[..|before|] == before
    requires forall k :: |before| <= k < |now| ==> now[k].id == next + (k - |before|)
    ensures forall id :: id in RecordIds(now) <==> id in RecordIds(before) || next <= id < next + count
  {
    IdsGrow(now, before);
    forall id | id in RecordIds(now) ensures id in RecordIds(before) || next <= id < next + count {
      var k :| 0 <= k < |now| && now[k].id == id;
      if k < |before| { assert now[..|before|][k] in before; }
    }
    forall id | next <= id < next + count ensures id in RecordIds(now) {
      assert now[|before| + (id - next)] in now;
    }
  }

  // A rebuild signs every row, whatever was committed before.
  lemma RebuildSigns(space: seq<Param>, rules: C.Rules, c: Campaign, s: Step)
    requires s.Rebuild? && Enabled(space, rules, c, s)
    ensures Signed(s.toSpace, Next(space, rules, c, s))
  {
    var a, n := s.anew, Next(space, rules, c, s);
    var records := RecordsOf(s.toSpace, c.rows, c.next);
    assert a.candidates == [];
    assert ExpectedSignatures(records, c.next, [], a.signatures);
    SyncedKeys(a.snapshot, a.mapping, a.signatures);
    hide RowsOK, Synced, RecordIds, GoodBatch, SignatureOf, EncodePoint, Tree, DecodePoint;
    assert n.mapping.Keys == RecordIds(records);
    forall k | 0 <= k < |n.rows| ensures SignedRow(records[k], n.signatures) {
      assert records[k] in records;
    }
  }

  // ---- runs -----------------------------------------------------------------------------------------

  lemma NextIs(space: seq<Param>, rules: C.Rules, c: Campaign, s: Step)
    requires Enabled(space, rules, c, s)
    ensures match s
            case Refuse => Next(space, rules, c, s) == c
            case Finish(i, status, outcome) =>
              && i < |c.rows| && c.rows[i].status == Pending
              && Next(space, rules, c, s) == c.(rows := c.rows[i := c.rows[i].(status := status, outcome := outcome)])
            case Import(rows) =>
              && Tree(space) && Follows(space, c.next, rows)
              && Next(space, rules, c, s) == c.(rows := c.rows + rows, next := c.next + |rows|)
            case _ => true
  {
    hide Tree, EncodePoint, Answers;
  }

  lemma QuietStep(space: seq<Param>, rules: C.Rules, c: Campaign, s: Step)
    requires Steady(space, c) && Enabled(space, rules, c, s) && !s.Accept? && !s.Rebuild?
    ensures Steady(space, Next(space, rules, c, s))
    ensures Good(space, c) ==> Good(space, Next(space, rules, c, s))
  {
    hide *;
    NextIs(space, rules, c, s);
    match s
    case Finish(i, status, outcome) => FinishedRows(space, c, i, status, outcome);
    case Import(rows) => ImportedRows(space, c, rows);
    case Refuse =>
  }

  lemma StepKeeps(space: seq<Param>, rules: C.Rules, c: Campaign, s: Step)
    requires Steady(space, c) && Enabled(space, rules, c, s)
    ensures Steady(SpaceAfter(space, s), Next(space, rules, c, s))
    ensures Good(space, c) && CanonicalStep(space, s) ==> Good(SpaceAfter(space, s), Next(space, rules, c, s))
  {
    var toSpace := SpaceAfter(space, s);
    assert s.Rebuild? ==> toSpace == s.toSpace;
    assert !s.Rebuild? ==> toSpace == space;
    hide *;
    if s.Accept? {
      AcceptEnabled(space, rules, c, s.terms, s.answer);
      AcceptKeepsSteady(space, rules, c, s.terms, s.answer);
      if CanonicalStep(space, s) {
        AcceptSigns(space, rules, c, s.terms, s.answer);
        SignedIsGood(space, Next(space, rules, c, s));
      }
    } else if s.Rebuild? {
      RebuildSigns(space, rules, c, s);
      SignedIsGood(toSpace, Next(space, rules, c, s));
    } else {
      QuietStep(space, rules, c, s);
    }
  }

  lemma AcceptEnabled(space: seq<Param>, rules: C.Rules, c: Campaign, t: Terms, a: Answer)
    ensures Enabled(space, rules, c, Accept(a, t)) <==> Answers(space, rules, c, t, a)
  {
    hide Answers;
  }

  lemma GoodIsSteady(space: seq<Param>, c: Campaign)
    requires Good(space, c)
    ensures Steady(space, c)
  {
    hide Steady;
  }

  // A campaign under its configuration.
  datatype World = World(space: seq<Param>, rules: C.Rules, campaign: Campaign)

  ghost predicate CanStep(w: World, s: Step) {
    Enabled(w.space, w.rules, w.campaign, s)
  }

  ghost function StepTo(w: World, s: Step): World
    requires CanStep(w, s)
  {
    World(SpaceAfter(w.space, s), if s.Rebuild? then s.toRules else w.rules, Next(w.space, w.rules, w.campaign, s))
  }

  ghost predicate Runs(w: World, steps: seq<Step>)
    decreases |steps|
  {
    steps == [] || (CanStep(w, steps[0]) && Runs(StepTo(w, steps[0]), steps[1..]))
  }

  ghost function Run(w: World, steps: seq<Step>): World
    requires Runs(w, steps)
    decreases |steps|
  {
    if steps == [] then w else Run(StepTo(w, steps[0]), steps[1..])
  }

  // Every accepted batch of the run answers float columns with floats.
  ghost predicate FloatRun(w: World, steps: seq<Step>)
    requires Runs(w, steps)
    decreases |steps|
  {
    steps == [] || (CanonicalStep(w.space, steps[0]) && FloatRun(StepTo(w, steps[0]), steps[1..]))
  }

  // A campaign without rows or optimizer.
  function NewCampaign(next: nat): Campaign {
    Campaign([], next, map[], map[], map[])
  }

  predicate IsNew(w: World) {
    Tree(w.space) && w.campaign == NewCampaign(w.campaign.next)
  }

  lemma NewIsGood(space: seq<Param>, next: nat)
    requires Tree(space)
    ensures Good(space, NewCampaign(next)) && Steady(space, NewCampaign(next))
  {
  }

  lemma StepToKeeps(w: World, s: Step)
    requires CanStep(w, s) && Steady(w.space, w.campaign)
    ensures Steady(StepTo(w, s).space, StepTo(w, s).campaign)
    ensures Good(w.space, w.campaign) && CanonicalStep(w.space, s) ==> Good(StepTo(w, s).space, StepTo(w, s).campaign)
  {
    hide Steady, Good, Enabled, Next, CanonicalStep;
    StepKeeps(w.space, w.rules, w.campaign, s);
  }

  lemma {:induction false} RunKeeps(w: World, steps: seq<Step>)
    requires Steady(w.space, w.campaign) && Runs(w, steps)
    ensures Steady(Run(w, steps).space, Run(w, steps).campaign)
    ensures Good(w.space, w.campaign) && FloatRun(w, steps) ==> Good(Run(w, steps).space, Run(w, steps).campaign)
    decreases |steps|
  {
    hide Steady, Good, CanStep, StepTo, CanonicalStep;
    if steps != [] {
      StepToKeeps(w, steps[0]);
      RunKeeps(StepTo(w, steps[0]), steps[1..]);
    }
  }

  lemma RunFromNew(w: World, steps: seq<Step>)
    requires IsNew(w) && Runs(w, steps)
    ensures Steady(Run(w, steps).space, Run(w, steps).campaign)
    ensures FloatRun(w, steps) ==> Good(Run(w, steps).space, Run(w, steps).campaign)
  {
    NewIsGood(w.space, w.campaign.next);
    hide *;
    NewIs(w);
    RunKeeps(w, steps);
  }

  lemma NewIs(w: World)
    requires IsNew(w)
    ensures w.campaign == NewCampaign(w.campaign.next)
  {
  }

  // How the next request on a campaign can end.
  ghost predicate NextEnds(w: World, t: Terms, proposals: seq<Proposal>, error: Option<WorkerError>) {
    var c := w.campaign;
    && RowsOK(w.space, c.rows, c.next)
    && RequestEnds(w.space, w.rules, c.rows, c.next, c.mapping, c.signatures, t.count, t.budget, t.allowRepeats, proposals, error)
  }

  // Main result: in every run, whatever the client answers, the mapping is an
  // injection from rows into the client's trials, and these are in step with it. No
  // request reports a lost history, and one reports a changed trial exactly if some
  // row was signed with an integer where it has a float.
  lemma EveryRunStaysInStep(w: World, steps: seq<Step>, t: Terms, proposals: seq<Proposal>, error: Option<WorkerError>)
    requires IsNew(w) && Runs(w, steps)
    ensures var v, c := Run(w, steps), Run(w, steps).campaign;
            && RowsOK(v.space, c.rows, c.next) && Synced(c.snapshot, c.mapping, c.signatures) && Injective(c.mapping)
            && var records := RecordsOf(v.space, c.rows, c.next);
            && c.mapping.Keys <= RecordIds(records)
            && (NextEnds(v, t, proposals, error) ==>
                  && error != Some(HistoryLost)
                  && ((error.Some? && error.value.TerminalChanged?) <==> exists r :: r in records && !Exact(r, c.signatures)))
  {
    RunFromNew(w, steps);
    var v, c := Run(w, steps), Run(w, steps).campaign;
    hide Run, Runs, IsNew;
    assert Injective(c.mapping) by { assert Linked(c.snapshot, c.mapping, c.signatures); }
    SteadyIs(v.space, c);
    hide *;
    if NextEnds(v, t, proposals, error) { SteadyEnds(v, t, proposals, error); }
  }

  lemma SteadyEnds(w: World, t: Terms, proposals: seq<Proposal>, error: Option<WorkerError>)
    requires Steady(w.space, w.campaign) && NextEnds(w, t, proposals, error)
    ensures error != Some(HistoryLost)
    ensures (error.Some? && error.value.TerminalChanged?) <==>
            exists r :: r in RecordsOf(w.space, w.campaign.rows, w.campaign.next) && !Exact(r, w.campaign.signatures)
  {
    var c := w.campaign;
    SteadyIs(w.space, c);
    var records := RecordsOf(w.space, c.rows, c.next);
    hide RowsOK, Synced, Admissible, RecordIds, EncodePoint, Tree, Exact, Continued, GenerationEnds, Ready, SetupFor, Steady;
    forall r | r in records ensures Admissible(r, c.signatures) <==> Exact(r, c.signatures) {
      var k :| 0 <= k < |records| && records[k] == r;
      ExactIsAdmissible(records[k], c.signatures);
    }
  }

  // Main result: if the client answers float columns with floats, no request of a
  // run is refused over the history.
  lemma EveryFloatRunStaysProjectable(w: World, steps: seq<Step>, t: Terms, proposals: seq<Proposal>,
                                      error: Option<WorkerError>)
    requires IsNew(w) && Runs(w, steps) && FloatRun(w, steps) && NextEnds(Run(w, steps), t, proposals, error)
    ensures error != Some(HistoryLost) && (error.Some? ==> !error.value.TerminalChanged?)
  {
    RunFromNew(w, steps);
    GoodIsSteady(Run(w, steps).space, Run(w, steps).campaign);
    SteadyEnds(Run(w, steps), t, proposals, error);
    var c := Run(w, steps).campaign;
    hide Run, Runs, FloatRun, IsNew, RowsOK, Steady, Exact, NextEnds, EncodePoint;
    var records := RecordsOf(Run(w, steps).space, c.rows, c.next);
    forall r | r in records ensures Exact(r, c.signatures) {
      var k :| 0 <= k < |records| && records[k] == r;
    }
  }

  // Main result: right after an accepted request of a run, whatever the client
  // answered, the rows are exactly the keys of the mapping, and the client trial of
  // each is in the phase of its row.
  lemma EveryRequestLeavesPhase(w: World, steps: seq<Step>, s: Step)
    requires IsNew(w) && Runs(w, steps) && CanStep(Run(w, steps), s) && (s.Accept? || s.Rebuild?)
    ensures var v := StepTo(Run(w, steps), s);
            var n := v.campaign;
            && RowsOK(v.space, n.rows, n.next)
            && var records := RecordsOf(v.space, n.rows, n.next);
            && n.mapping.Keys == RecordIds(records)
            && (forall k :: 0 <= k < |records| ==> Tracked(n, records[k]))
            && (CanonicalStep(v.space, s) ==> forall k :: 0 <= k < |records| ==> InPhase(n, records[k]))
  {
    RunFromNew(w, steps);
    var u := Run(w, steps);
    hide *;
    RequestTracks(u, s);
  }

  lemma RequestTracks(u: World, s: Step)
    requires CanStep(u, s) && (s.Accept? || s.Rebuild?)
    ensures var v := StepTo(u, s);
            var n := v.campaign;
            && RowsOK(v.space, n.rows, n.next)
            && var records := RecordsOf(v.space, n.rows, n.next);
            && n.mapping.Keys == RecordIds(records)
            && (forall k :: 0 <= k < |records| ==> Tracked(n, records[k]))
            && (CanonicalStep(v.space, s) ==> forall k :: 0 <= k < |records| ==> InPhase(n, records[k]))
  {
    var n := Next(u.space, u.rules, u.campaign, s);
    if s.Accept? {
      AcceptEnabled(u.space, u.rules, u.campaign, s.terms, s.answer);
      AcceptTracks(u.space, u.rules, u.campaign, s.terms, s.answer);
    } else {
      RebuildSigns(u.space, u.rules, u.campaign, s);
      SignedTracks(s.toSpace, n);
    }
    hide Next, Enabled, RowsOK, RecordIds, Tracked, InPhase, CanonicalStep;
  }

  lemma SignedTracks(space: seq<Param>, n: Campaign)
    requires Signed(space, n)
    ensures RowsOK(space, n.rows, n.next) && n.mapping.Keys == RecordIds(RecordsOf(space, n.rows, n.next))
    ensures forall k :: 0 <= k < |RecordsOf(space, n.rows, n.next)| ==>
              Tracked(n, RecordsOf(space, n.rows, n.next)[k]) && InPhase(n, RecordsOf(space, n.rows, n.next)[k])
  {
    SignedIsGood(space, n);
    hide RowsOK, Tracked, InPhase, RecordIds, Good, SignedRow, Synced;
    forall k | 0 <= k < |RecordsOf(space, n.rows, n.next)| ensures Tracked(n, RecordsOf(space, n.rows, n.next)[k]) {
      PhaseIsTracked(n, RecordsOf(space, n.rows, n.next)[k]);
    }
  }

  lemma AcceptTracks(space: seq<Param>, rules: C.Rules, c: Campaign, t: Terms, a: Answer)
    requires Answers(space, rules, c, t, a) && Enabled(space, rules, c, Accept(a, t))
    ensures var n := Next(space, rules, c, Accept(a, t));
            && RowsOK(space, n.rows, n.next) && n.mapping.Keys == RecordIds(RecordsOf(space, n.rows, n.next))
            && (forall k :: 0 <= k < |RecordsOf(space, n.rows, n.next)| ==> Tracked(n, RecordsOf(space, n.rows, n.next)[k]))
            && (CanonicalStep(space, Accept(a, t)) ==>
                  forall k :: 0 <= k < |RecordsOf(space, n.rows, n.next)| ==> InPhase(n, RecordsOf(space, n.rows, n.next)[k]))
  {
    hide *;
    var n := Next(space, rules, c, Accept(a, t));
    AcceptKeepsSteady(space, rules, c, t, a);
    SteadyIs(space, n);
    if CanonicalStep(space, Accept(a, t)) {
      AcceptSigns(space, rules, c, t, a);
      SignedTracks(space, n);
    }
  }

  // ---- the worker's requests are such steps -----------------------------------------------------------

  // A request on a campaign, from the client its snapshot restores: if it succeeds,
  // its answer is a step of a run.
  method RequestStep(client: Client, w: World, t: Terms) returns (answer: Answer, error: Option<WorkerError>)
    requires Steady(w.space, w.campaign) && client.trials == w.campaign.snapshot && client.FreshIndices()
    modifies client
    ensures error.None? ==> CanStep(w, Accept(answer, t))
    ensures old(client.given) <= client.given && NextEnds(w, t, client.given[|old(client.given)|..], error)
  {
    SteadyIs(w.space, w.campaign);
    hide *;
    var c := w.campaign;
    answer, error := RunRequest(client, w.space, w.rules, c.rows, c.next, c.mapping, c.signatures,
                                t.count, t.budget, t.allowRepeats);
    NextEndsIs(w, t, client.given[|old(client.given)|..], error);
    if error.None? { CanAccept(w, t, answer); }
  }

  lemma NextEndsIs(w: World, t: Terms, proposals: seq<Proposal>, error: Option<WorkerError>)
    requires RowsOK(w.space, w.campaign.rows, w.campaign.next)
    requires RequestEnds(w.space, w.rules, w.campaign.rows, w.campaign.next, w.campaign.mapping, w.campaign.signatures,
                         t.count, t.budget, t.allowRepeats, proposals, error)
    ensures NextEnds(w, t, proposals, error)
  {
    hide RequestEnds, RowsOK;
  }

  lemma CanAccept(w: World, t: Terms, a: Answer)
    requires RowsOK(w.space, w.campaign.rows, w.campaign.next) && Synced(a.snapshot, a.mapping, a.signatures)
    requires MapExtends(a.mapping, w.campaign.mapping)
    requires Accepted(w.space, w.rules, w.campaign.rows, w.campaign.next, t.count, t.budget, t.allowRepeats, a)
    ensures CanStep(w, Accept(a, t))
  {
    hide RowsOK, Synced, MapExtends, Accepted;
  }

  // The same for a rebuild, from an empty client under the new configuration.
  method RebuildStep(client: Client, w: World, t: Terms, toSpace: seq<Param>, toRules: C.Rules)
    returns (answer: Answer, error: Option<WorkerError>)
    requires t.count == 0 && RowsOK(toSpace, w.campaign.rows, w.campaign.next)
    requires (toSpace == w.space && toRules == w.rules) || forall r :: r in w.campaign.rows ==> r.status != Pending
    requires client.trials == map[] && client.FreshIndices()
    modifies client
    ensures error.None? ==> CanStep(w, Rebuild(answer, t, toSpace, toRules))
  {
    var c := w.campaign;
    EmptyIsSynced();
    hide *;
    answer, error := RunRequest(client, toSpace, toRules, c.rows, c.next, map[], map[], t.count, t.budget, t.allowRepeats);
    if error.None? { CanRebuild(w, t, answer, toSpace, toRules); }
  }

  lemma EmptyIsSynced()
    ensures Synced(map[], map[], map[])
  {
  }

  lemma CanRebuild(w: World, t: Terms, a: Answer, toSpace: seq<Param>, toRules: C.Rules)
    requires t.count == 0 && RowsOK(toSpace, w.campaign.rows, w.campaign.next) && Synced(a.snapshot, a.mapping, a.signatures)
    requires (toSpace == w.space && toRules == w.rules) || forall r :: r in w.campaign.rows ==> r.status != Pending
    requires Accepted(toSpace, toRules, w.campaign.rows, w.campaign.next, t.count, t.budget, t.allowRepeats, a)
    ensures CanStep(w, Rebuild(a, t, toSpace, toRules))
  {
    hide RowsOK, Synced, Accepted;
  }

  // Only a rebuild drops or moves a client trial.
  lemma {:induction false} MappingOnlyGrows(w: World, steps: seq<Step>)
    requires Runs(w, steps) && forall s :: s in steps ==> !s.Rebuild?
    ensures MapExtends(Run(w, steps).campaign.mapping, w.campaign.mapping)
    decreases |steps|
  {
    MapExtendsItself(w.campaign.mapping);
    if steps != [] {
      var v := StepTo(w, steps[0]);
      StepExtends(w.space, w.rules, w.campaign, steps[0]);
      hide Enabled, Next, MapExtends;
      MappingOnlyGrows(v, steps[1..]);
      MapExtendsChain(Run(v, steps[1..]).campaign.mapping, v.campaign.mapping, w.campaign.mapping);
    }
  }

  lemma StepExtends(space: seq<Param>, rules: C.Rules, c: Campaign, s: Step)
    requires Enabled(space, rules, c, s) && !s.Rebuild?
    ensures MapExtends(Next(space, rules, c, s).mapping, c.mapping)
  {
    hide RowsOK, Synced, Accepted, Tree;
  }

  // ---- what the history check catches -----------------------------------------------------------------

  // A row as it was and as it is now: unchanged, or pending until now.
  predicate Continues(before: Record, now: Record) {
    || SignatureOf(now) == SignatureOf(before)
    || (before.status == Pending && now.params == before.params)
  }

  lemma ContinuesIsAdmissible(before: Record, now: Record, signatures: map<nat, Signature>)
    requires SignedRow(before, signatures) && now.id == before.id
    ensures Admissible(now, signatures) <==> Continues(before, now)
  {
  }

  // Main result: whatever became of the rows since the last accepted request, the
  // next one reports a lost history exactly if a row is gone, and otherwise a changed
  // trial exactly if a row that is still there is no continuation of what it was.
  lemma HistoryCheckIsExact(space: seq<Param>, rules: C.Rules, c: Campaign, rows: seq<Row>, next: nat, t: Terms,
                            proposals: seq<Proposal>, error: Option<WorkerError>)
    requires Signed(space, c) && RowsOK(space, rows, next)
    requires RequestEnds(space, rules, rows, next, c.mapping, c.signatures, t.count, t.budget, t.allowRepeats, proposals, error)
    ensures var before, now := RecordsOf(space, c.rows, c.next), RecordsOf(space, rows, next);
            var lost := exists b :: b in before && b.id !in RecordIds(now);
            var changed := exists b, n :: b in before && n in now && b.id == n.id && !Continues(b, n);
            && (error == Some(HistoryLost) <==> lost)
            && ((error.Some? && error.value.TerminalChanged?) <==> !lost && changed)
  {
    var before, now := RecordsOf(space, c.rows, c.next), RecordsOf(space, rows, next);
    SyncedKeys(c.snapshot, c.mapping, c.signatures);
    assert c.mapping.Keys == RecordIds(before);
    assert (exists b :: b in before && b.id !in RecordIds(now)) <==> !(c.mapping.Keys <= RecordIds(now));
    RowsContinue(space, c, now);
    hide RowsOK, Synced, Admissible, RecordIds, EncodePoint, Tree, Continues, GenerationEnds, RecordsOf, Signed, Ready, SetupFor;
  }

  lemma RowsContinue(space: seq<Param>, c: Campaign, now: seq<Record>)
    requires Signed(space, c)
    ensures (exists n :: n in now && !Admissible(n, c.signatures))
       <==> exists b, n :: b in RecordsOf(space, c.rows, c.next) && n in now && b.id == n.id && !Continues(b, n)
  {
    var before := RecordsOf(space, c.rows, c.next);
    SyncedKeys(c.snapshot, c.mapping, c.signatures);
    hide RowsOK, Synced, EncodePoint, Tree, Continues, SignatureOf, PendingSignature;
    forall b, n | b in before && n in now && b.id == n.id
      ensures Admissible(n, c.signatures) <==> Continues(b, n)
    {
      var k :| 0 <= k < |before| && before[k] == b;
      assert SignedRow(before[k], c.signatures);
      ContinuesIsAdmissible(b, n, c.signatures);
    }
    forall n | n in now && !Admissible(n, c.signatures)
      ensures exists b :: b in before && b.id == n.id && !Continues(b, n)
    {
      assert n.id in RecordIds(before);
      var b :| b in before && b.id == n.id;
    }
  }

  // ---- integers in float columns ------------------------------------------------------------------------

  // An integer in a float column.
  predicate Loose(space: seq<Param>, e: Encoded, i: nat)
    requires i < |space|
  {
    && Column(i) in e && space[i].kind.Continuous?
    && e[Column(i)].Raw? && e[Column(i)].v.Int?
  }

  // A candidate is canonical exactly when its float columns hold floats.
  lemma CanonicalMeansFloats(space: seq<Param>, c: Candidate)
    requires Tree(space) && DecodePoint(space, c.params).Some?
    ensures Canonical(space, c) <==> forall i :: 0 <= i < |space| ==> !Loose(space, c.params, i)
  {
    EncodeUndoesDecode(space, c.params);
    OnlyColumns(space, c.params);
    var again := EncodePoint(space, DecodePoint(space, c.params).value).value;
    WidenedColumns(space, again, c.params);
  }

  lemma WidenedColumns(space: seq<Param>, again: Encoded, e: Encoded)
    requires again.Keys == e.Keys && forall key :: key in e && key.Column? ==> key.i < |space|
    requires Root in e ==> again[Root] == e[Root]
    requires forall i :: 0 <= i < |space| && Column(i) in e ==> again[Column(i)] == WidenCode(space[i].kind, e[Column(i)])
    ensures again == e <==> forall i :: 0 <= i < |space| ==> !Loose(space, e, i)
  {
    forall i | 0 <= i < |space| && Column(i) in e ensures again[Column(i)] == e[Column(i)] <==> !Loose(space, e, i) {}
    if forall i :: 0 <= i < |space| ==> !Loose(space, e, i) {
      forall key | key in e ensures again[key] == e[key] {
        if key.Column? {
          assert !Loose(space, e, key.i) && key == Column(key.i);
        } else {
          assert key == Root;
        }
      }
      assert again == e;
    }
  }

  lemma OnlyColumns(space: seq<Param>, e: Encoded)
    requires Tree(space) && DecodePoint(space, e).Some?
    ensures forall key :: key in e && key.Column? ==> key.i < |space|
    ensures Root in e ==> EncodePoint(space, DecodePoint(space, e).value).value[Root] == All
  {
    EncodeUndoesDecode(space, e);
    RootOfEncoding(space, DecodePoint(space, e).value);
    DecodedFacts(space, e);
    hide Tree, Accepts, DecodePoint, EncodePoint, Decodable, ReadColumns;
  }

  // Main result: the history stays projectable exactly if every candidate of the
  // accepted batch answers its float columns with floats.
  lemma BatchStaysProjectableIffCanonical(space: seq<Param>, rules: C.Rules, c: Campaign, t: Terms, a: Answer)
    requires Answers(space, rules, c, t, a) && Enabled(space, rules, c, Accept(a, t))
    ensures Good(space, Next(space, rules, c, Accept(a, t))) <==> CanonicalStep(space, Accept(a, t))
  {
    hide *;
    var n := Next(space, rules, c, Accept(a, t));
    if CanonicalStep(space, Accept(a, t)) {
      AcceptSigns(space, rules, c, t, a);
      SignedIsGood(space, n);
    } else {
      var k := LooseRow(space, rules, c, t, a);
      InexactIsNotGood(space, n, k);
    }
  }

  lemma InexactIsNotGood(space: seq<Param>, n: Campaign, k: nat)
    requires RowsOK(space, n.rows, n.next) && k < |n.rows|
    requires !Exact(RecordsOf(space, n.rows, n.next)[k], n.signatures)
    ensures !Good(space, n)
  {
    hide RowsOK, Steady, Exact, EncodePoint;
  }

  // Main result: otherwise the very next request is refused, as if a finished trial
  // had been tampered with.
  lemma LooseBatchBlocksTheNext(space: seq<Param>, rules: C.Rules, c: Campaign, t: Terms, a: Answer,
                                u: Terms, proposals: seq<Proposal>, error: Option<WorkerError>)
    requires Answers(space, rules, c, t, a) && Enabled(space, rules, c, Accept(a, t))
    requires !CanonicalStep(space, Accept(a, t))
    requires var n := Next(space, rules, c, Accept(a, t));
             RowsOK(space, n.rows, n.next) &&
             RequestEnds(space, rules, n.rows, n.next, n.mapping, n.signatures, u.count, u.budget, u.allowRepeats,
                         proposals, error)
    ensures error.Some? && error.value.TerminalChanged?
  {
    hide *;
    var n := Next(space, rules, c, Accept(a, t));
    var k := LooseRow(space, rules, c, t, a);
    AcceptKeepsSteady(space, rules, c, t, a);
    NextEndsIs(World(space, rules, n), u, proposals, error);
    SteadyEnds(World(space, rules, n), u, proposals, error);
    RecordAt(space, n, k);
  }

  lemma RecordAt(space: seq<Param>, n: Campaign, k: nat)
    requires RowsOK(space, n.rows, n.next) && k < |n.rows|
    ensures k < |RecordsOf(space, n.rows, n.next)|
    ensures RecordsOf(space, n.rows, n.next)[k] in RecordsOf(space, n.rows, n.next)
  {
    hide RowsOK, EncodePoint;
  }

  lemma LooseRow(space: seq<Param>, rules: C.Rules, c: Campaign, t: Terms, a: Answer) returns (k: nat)
    requires Answers(space, rules, c, t, a) && Enabled(space, rules, c, Accept(a, t))
    requires !CanonicalStep(space, Accept(a, t))
    ensures var n := Next(space, rules, c, Accept(a, t));
            && RowsOK(space, n.rows, n.next) && k < |n.rows|
            && !Exact(RecordsOf(space, n.rows, n.next)[k], n.signatures)
  {
    hide *;
    AcceptedDecode(space, rules, c, t, a);
    NextRows(space, rules, c, t, a);
    var i := LooseCandidate(space, t, a);
    k := |c.rows| + i;
    AcceptedRow(space, rules, c, t, a, k);
    LooseRowIs(space, Next(space, rules, c, Accept(a, t)), c, a, i);
  }

  lemma LooseCandidate(space: seq<Param>, t: Terms, a: Answer) returns (i: nat)
    requires Tree(space) && !CanonicalStep(space, Accept(a, t))
    ensures i < |a.candidates| && !Canonical(space, a.candidates[i])
  {
    hide Tree, Canonical;
    i :| 0 <= i < |a.candidates| && !Canonical(space, a.candidates[i]);
  }

  lemma LooseRowIs(space: seq<Param>, n: Campaign, c: Campaign, a: Answer, i: nat)
    requires SignedAfter(space, n, c, a, |c.rows| + i) && n.signatures == a.signatures && i < |a.candidates|
    requires Tree(space) && !Canonical(space, a.candidates[i])
    ensures RowsOK(space, n.rows, n.next)
    ensures !Exact(RecordsOf(space, n.rows, n.next)[|c.rows| + i], n.signatures)
  {
    hide Tree, EncodePoint, RowsOK, Canonical, SameEncoded;
  }

  const ONE_FLOAT := [Param("x", Continuous(0.0, 1.0), [])]
  const NO_RULES := C.Rules([], [], [])

  // The client answers the integer 1 for a float parameter.
  const WHOLE := Candidate(map[Column(0) := Raw(Int(1))], 0)
  const WHOLE_ANSWER := Answer(map[1 := 0], map[1 := PendingSignature(WHOLE.params)],
                              map[0 := Trial(WHOLE.params, Running)], [WHOLE], 1, map[])

  lemma OneFloatIsTree()
    ensures Tree(ONE_FLOAT) && ColumnDomain(ONE_FLOAT, 0) == Bounded && !HasParent(ONE_FLOAT)
  {
    assert ONE_FLOAT[..0] == [];
    DeclaredInOrder(ONE_FLOAT);
    hide Ordered;
  }

  lemma WholeIsRead()
    requires Tree(ONE_FLOAT)
    ensures Decodable(ONE_FLOAT, WHOLE.params) && ReadColumns(ONE_FLOAT, WHOLE.params) == map["x" := Float(1.0)]
  {
    OneFloatIsTree();
    hide Tree, DomainOf;
    RankOfColumn(ONE_FLOAT, 0);
    var raw := ReadColumns(ONE_FLOAT, WHOLE.params);
    forall n ensures n in raw <==> n == "x" {
      if n in raw { RankName(ONE_FLOAT, n); }
    }
  }

  lemma WholeIsEncoded(x: Point)
    requires Tree(ONE_FLOAT) && x == map["x" := Float(1.0)]
    ensures Accepts(ONE_FLOAT, x) && EncodePoint(ONE_FLOAT, x) == Some(map[Column(0) := Raw(Float(1.0))])
  {
    OneFloatIsTree();
    hide Tree, DomainOf, HasParent;
    assert ONE_FLOAT[0] in ONE_FLOAT && Active(ONE_FLOAT[0], x);
    assert ActiveNames(ONE_FLOAT, x) == {"x"};
    assert ColumnKeys(ONE_FLOAT, x) == {Column(0)};
    assert Columns(ONE_FLOAT, x) == map[Column(0) := Raw(Float(1.0))];
    assert RootPart(ONE_FLOAT) + Columns(ONE_FLOAT, x) == map[Column(0) := Raw(Float(1.0))];
    hide RootPart, Columns, Accepts;
  }

  lemma WholeIsLoose()
    ensures Tree(ONE_FLOAT)
    ensures DecodePoint(ONE_FLOAT, WHOLE.params) == Some(map["x" := Float(1.0)])
    ensures EncodePoint(ONE_FLOAT, map["x" := Float(1.0)]) == Some(map[Column(0) := Raw(Float(1.0))])
    ensures !Canonical(ONE_FLOAT, WHOLE)
  {
    OneFloatIsTree();
    WholeIsRead();
    WholeIsEncoded(map["x" := Float(1.0)]);
    hide Tree, EncodePoint, ReadColumns, Decodable;
  }

  // Such a batch exists: it passes every check of worker and controller.
  lemma LooseBatchIsAccepted()
    ensures Tree(ONE_FLOAT) && Good(ONE_FLOAT, NewCampaign(1))
    ensures Enabled(ONE_FLOAT, NO_RULES, NewCampaign(1), Accept(WHOLE_ANSWER, Terms(1, 1, true)))
    ensures !CanonicalStep(ONE_FLOAT, Accept(WHOLE_ANSWER, Terms(1, 1, true)))
  {
    hide *;
    WholeIsLoose();
    NewIsGood(ONE_FLOAT, 1);
    WholeAnswers();
    AcceptEnabled(ONE_FLOAT, NO_RULES, NewCampaign(1), Terms(1, 1, true), WHOLE_ANSWER);
    WholeIsNoCanonicalStep();
  }

  lemma WholeIsNoCanonicalStep()
    requires Tree(ONE_FLOAT) && !Canonical(ONE_FLOAT, WHOLE)
    ensures !CanonicalStep(ONE_FLOAT, Accept(WHOLE_ANSWER, Terms(1, 1, true)))
  {
    hide Tree, Canonical;
    assert WHOLE_ANSWER.candidates[0] == WHOLE;
  }

  lemma WholeAnswers()
    requires Tree(ONE_FLOAT) && DecodePoint(ONE_FLOAT, WHOLE.params) == Some(map["x" := Float(1.0)])
    ensures Answers(ONE_FLOAT, NO_RULES, NewCampaign(1), Terms(1, 1, true), WHOLE_ANSWER)
  {
    WholeIsGood();
    WholeIsSigned();
    hide Tree, EncodePoint, DecodePoint, Synced, GoodBatch, ExpectedSignatures, Injective, MapsTo;
  }

  lemma WholeIsGood()
    requires Tree(ONE_FLOAT) && DecodePoint(ONE_FLOAT, WHOLE.params) == Some(map["x" := Float(1.0)])
    ensures GoodBatch(Setup(ONE_FLOAT, NO_RULES, 1, StoredBlocked([], true)), WHOLE_ANSWER.candidates)
  {
    hide Tree, DecodePoint;
    var s := Setup(ONE_FLOAT, NO_RULES, 1, StoredBlocked([], true));
    assert C.Feasible(NO_RULES, map["x" := Float(1.0)]);
    assert GoodCandidate(s, WHOLE) && PointOf(s, WHOLE).value !in s.start;
  }

  lemma WholeIsSigned()
    ensures MapsTo(WHOLE_ANSWER.mapping, 1, WHOLE_ANSWER.candidates)
    ensures ExpectedSignatures([], 1, WHOLE_ANSWER.candidates, WHOLE_ANSWER.signatures)
    ensures Synced(WHOLE_ANSWER.snapshot, WHOLE_ANSWER.mapping, WHOLE_ANSWER.signatures) && Injective(WHOLE_ANSWER.mapping)
  {
    var a := WHOLE_ANSWER;
    assert SignedAt(a.signatures, 1 + 0, a.candidates[0]);
    assert Mapped(a.mapping, 0) by { assert a.mapping[1] == 0; }
  }
}
