// Generating a complete, unique, feasible batch, and the controller's own check
// of it (optimizer_ax_worker.py and _prepare_projection_v2 in optimizer_ax.py).
module Batch {
  import opened Wrappers
  import opened Space
  import opened Codec
  import opened Worker
  import C = Constraints

  datatype Candidate = Candidate(params: Encoded, index: nat)

  datatype Reason = Rule(id: C.RuleId) | Duplicate

  // The space and rules generation works in.
  datatype Setup = Setup(space: seq<Param>, rules: C.Rules, next: nat, start: set<Point>)

  predicate Ready(s: Setup) {
    Tree(s.space)
  }

  // A candidate decodes to a feasible point.
  ghost predicate GoodCandidate(s: Setup, c: Candidate)
    requires Ready(s)
  {
    DecodePoint(s.space, c.params).Some? && C.Feasible(s.rules, DecodePoint(s.space, c.params).value)
  }

  function PointsOf(s: Setup, cands: seq<Candidate>): set<Point>
    requires Ready(s)
  {
    set c | c in cands && DecodePoint(s.space, c.params).Some? :: DecodePoint(s.space, c.params).value
  }

  function PointOf(s: Setup, c: Candidate): Option<Point>
    requires Ready(s)
  {
    DecodePoint(s.space, c.params)
  }

  // Feasible, unblocked, pairwise different points.
  ghost predicate GoodBatch(s: Setup, cands: seq<Candidate>)
    requires Ready(s)
  {
    && (forall i :: 0 <= i < |cands| ==> GoodCandidate(s, cands[i]) && PointOf(s, cands[i]).value !in s.start)
    && (forall i, j :: 0 <= i < j < |cands| ==> PointOf(s, cands[i]) != PointOf(s, cands[j]))
  }

  // Candidate i became canonical trial next + i.
  ghost predicate Registered(s: Setup, cands: seq<Candidate>, before: set<nat>, mapping: map<nat, nat>,
                             signatures: map<nat, Signature>) {
    && (forall id :: id in mapping <==> id in before || s.next <= id < s.next + |cands|)
    && forall i :: 0 <= i < |cands| ==> CandidateAt(s, cands, i, mapping, signatures)
  }

  predicate CandidateAt(s: Setup, cands: seq<Candidate>, i: nat, mapping: map<nat, nat>, signatures: map<nat, Signature>)
    requires i < |cands|
  {
    && s.next + i in mapping && mapping[s.next + i] == cands[i].index
    && s.next + i in signatures && signatures[s.next + i] == PendingSignature(cands[i].params)
  }

  // Generation so far.
  ghost predicate Grown(s: Setup, before: set<nat>, cands: seq<Candidate>, blocked: set<Point>,
                        mapping: map<nat, nat>, signatures: map<nat, Signature>)
    requires Ready(s)
  {
    && GoodBatch(s, cands)
    && blocked == s.start + PointsOf(s, cands)
    && Registered(s, cands, before, mapping, signatures)
  }

  lemma StartGrown(s: Setup, mapping: map<nat, nat>, signatures: map<nat, Signature>)
    requires Ready(s)
    ensures Grown(s, mapping.Keys, [], s.start, mapping, signatures)
  {
  }

  lemma OneMoreCandidate(s: Setup, before: set<nat>, cands: seq<Candidate>, blocked: set<Point>,
                         mapping: map<nat, nat>, signatures: map<nat, Signature>, c: Candidate)
    requires Ready(s) && Grown(s, before, cands, blocked, mapping, signatures)
    requires GoodCandidate(s, c) && PointOf(s, c).value !in blocked
    requires forall id :: id in before ==> id < s.next
    ensures s.next + |cands| !in mapping
    ensures var id := s.next + |cands|;
            Grown(s, before, cands + [c], blocked + {PointOf(s, c).value},
                  mapping[id := c.index], signatures[id := PendingSignature(c.params)])
  {
    hide GoodBatch, PointsOf, Registered, Ready, DecodePoint, C.Feasible;
    MorePoints(s, cands, c);
    MoreGood(s, cands, c);
    MoreRegistered(s, before, cands, mapping, signatures, c);
  }

  lemma MoreRegistered(s: Setup, before: set<nat>, cands: seq<Candidate>, mapping: map<nat, nat>,
                       signatures: map<nat, Signature>, c: Candidate)
    requires Registered(s, cands, before, mapping, signatures) && forall id :: id in before ==> id < s.next
    ensures s.next + |cands| !in mapping
    ensures var id := s.next + |cands|;
            Registered(s, cands + [c], before, mapping[id := c.index], signatures[id := PendingSignature(c.params)])
  {
    var last, more := s.next + |cands|, cands + [c];
    var m, g := mapping[last := c.index], signatures[last := PendingSignature(c.params)];
    assert last !in mapping;
    forall id ensures id in m <==> id in before || s.next <= id < s.next + |more| {
      assert id in m <==> id in mapping || id == last;
    }
    forall i | 0 <= i < |more| ensures CandidateAt(s, more, i, m, g) {
      if i < |cands| {
        assert more[i] == cands[i];
        assert CandidateAt(s, cands, i, mapping, signatures);
      }
    }
  }

  lemma MorePoints(s: Setup, cands: seq<Candidate>, c: Candidate)
    requires Ready(s) && PointOf(s, c).Some?
    ensures PointsOf(s, cands + [c]) == PointsOf(s, cands) + {PointOf(s, c).value}
  {
    hide DecodePoint, Ready, Tree;
    assert c in cands + [c];
  }

  lemma MoreGood(s: Setup, cands: seq<Candidate>, c: Candidate)
    requires Ready(s) && GoodBatch(s, cands)
    requires GoodCandidate(s, c) && PointOf(s, c).value !in s.start + PointsOf(s, cands)
    ensures GoodBatch(s, cands + [c])
  {
    hide DecodePoint, Ready, Tree, C.Feasible;
    var more := cands + [c];
    forall i | 0 <= i < |cands| ensures PointOf(s, cands[i]) != PointOf(s, c) && more[i] == cands[i] {
      assert cands[i] in cands && GoodCandidate(s, cands[i]);
      assert PointOf(s, cands[i]).value in PointsOf(s, cands);
    }
    forall i | 0 <= i < |more| ensures GoodCandidate(s, more[i]) && PointOf(s, more[i]).value !in s.start {
      assert i < |cands| ==> GoodCandidate(s, cands[i]);
    }
    forall i, j | 0 <= i < j < |more| ensures PointOf(s, more[i]) != PointOf(s, more[j]) {
      assert j < |cands| ==> PointOf(s, cands[i]) != PointOf(s, cands[j]);
    }
  }

  // ---- reject counts ---------------------------------------------------------------------------

  function Bump(counts: map<Reason, nat>, r: Reason): map<Reason, nat> {
    counts[r := (if r in counts then counts[r] else 0) + 1]
  }

  function BumpAll(counts: map<Reason, nat>, reasons: seq<Reason>): map<Reason, nat> {
    if reasons == [] then counts else Bump(BumpAll(counts, reasons[..|reasons| - 1]), reasons[|reasons| - 1])
  }

  function Reasons(violations: seq<C.RuleId>): (r: seq<Reason>)
    ensures r != []
  {
    if violations == [] then [Duplicate]
    else seq(|violations|, i requires 0 <= i < |violations| => Rule(violations[i]))
  }

  method CountReasons(counts: map<Reason, nat>, violations: seq<C.RuleId>) returns (r: map<Reason, nat>)
    ensures r == BumpAll(counts, Reasons(violations)) && r != map[]
  {
    r := counts;
    var reasons := Reasons(violations);
    for i := 0 to |reasons|
      invariant r == BumpAll(counts, reasons[..i])
      invariant i > 0 ==> reasons[i - 1] in r
    {
      assert reasons[..i + 1][..i] == reasons[..i];
      r := Bump(r, reasons[i]);
    }
    assert reasons[..|reasons|] == reasons;
  }

  function CountOf(counts: map<Reason, nat>, r: Reason): nat {
    if r in counts then counts[r] else 0
  }

  // Each reason is counted as often as it is given, and no other.
  lemma {:induction false} ReasonsAreCounted(counts: map<Reason, nat>, reasons: seq<Reason>, r: Reason)
    ensures CountOf(BumpAll(counts, reasons), r) == CountOf(counts, r) + multiset(reasons)[r]
  {
    if reasons != [] {
      var n := |reasons| - 1;
      ReasonsAreCounted(counts, reasons[..n], r);
      assert reasons == reasons[..n] + [reasons[n]];
    }
  }

  // A rejected proposal is counted under each rule it violates, or as a duplicate if it
  // violates none.
  lemma RejectionReasons(violations: seq<C.RuleId>)
    ensures violations == [] ==> Reasons(violations) == [Duplicate]
    ensures violations != [] ==> |Reasons(violations)| == |violations|
    ensures violations != [] ==> forall i :: 0 <= i < |violations| ==> Reasons(violations)[i] == Rule(violations[i])
  {
  }

  // ---- what a sequence of proposals comes to ---------------------------------------------------

  datatype Tally = Tally(candidates: seq<Candidate>, blocked: set<Point>, rejects: map<Reason, nat>)

  // Feasible by the rules and not blocked.
  predicate Selectable(s: Setup, blocked: set<Point>, p: Proposal)
    requires Ready(s)
  {
    var raw := DecodePoint(s.space, p.params);
    raw.Some? && raw.value !in blocked && C.ViolationsOf(s.rules, raw.value) == []
  }

  // The effect of one proposal that decodes.
  function Considered(s: Setup, t: Tally, p: Proposal): Tally
    requires Ready(s)
  {
    var raw := DecodePoint(s.space, p.params);
    if raw.None? then t
    else if Selectable(s, t.blocked, p) then
      Tally(t.candidates + [Candidate(p.params, p.index)], t.blocked + {raw.value}, t.rejects)
    else t.(rejects := BumpAll(t.rejects, Reasons(C.ViolationsOf(s.rules, raw.value))))
  }

  function Tallied(s: Setup, proposals: seq<Proposal>): Tally
    requires Ready(s)
  {
    if proposals == [] then Tally([], s.start, map[])
    else Considered(s, Tallied(s, proposals[..|proposals| - 1]), proposals[|proposals| - 1])
  }

  // The feasible points among the proposals.
  function GoodPoints(s: Setup, proposals: seq<Proposal>): set<Point>
    requires Ready(s)
  {
    set p | p in proposals && DecodePoint(s.space, p.params).Some?
            && C.ViolationsOf(s.rules, DecodePoint(s.space, p.params).value) == []
          :: DecodePoint(s.space, p.params).value
  }

  lemma TalliedNext(s: Setup, proposals: seq<Proposal>, p: Proposal)
    requires Ready(s)
    ensures Tallied(s, proposals + [p]) == Considered(s, Tallied(s, proposals), p)
  {
    assert (proposals + [p])[..|proposals|] == proposals;
    hide Considered;
  }

  lemma GoodPointsNext(s: Setup, proposals: seq<Proposal>, p: Proposal)
    requires Ready(s)
    ensures GoodPoints(s, proposals + [p]) == GoodPoints(s, proposals) + GoodPoints(s, [p])
  {
    hide DecodePoint, Ready, C.ViolationsOf;
    assert p in [p];
    forall q ensures q in proposals + [p] <==> q in proposals || q in [p] {}
  }

  // Main result: nothing that could be used is passed over. The chosen points are
  // exactly the feasible unblocked ones among the proposals, each chosen once.
  lemma {:induction false} SelectionIsExact(s: Setup, proposals: seq<Proposal>)
    requires Ready(s)
    ensures Tallied(s, proposals).blocked == s.start + GoodPoints(s, proposals)
    ensures |Tallied(s, proposals).candidates| == |GoodPoints(s, proposals) - s.start|
  {
    if proposals == [] {
      assert GoodPoints(s, []) == {};
      assert {} - s.start == {};
    } else {
      var n := |proposals| - 1;
      var front, p := proposals[..n], proposals[n];
      assert proposals == front + [p];
      SelectionIsExact(s, front);
      hide Tallied, GoodPoints, Ready;
      TalliedNext(s, front, p);
      GoodPointsNext(s, front, p);
      SelectionStep(s, Tallied(s, front), GoodPoints(s, front), p);
    }
  }

  lemma SelectionStep(s: Setup, t: Tally, good: set<Point>, p: Proposal)
    requires Ready(s) && t.blocked == s.start + good && |t.candidates| == |good - s.start|
    ensures Considered(s, t, p).blocked == s.start + (good + GoodPoints(s, [p]))
    ensures |Considered(s, t, p).candidates| == |(good + GoodPoints(s, [p])) - s.start|
  {
    ReadyIs(s);
    hide DecodePoint, Ready, C.ViolationsOf, BumpAll, Reasons, GoodPoints;
    OneGoodPoint(s, p);
    var raw := DecodePoint(s.space, p.params);
    if raw.Some? && C.ViolationsOf(s.rules, raw.value) == [] { OneMorePoint(s.start, good, raw.value); }
    assert good + {} == good;
  }

  lemma OneGoodPoint(s: Setup, p: Proposal)
    requires Ready(s)
    ensures var raw := DecodePoint(s.space, p.params);
            GoodPoints(s, [p])
            == if raw.Some? && C.ViolationsOf(s.rules, raw.value) == [] then {raw.value} else {}
  {
    hide DecodePoint, Ready, C.ViolationsOf;
    assert p in [p];
  }

  lemma OneMorePoint(start: set<Point>, good: set<Point>, x: Point)
    ensures (start + good) + {x} == start + (good + {x})
    ensures |(good + {x}) - start| == |good - start| + if x in start + good then 0 else 1
    ensures x in start + good ==> start + good == start + (good + {x})
  {
    if x in start + good {
      assert (good + {x}) - start == good - start;
    } else {
      assert (good + {x}) - start == (good - start) + {x};
    }
  }

  // ---- the generation loop -----------------------------------------------------------------------

  // Mapping and signatures kept every entry they had.
  predicate Extended(mapping: map<nat, nat>, signatures: map<nat, Signature>,
                     mapping0: map<nat, nat>, signatures0: map<nat, Signature>) {
    MapExtends(mapping, mapping0) && MapExtends(signatures, signatures0)
  }

  lemma NotExtended(mapping: map<nat, nat>, signatures: map<nat, Signature>)
    ensures Extended(mapping, signatures, mapping, signatures)
  {
  }

  lemma ExtendedChain(mapping2: map<nat, nat>, signatures2: map<nat, Signature>,
                      mapping1: map<nat, nat>, signatures1: map<nat, Signature>,
                      mapping0: map<nat, nat>, signatures0: map<nat, Signature>)
    requires Extended(mapping2, signatures2, mapping1, signatures1)
    requires Extended(mapping1, signatures1, mapping0, signatures0)
    ensures Extended(mapping2, signatures2, mapping0, signatures0)
  {
    hide MapExtends;
    MapExtendsChain(mapping2, mapping1, mapping0);
    MapExtendsChain(signatures2, signatures1, signatures0);
  }

  predicate AllDecode(s: Setup, proposals: seq<Proposal>)
    requires Ready(s)
  {
    forall p :: p in proposals ==> DecodePoint(s.space, p.params).Some?
  }

  // Halfway through a batch of proposals.
  ghost predicate Looked(s: Setup, proposals: seq<Proposal>, looked: seq<Proposal>, rest: seq<Proposal>,
                         before: seq<Proposal>, seen: seq<Proposal>)
    requires Ready(s)
  {
    proposals == looked + rest && seen == before + looked && AllDecode(s, looked)
  }

  lemma StartDone(s: Setup, proposals: seq<Proposal>, seen: seq<Proposal>)
    requires Ready(s)
    ensures Looked(s, proposals, [], proposals, seen, seen)
  {
  }

  lemma LookedNext(s: Setup, proposals: seq<Proposal>, looked: seq<Proposal>, rest: seq<Proposal>,
                   before: seq<Proposal>, seen: seq<Proposal>)
    requires Ready(s) && Looked(s, proposals, looked, rest, before, seen) && rest != []
    ensures if DecodePoint(s.space, rest[0].params).Some?
            then Looked(s, proposals, looked + [rest[0]], rest[1..], before, seen + [rest[0]])
            else !AllDecode(s, proposals)
  {
    ReadyIs(s);
    hide Ready, DecodePoint;
    MoveOne(looked, rest, before);
    if DecodePoint(s.space, rest[0].params).Some? {
      OneMoreDecodes(s, looked, rest[0]);
      hide AllDecode;
    }
  }

  lemma MoveOne(looked: seq<Proposal>, rest: seq<Proposal>, before: seq<Proposal>)
    requires rest != []
    ensures looked + rest == (looked + [rest[0]]) + rest[1..]
    ensures (before + looked) + [rest[0]] == before + (looked + [rest[0]])
    ensures rest[0] in looked + rest
  {
    assert (looked + rest)[|looked|] == rest[0];
  }

  lemma OneMoreDecodes(s: Setup, looked: seq<Proposal>, p: Proposal)
    requires Ready(s) && AllDecode(s, looked) && DecodePoint(s.space, p.params).Some?
    ensures AllDecode(s, looked + [p])
  {
    hide Ready, DecodePoint;
  }

  lemma LookedAll(s: Setup, proposals: seq<Proposal>, looked: seq<Proposal>, before: seq<Proposal>, seen: seq<Proposal>)
    requires Ready(s) && Looked(s, proposals, looked, [], before, seen)
    ensures seen == before + proposals && AllDecode(s, proposals)
  {
    assert looked + [] == looked;
  }

  // What the client has given since a first moment has all been seen.
  ghost predicate Accounted(first: seq<Proposal>, now: seq<Proposal>, seen: seq<Proposal>) {
    first <= now && now[|first|..] == seen
  }

  lemma AccountedNext(s: Setup, first: seq<Proposal>, before: seq<Proposal>, now: seq<Proposal>, seen: seq<Proposal>)
    requires Ready(s) && Accounted(first, before, seen) && before <= now && AllDecode(s, seen)
    ensures Accounted(first, now, seen + now[|before|..])
    ensures AllDecode(s, seen + now[|before|..]) <==> AllDecode(s, now[|before|..])
  {
    ReadyIs(s);
    hide Ready, DecodePoint;
    var more := now[|before|..];
    assert now[|first|..] == seen + more;
    if AllDecode(s, seen + more) {
      forall p | p in more ensures DecodePoint(s.space, p.params).Some? { assert p in seen + more; }
    }
  }

  lemma StartAccounted(s: Setup, first: seq<Proposal>)
    requires Ready(s)
    ensures Accounted(first, first, []) && AllDecode(s, [])
  {
  }

  // A request for proposals is due: it asks for what the batch still lacks after the
  // proposals so far, but for no more than the attempts that are left.
  ghost predicate AskIsDue(s: Setup, count: nat, budget: nat, first: nat, given: seq<Proposal>, a: Ask)
    requires Ready(s)
  {
    && first <= a.before <= |given|
    && var chosen, attempts := |Tallied(s, given[first..a.before]).candidates|, a.before - first;
    && chosen < count && attempts < budget
    && a.most == if count - chosen <= budget - attempts then count - chosen else budget - attempts
  }

  ghost predicate AsksAreDue(s: Setup, count: nat, budget: nat, first: nat, given: seq<Proposal>, asks: seq<Ask>)
    requires Ready(s)
  {
    forall k :: 0 <= k < |asks| ==> AskIsDue(s, count, budget, first, given, asks[k])
  }

  lemma AsksGrow(s: Setup, count: nat, budget: nat, first: nat, before: seq<Proposal>, now: seq<Proposal>, asks: seq<Ask>, a: Ask)
    requires Ready(s) && before <= now && AsksAreDue(s, count, budget, first, before, asks)
    requires AskIsDue(s, count, budget, first, before, a)
    ensures AsksAreDue(s, count, budget, first, now, asks + [a])
  {
    hide Tallied, Ready;
    var all := asks + [a];
    forall k | 0 <= k < |all| ensures AskIsDue(s, count, budget, first, now, all[k]) {
      assert AskIsDue(s, count, budget, first, before, all[k]);
      assert now[first..all[k].before] == before[first..all[k].before];
    }
  }

  // Every request made since then was due.
  ghost predicate AskedSince(s: Setup, count: nat, budget: nat, first: nat, given: seq<Proposal>, before: seq<Ask>, now: seq<Ask>)
    requires Ready(s)
  {
    before <= now && AsksAreDue(s, count, budget, first, given, now[|before|..])
  }

  lemma NothingAskedYet(s: Setup, count: nat, budget: nat, first: nat, given: seq<Proposal>, asks: seq<Ask>)
    requires Ready(s)
    ensures AskedSince(s, count, budget, first, given, asks, asks)
  {
  }

  lemma MoreAsked(s: Setup, count: nat, budget: nat, first: nat, sofar: seq<Proposal>, given: seq<Proposal>,
                  before: seq<Ask>, asked: seq<Ask>, now: seq<Ask>, most: nat)
    requires Ready(s) && sofar <= given && AskedSince(s, count, budget, first, sofar, before, asked)
    requires now == asked + [Ask(most, |sofar|)] && AskIsDue(s, count, budget, first, sofar, Ask(most, |sofar|))
    ensures AskedSince(s, count, budget, first, given, before, now)
  {
    assert now[|before|..] == asked[|before|..] + [Ask(most, |sofar|)];
    hide Ready, AsksAreDue, AskIsDue;
    AsksGrow(s, count, budget, first, sofar, given, asked[|before|..], Ask(most, |sofar|));
  }

  class Generator {
    const setup: Setup
    const projection: Projection
    const client: Client
    var blocked: set<Point>
    var candidates: seq<Candidate>
    var attempts: nat
    var rejects: map<Reason, nat>
    ghost const before: set<nat>
    // Every proposal looked at, in order.
    ghost var seen: seq<Proposal>

    constructor (setup: Setup, projection: Projection)
      ensures this.setup == setup && this.projection == projection && before == projection.mapping.Keys
      ensures client == projection.client
      ensures blocked == setup.start && candidates == [] && attempts == 0 && rejects == map[] && seen == []
    {
      this.setup, this.projection, before := setup, projection, projection.mapping.Keys;
      client := projection.client;
      blocked, candidates, attempts, rejects, seen := setup.start, [], 0, map[], [];
    }

    ghost predicate Valid()
      reads this, projection
    {
      && client == projection.client && Ready(setup)
      && (forall id :: id in before ==> id < setup.next)
      && Grown(setup, before, candidates, blocked, projection.mapping, projection.signatures)
      && Tally(candidates, blocked, rejects) == Tallied(setup, seen) && attempts == |seen|
      && attempts >= |candidates|
      && (rejects == map[] <==> attempts == |candidates|)
    }

    ghost predicate Waiting(rest: seq<Proposal>)
      reads this, projection, client
    {
      SyncedBut(client.trials, projection.mapping, projection.signatures, rest)
    }

    // One proposal: made the next candidate if it is feasible and not blocked,
    // otherwise counted by its reasons and abandoned.
    method Consider(rest: seq<Proposal>) returns (ok: bool)
      requires Valid() && rest != [] && Waiting(rest)
      modifies this, projection, client`trials
      ensures seen == old(seen) + [rest[0]] && attempts == old(attempts) + 1
      ensures ok <==> DecodePoint(setup.space, rest[0].params).Some?
      ensures ok ==> Valid() && Waiting(rest[1..])
      ensures ok ==> Tally(candidates, blocked, rejects)
                     == Considered(setup, old(Tally(candidates, blocked, rejects)), rest[0])
      ensures ok ==> (candidates == old(candidates) + [Candidate(rest[0].params, rest[0].index)]
                      <==> Selectable(setup, old(blocked), rest[0]))
      ensures ok ==> Extended(projection.mapping, projection.signatures, old(projection.mapping), old(projection.signatures))
    {
      hide Ready, DecodePoint, SyncedBut, Grown, C.Feasible, Waits, BumpAll, Reasons, Tallied, C.ViolationsOf;
      attempts := attempts + 1;
      var p := rest[0];
      seen := seen + [p];
      TalliedNext(setup, old(seen), p);
      assert Tree(setup.space) by { ReadyIs(setup); }
      var raw := DecodePoint(setup.space, p.params);
      if raw.None? { return false; }
      var violations := C.EvaluateConstraints(raw.value, setup.rules);
      if raw.value in blocked || violations != [] {
        rejects := CountReasons(rejects, violations);
        Dropped(client.trials, projection.mapping, projection.signatures, rest);
        client.MarkTrialAbandoned(p.index);
      } else {
        Adopt(rest, raw.value);
      }
      ok := true;
    }

    // A good proposal becomes the next canonical trial.
    method Adopt(rest: seq<Proposal>, point: Point)
      requires client == projection.client && Ready(setup) && rest != [] && Waiting(rest)
      requires forall id :: id in before ==> id < setup.next
      requires Grown(setup, before, candidates, blocked, projection.mapping, projection.signatures)
      requires DecodePoint(setup.space, rest[0].params) == Some(point) && point !in blocked
      requires C.Feasible(setup.rules, point)
      modifies this`blocked, this`candidates, projection
      ensures candidates == old(candidates) + [Candidate(rest[0].params, rest[0].index)]
      ensures blocked == old(blocked) + {point} && Waiting(rest[1..])
      ensures Grown(setup, before, candidates, blocked, projection.mapping, projection.signatures)
      ensures Extended(projection.mapping, projection.signatures, old(projection.mapping), old(projection.signatures))
    {
      hide Ready, DecodePoint, SyncedBut, Grown, C.Feasible, Waits;
      var p, id := rest[0], setup.next + |candidates|;
      ButKeys(client.trials, projection.mapping, projection.signatures, rest);
      OneMoreCandidate(setup, before, candidates, blocked, projection.mapping, projection.signatures,
                       Candidate(p.params, p.index));
      Adopted(client.trials, projection.mapping, projection.signatures, rest, id);
      blocked := blocked + {point};
      projection.mapping := projection.mapping[id := p.index];
      projection.signatures := projection.signatures[id := PendingSignature(p.params)];
      candidates := candidates + [Candidate(p.params, p.index)];
    }

    method ConsiderAll(proposals: seq<Proposal>) returns (ok: bool)
      requires Valid() && Waiting(proposals)
      modifies this, projection, client`trials
      ensures ok ==> seen == old(seen) + proposals
      ensures ok ==> Valid() && Waiting([])
      ensures ok ==> |candidates| <= old(|candidates|) + |proposals|
      ensures ok ==> Extended(projection.mapping, projection.signatures, old(projection.mapping), old(projection.signatures))
      ensures Ready(setup)
      ensures ok <==> AllDecode(setup, proposals)
    {
      NotExtended(projection.mapping, projection.signatures);
      StartDone(setup, proposals, seen);
      hide *;
      var rest := proposals;
      ghost var looked: seq<Proposal> := [];
      while rest != []
        invariant Ready(setup) && Looked(setup, proposals, looked, rest, old(seen), seen)
        invariant Valid() && Waiting(rest)
        invariant |candidates| + |rest| <= old(|candidates|) + |proposals|
        invariant Extended(projection.mapping, projection.signatures, old(projection.mapping), old(projection.signatures))
        decreases |rest|
      {
        LookedNext(setup, proposals, looked, rest, old(seen), seen);
        ghost var mapping, signatures := projection.mapping, projection.signatures;
        ok := ConsiderNext(rest);
        if !ok { return; }
        looked, rest := looked + [rest[0]], rest[1..];
        ExtendedChain(projection.mapping, projection.signatures, mapping, signatures,
                      old(projection.mapping), old(projection.signatures));
      }
      LookedAll(setup, proposals, looked, old(seen), seen);
      ok := true;
    }

    // Consider, as far as the loop needs it.
    method ConsiderNext(rest: seq<Proposal>) returns (ok: bool)
      requires Valid() && rest != [] && Waiting(rest)
      modifies this, projection, client`trials
      ensures seen == old(seen) + [rest[0]]
      ensures Tree(setup.space)
      ensures ok <==> DecodePoint(setup.space, rest[0].params).Some?
      ensures ok ==> Valid() && Waiting(rest[1..]) && |candidates| <= old(|candidates|) + 1
      ensures ok ==> Extended(projection.mapping, projection.signatures, old(projection.mapping), old(projection.signatures))
    {
      ReadyIs(setup);
      hide Grown, SyncedBut, Ready, Extended, DecodePoint, Tallied, Selectable, BumpAll, Reasons;
      ok := Consider(rest);
    }

    // One call to the client and everything it proposes.
    method Round(most: nat) returns (error: Option<WorkerError>)
      requires Valid() && Waiting([]) && client.FreshIndices()
      modifies this, projection, client
      ensures Ready(setup)
      ensures error.None? ==> Valid() && Waiting([])
      ensures error.None? ==> old(|seen|) < |seen| <= old(|seen|) + most
      ensures error.None? ==> |candidates| <= old(|candidates|) + |seen| - old(|seen|)
      ensures old(client.given) <= client.given
      ensures client.asks == old(client.asks) + [Ask(most, |old(client.given)|)]
      ensures error.None? ==> seen == old(seen) + client.given[|old(client.given)|..]
      ensures error.None? ==> AllDecode(setup, client.given[|old(client.given)|..])
      ensures error.None? ==>
                Extended(projection.mapping, projection.signatures, old(projection.mapping), old(projection.signatures))
      ensures error.Some? ==> error == Some(NoProposals) || error == Some(BadProposal)
      ensures error == Some(NoProposals) ==> client.given == old(client.given)
      ensures error == Some(BadProposal) ==> !AllDecode(setup, client.given[|old(client.given)|..])
    {
      ReadyIs(setup);
      hide Grown, SyncedBut, Ready, Client.FreshIndices, Extended, FreshBatch, RunningTrials, Tallied, DecodePoint, Tree;
      Finished(client.trials, projection.mapping, projection.signatures);
      ghost var trials := client.trials;
      var proposals := client.GetNextTrials(most);
      if proposals == [] { return Some(NoProposals); }
      AtMost(proposals, trials.Keys, most);
      Received(trials, projection.mapping, projection.signatures, proposals, most);
      assert client.given[|old(client.given)|..] == proposals;
      var ok := ConsiderAll(proposals);
      error := if ok then None else Some(BadProposal);
    }

    // Rounds until the batch is complete or the budget is spent.
    method Generate(count: nat, budget: nat) returns (error: Option<WorkerError>)
      requires Valid() && Waiting([]) && client.FreshIndices() && seen == []
      modifies this, projection, client
      ensures error.None? ==> Valid() && Waiting([]) && |candidates| == count && count <= attempts <= budget
      ensures old(client.given) <= client.given
      ensures error.None? ==> client.given == old(client.given) + seen
      ensures error.None? ==>
                Extended(projection.mapping, projection.signatures, old(projection.mapping), old(projection.signatures))
      ensures GenerationEnds(setup, count, budget, client.given[|old(client.given)|..], error)
      ensures AskedSince(setup, count, budget, |old(client.given)|, client.given, old(client.asks), client.asks)
    {
      ReadyIs(setup);
      NotExtended(projection.mapping, projection.signatures);
      StartAccounted(setup, client.given);
      hide Grown, SyncedBut, Ready, Client.FreshIndices, Extended, Tallied, GenerationEnds, DecodePoint, Tree, AllDecode,
           Accounted, AsksAreDue, AskIsDue, AskedSince;
      ghost var given, asks := client.given, client.asks;
      NothingAskedYet(setup, count, budget, |given|, given, asks);
      while |candidates| < count
        invariant Valid() && Waiting([]) && client.FreshIndices()
        invariant |candidates| <= count && attempts <= budget
        invariant Ready(setup) && Accounted(given, client.given, seen) && AllDecode(setup, seen)
        invariant Extended(projection.mapping, projection.signatures, old(projection.mapping), old(projection.signatures))
        invariant AskedSince(setup, count, budget, |given|, client.given, asks, client.asks)
        decreases budget - attempts
      {
        if budget <= attempts {
          Ended(setup, count, budget, given, client.given, seen, Some(Exhausted));
          return Some(Exhausted);
        }
        var remaining := budget - attempts;
        var most := if count - |candidates| < remaining then count - |candidates| else remaining;
        ghost var mapping, signatures, sofar, earlier := projection.mapping, projection.signatures, client.given, seen;
        ghost var asked := client.asks;
        DueNow(setup, count, budget, given, sofar, earlier, most);
        error := Round(most);
        MoreAsked(setup, count, budget, |given|, sofar, client.given, asks, asked, client.asks, most);
        AccountedNext(setup, given, sofar, client.given, earlier);
        if error.Some? {
          NothingMore(sofar, client.given, earlier);
          Ended(setup, count, budget, given, client.given, earlier + client.given[|sofar|..], error);
          return;
        }
        ExtendedChain(projection.mapping, projection.signatures, mapping, signatures,
                      old(projection.mapping), old(projection.signatures));
      }
      error := None;
      Ended(setup, count, budget, given, client.given, seen, error);
    }
  }

  lemma DueNow(s: Setup, count: nat, budget: nat, first: seq<Proposal>, now: seq<Proposal>, seen: seq<Proposal>, most: nat)
    requires Ready(s) && Accounted(first, now, seen) && |Tallied(s, seen).candidates| < count && |seen| < budget
    requires var chosen := |Tallied(s, seen).candidates|;
             most == if count - chosen <= budget - |seen| then count - chosen else budget - |seen|
    ensures AskIsDue(s, count, budget, |first|, now, Ask(most, |now|))
  {
    hide Tallied, Ready;
    assert now[|first|..|now|] == now[|first|..];
  }

  lemma NothingMore(before: seq<Proposal>, now: seq<Proposal>, seen: seq<Proposal>)
    requires before <= now
    ensures now == before ==> seen + now[|before|..] == seen
  {
  }

  // How a generation ends, in terms of the proposals the client made: complete
  // exactly when they hold enough different feasible unblocked points.
  ghost predicate GenerationEnds(s: Setup, count: nat, budget: nat, proposals: seq<Proposal>, error: Option<WorkerError>)
    requires Ready(s)
  {
    && (error == Some(BadProposal) <==> !AllDecode(s, proposals))
    && match error
       case None => |GoodPoints(s, proposals) - s.start| == count && |proposals| <= budget
       case Some(Exhausted) => |proposals| == budget && |GoodPoints(s, proposals) - s.start| < count
       case Some(NoProposals) => |proposals| < budget && |GoodPoints(s, proposals) - s.start| < count
       case Some(BadProposal) => true
       case _ => false
  }

  lemma Ended(s: Setup, count: nat, budget: nat, first: seq<Proposal>, now: seq<Proposal>, proposals: seq<Proposal>,
              error: Option<WorkerError>)
    requires Ready(s) && Accounted(first, now, proposals)
    requires AllDecode(s, proposals) <==> error != Some(BadProposal)
    requires error == None ==> |Tallied(s, proposals).candidates| == count && |proposals| <= budget
    requires error == Some(Exhausted) ==> |Tallied(s, proposals).candidates| < count && |proposals| == budget
    requires error == Some(NoProposals) ==> |Tallied(s, proposals).candidates| < count && |proposals| < budget
    requires error in {None, Some(BadProposal), Some(Exhausted), Some(NoProposals)}
    ensures first <= now && GenerationEnds(s, count, budget, now[|first|..], error)
    ensures now == first + proposals
  {
    hide Ready, DecodePoint, GoodPoints, Tallied, AllDecode;
    SelectionIsExact(s, proposals);
  }

  lemma AtMost(batch: seq<Proposal>, used: set<nat>, most: nat)
    requires FreshBatch(batch, used, most)
    ensures |batch| <= most
  {
  }

  lemma ButKeys(trials: map<nat, Trial>, mapping: map<nat, nat>, signatures: map<nat, Signature>, rest: seq<Proposal>)
    requires SyncedBut(trials, mapping, signatures, rest)
    ensures mapping.Keys == signatures.Keys
  {
  }

  lemma ReadyIs(s: Setup)
    requires Ready(s)
    ensures Tree(s.space)
  {
  }
}
