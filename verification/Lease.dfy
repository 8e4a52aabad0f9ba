// Campaign leases in one shared table (service/coordination.py): the backend's
// transactions, and every interleaving of clients that use them.
module Lease {
  import opened Wrappers

  // A row of campaign_leases.
  datatype Row = Row(owner: nat, acquiredAt: real, expiresAt: real)

  type Table = map<string, Row>

  function Max(a: real, b: real): real {
    if a >= b then a else b
  }

  // _lease_duration_seconds; None where it raises.
  function Duration(ttl: real, timeout: Option<real>): Option<real> {
    var effective := if timeout.None? then ttl else timeout.value;
    if effective < 0.0 then None else Some(Max(ttl, effective) + ttl)
  }

  // Does the transaction take the lease, given what it read?
  predicate Free(rows: Table, campaign: string, now: real) {
    campaign !in rows || rows[campaign].expiresAt <= now
  }

  function Acquired(rows: Table, campaign: string, owner: nat, now: real, duration: real): Table {
    if Free(rows, campaign, now) then rows[campaign := Row(owner, now, now + duration)] else rows
  }

  function Released(rows: Table, campaign: string, owner: nat): Table {
    if campaign in rows && rows[campaign].owner == owner then rows - {campaign} else rows
  }

  class Backend {
    var rows: Table
    const ttl: real

    constructor (ttl: real)
      ensures rows == map[] && this.ttl == ttl
    {
      rows, this.ttl := map[], ttl;
    }

    method TryAcquire(campaign: string, owner: nat, now: real, duration: real) returns (taken: bool)
      modifies this
      ensures taken <==> campaign !in old(rows) || old(rows)[campaign].expiresAt <= now
      ensures rows == if taken then old(rows)[campaign := Row(owner, now, now + duration)] else old(rows)
      ensures rows == Acquired(old(rows), campaign, owner, now, duration)
    {
      var expiresAt := now + duration;
      if campaign !in rows {
        rows := rows[campaign := Row(owner, now, expiresAt)];
        return true;
      }
      var current := rows[campaign];
      if current.expiresAt <= now {
        rows := rows[campaign := current.(owner := owner, acquiredAt := now, expiresAt := expiresAt)];
        return true;
      }
      return false;
    }

    method Release(campaign: string, owner: nat)
      modifies this
      ensures campaign in rows <==> campaign in old(rows) && old(rows)[campaign].owner != owner
      ensures rows - {campaign} == old(rows) - {campaign}
      ensures campaign in rows ==> rows[campaign] == old(rows)[campaign]
      ensures rows == Released(old(rows), campaign, owner)
    {
      if campaign in rows && rows[campaign].owner == owner { rows := rows - {campaign}; }
    }
  }

  // What one round of the polling loop meets: the table, the wall clock read
  // before the transaction, and the monotonic clock read after it.
  datatype Round = Round(rows: Table, now: real, monotonic: real)

  datatype Verdict = Got(round: nat) | Unavailable(round: nat) | StillPolling

  // acquire_campaign_lease: the first round that finds the campaign free wins,
  // unless an earlier one passed the deadline.
  method Poll(rounds: seq<Round>, campaign: string, started: real, ttl: real, timeout: Option<real>, failFast: bool)
    returns (verdict: Verdict)
    ensures match verdict
            case Got(i) =>
              i < |rounds| && Free(rounds[i].rows, campaign, rounds[i].now) && Patient(rounds[..i], campaign, started, ttl, timeout, failFast)
            case Unavailable(i) =>
              i < |rounds| && !Free(rounds[i].rows, campaign, rounds[i].now)
              && rounds[i].monotonic >= Deadline(started, ttl, timeout, failFast)
              && Patient(rounds[..i], campaign, started, ttl, timeout, failFast)
            case StillPolling => Patient(rounds, campaign, started, ttl, timeout, failFast)
  {
    var deadline := Deadline(started, ttl, timeout, failFast);
    for i := 0 to |rounds|
      invariant Patient(rounds[..i], campaign, started, ttl, timeout, failFast)
    {
      if Free(rounds[i].rows, campaign, rounds[i].now) { return Got(i); }
      if rounds[i].monotonic >= deadline { return Unavailable(i); }
      assert rounds[..i + 1] == rounds[..i] + [rounds[i]];
    }
    assert rounds[..|rounds|] == rounds;
    verdict := StillPolling;
  }

  function Deadline(started: real, ttl: real, timeout: Option<real>, failFast: bool): real {
    started + if failFast then 0.0 else if timeout.None? then ttl else timeout.value
  }

  // Rounds that found the campaign taken before the deadline.
  predicate Patient(rounds: seq<Round>, campaign: string, started: real, ttl: real, timeout: Option<real>, failFast: bool) {
    forall r :: r in rounds ==> !Free(r.rows, campaign, r.now) && r.monotonic < Deadline(started, ttl, timeout, failFast)
  }

  // A caller that may not wait tries once. Any other goes on exactly while less than its
  // wait has passed since it started: its timeout, or the ttl without one.
  lemma PatienceIsTheWait(rounds: seq<Round>, campaign: string, started: real, ttl: real, timeout: Option<real>, failFast: bool)
    requires forall r :: r in rounds ==> r.monotonic >= started
    ensures failFast ==> (Patient(rounds, campaign, started, ttl, timeout, failFast) <==> rounds == [])
    ensures !failFast ==>
              (Patient(rounds, campaign, started, ttl, timeout, failFast) <==>
                 forall r :: r in rounds ==>
                   && campaign in r.rows && r.now < r.rows[campaign].expiresAt
                   && (timeout.Some? ==> r.monotonic - started < timeout.value)
                   && (timeout.None? ==> r.monotonic - started < ttl))
  {
    if rounds != [] { assert rounds[0] in rounds; }
  }

  // ---- clients ------------------------------------------------------------------------------------

  datatype Client =
    | Idle
    | Trying(campaign: string, token: nat, now: Option<real>, duration: real, terms: Terms)
    | Leased(campaign: string, token: nat, expiresAt: real, readAt: real, terms: Terms)

  // What the caller asked for; readAt is the time its transaction went by.
  datatype Terms = Terms(ttl: real, timeout: Option<real>) {
    function Wait(): real {
      if timeout.None? then ttl else timeout.value
    }
  }

  // The true clock, the table, the clients, and the tokens drawn so far.
  datatype World = World(clock: real, rows: Table, clients: map<nat, Client>, used: set<nat>)

  datatype Step =
    | Tick(to: real)
    | Start(client: nat, name: string, token: nat, asked: Terms)
    | Sample(client: nat)
    | Attempt(client: nat)
    | GiveUp(client: nat)
    | Leave(client: nat)
    | Die(client: nat)

  function At(w: World, client: nat): Client {
    if client in w.clients then w.clients[client] else Idle
  }

  // The clock never runs back, tokens never repeat, a client whose wait is refused
  // never starts, and a transaction uses the time its client read beforehand,
  // however long ago.
  predicate Enabled(w: World, s: Step) {
    match s
    case Tick(to) => to >= w.clock
    case Start(c, _, token, terms) =>
      At(w, c).Idle? && token !in w.used && terms.ttl > 0.0 && Duration(terms.ttl, terms.timeout).Some?
    case Sample(c) => At(w, c).Trying?
    case Attempt(c) => At(w, c).Trying? && At(w, c).now.Some?
    case GiveUp(c) => At(w, c).Trying?
    case Leave(c) => At(w, c).Leased?
    case Die(c) => true
  }

  function Next(w: World, s: Step): World
    requires Enabled(w, s)
  {
    match s
    case Tick(to) => w.(clock := to)
    case Start(c, campaign, token, terms) =>
      var duration := Duration(terms.ttl, terms.timeout).value;
      w.(clients := w.clients[c := Trying(campaign, token, None, duration, terms)], used := w.used + {token})
    case Sample(c) => w.(clients := w.clients[c := At(w, c).(now := Some(w.clock))])
    case Attempt(c) =>
      var t := At(w, c);
      if Free(w.rows, t.campaign, t.now.value) then
        w.(rows := Acquired(w.rows, t.campaign, t.token, t.now.value, t.duration),
           clients := w.clients[c := Leased(t.campaign, t.token, t.now.value + t.duration, t.now.value, t.terms)])
      else w.(clients := w.clients[c := t.(now := None)])
    case GiveUp(c) => w.(clients := w.clients[c := Idle])
    case Leave(c) =>
      w.(rows := Released(w.rows, At(w, c).campaign, At(w, c).token), clients := w.clients[c := Idle])
    case Die(c) => w.(clients := w.clients[c := Idle])
  }

  predicate Unexpired(w: World, c: Client) {
    c.Leased? && w.clock < c.expiresAt
  }

  predicate TokensOK(w: World) {
    && (forall c :: c in w.clients && !w.clients[c].Idle? ==> w.clients[c].token in w.used)
    && (forall a, b :: a in w.clients && b in w.clients && a != b && !w.clients[a].Idle? && !w.clients[b].Idle?
          ==> w.clients[a].token != w.clients[b].token)
    && (forall k :: k in w.rows ==> w.rows[k].owner in w.used)
  }

  predicate ReadsAreOld(w: World) {
    forall c :: c in w.clients && w.clients[c].Trying? && w.clients[c].now.Some? ==> w.clients[c].now.value <= w.clock
  }

  // An unexpired lease is the row of its campaign.
  predicate LeasesAreRows(w: World) {
    forall c :: c in w.clients && Unexpired(w, w.clients[c]) ==>
      && w.clients[c].campaign in w.rows
      && w.rows[w.clients[c].campaign].owner == w.clients[c].token
      && w.rows[w.clients[c].campaign].expiresAt == w.clients[c].expiresAt
  }

  // Every lease runs for the duration its caller's terms come to.
  predicate DurationsOK(w: World) {
    forall c :: c in w.clients ==>
      match w.clients[c]
      case Idle => true
      case Trying(_, _, _, duration, terms) => Duration(terms.ttl, terms.timeout) == Some(duration)
      case Leased(_, _, expiresAt, readAt, terms) => Duration(terms.ttl, terms.timeout) == Some(expiresAt - readAt)
  }

  predicate Safe(w: World) {
    TokensOK(w) && ReadsAreOld(w) && LeasesAreRows(w) && DurationsOK(w)
  }

  // Taking the lease: nobody else's can be unexpired, because its row would have
  // to expire after the time that was read.
  lemma AttemptIsSafe(w: World, c: nat)
    requires Safe(w) && Enabled(w, Attempt(c))
    ensures Safe(Next(w, Attempt(c)))
  {
    var t, next := At(w, c), Next(w, Attempt(c));
    if Free(w.rows, t.campaign, t.now.value) {
      forall o | o in w.clients && o != c && Unexpired(w, w.clients[o])
        ensures w.clients[o].campaign != t.campaign
      {
      }
      assert LeasesAreRows(next);
    }
  }

  lemma LeaveIsSafe(w: World, c: nat)
    requires Safe(w) && Enabled(w, Leave(c))
    ensures Safe(Next(w, Leave(c)))
  {
  }

  lemma StartIsSafe(w: World, s: Step)
    requires s.Start? && Safe(w) && Enabled(w, s)
    ensures Safe(Next(w, s))
  {
  }

  lemma StepIsSafe(w: World, s: Step)
    requires Safe(w) && Enabled(w, s)
    ensures Safe(Next(w, s))
  {
    match s
    case Start(_, _, _, _) =>
      hide Safe, Next, Enabled;
      StartIsSafe(w, s);
    case Attempt(c) =>
      hide Safe, Next;
      AttemptIsSafe(w, c);
    case Leave(c) =>
      hide Safe, Next;
      LeaveIsSafe(w, c);
    case _ =>
  }

  function Run(w: World, steps: seq<Step>): World
    requires Runs(w, steps)
    decreases |steps|
  {
    if steps == [] then w else Run(Next(w, steps[0]), steps[1..])
  }

  predicate Runs(w: World, steps: seq<Step>)
    decreases |steps|
  {
    steps == [] || (Enabled(w, steps[0]) && Runs(Next(w, steps[0]), steps[1..]))
  }

  lemma {:induction false} RunIsSafe(w: World, steps: seq<Step>)
    requires Safe(w) && Runs(w, steps)
    ensures Safe(Run(w, steps))
    decreases |steps|
  {
    hide Safe, Enabled, Next;
    if steps != [] {
      StepIsSafe(w, steps[0]);
      RunIsSafe(Next(w, steps[0]), steps[1..]);
    }
  }

  const BEGINNING := World(0.0, map[], map[], {})

  // Main result: in every run, at most one client holds an unexpired lease on a
  // campaign, and its row is in the table.
  lemma MutualExclusion(steps: seq<Step>, a: nat, b: nat)
    requires Runs(BEGINNING, steps)
    ensures var w := Run(BEGINNING, steps);
            Unexpired(w, At(w, a)) && Unexpired(w, At(w, b)) && At(w, a).campaign == At(w, b).campaign ==> a == b
  {
    RunIsSafe(BEGINNING, steps);
    hide Run, Runs;
  }

  // Main result: a row passes to another owner only after it truly expired or its
  // owner let go.
  lemma TakeoverAfterExpiry(w: World, s: Step, campaign: string)
    requires Safe(w) && Enabled(w, s) && campaign in w.rows
    ensures var after := Next(w, s).rows;
            || (campaign in after && after[campaign] == w.rows[campaign])
            || w.rows[campaign].expiresAt <= w.clock
            || (s.Leave? && At(w, s.client).campaign == campaign && At(w, s.client).token == w.rows[campaign].owner)
  {
  }

  // Main result: a release removes its own row only: after someone else took over
  // it changes nothing, and every other unexpired lease is still its campaign's row.
  lemma LateReleaseIsHarmless(w: World, c: nat)
    requires Safe(w) && Enabled(w, Leave(c))
    ensures var t, after := At(w, c), Next(w, Leave(c));
            && (t.campaign in w.rows && w.rows[t.campaign].owner != t.token ==> after.rows == w.rows)
            && forall other :: other != c && Unexpired(w, At(w, other)) ==>
                 && At(after, other) == At(w, other)
                 && At(w, other).campaign in after.rows
                 && after.rows[At(w, other).campaign].owner == At(w, other).token
  {
    StepIsSafe(w, Leave(c));
    var after := Next(w, Leave(c));
    forall other | other != c && Unexpired(w, At(w, other))
      ensures At(after, other) == At(w, other) && Unexpired(after, after.clients[other])
    {
    }
  }

  lemma DurationCovers(terms: Terms)
    ensures var duration := Duration(terms.ttl, terms.timeout);
            && (duration.None? <==> terms.Wait() < 0.0)
            && (duration.Some? ==> duration.value >= terms.Wait() + terms.ttl && duration.value >= 2.0 * terms.ttl)
  {
  }

  // Main result: in every run, until the caller's wait and then the ttl have passed
  // since the time its transaction went by, a client that has not let go holds the
  // only unexpired lease, and its row is in the table. A transaction that was s
  // behind the clock therefore leaves it at least wait + ttl - s.
  lemma LeaseOutlastsWait(steps: seq<Step>, c: nat)
    requires Runs(BEGINNING, steps) && At(Run(BEGINNING, steps), c).Leased?
    ensures var w := Run(BEGINNING, steps);
            var l := At(w, c);
            && l.terms.Wait() >= 0.0
            && l.expiresAt - w.clock >= l.terms.Wait() + l.terms.ttl - (w.clock - l.readAt)
            && (w.clock - l.readAt < l.terms.Wait() + l.terms.ttl ==>
                  && Unexpired(w, l) && l.campaign in w.rows && w.rows[l.campaign].owner == l.token
                  && forall other :: Unexpired(w, At(w, other)) && At(w, other).campaign == l.campaign ==> other == c)
  {
    RunIsSafe(BEGINNING, steps);
    var w := Run(BEGINNING, steps);
    DurationCovers(At(w, c).terms);
    forall other | Unexpired(w, At(w, other)) && Unexpired(w, At(w, c)) && At(w, other).campaign == At(w, c).campaign
      ensures other == c
    {
      MutualExclusion(steps, c, other);
    }
    hide Run, Runs;
  }

  // ---- what the steps do -------------------------------------------------------------------

  // Main result: a step concerns one client. It reads the true clock, goes by what it
  // read, takes the lease only in an attempt that finds the campaign free, and lets go of
  // a row only when it leaves; a client that dies or gives up leaves the table alone.
  lemma StepsOfAClient(w: World, s: Step)
    requires Enabled(w, s)
    ensures var v := Next(w, s);
            && (!s.Tick? ==> v.clock == w.clock && forall c :: c != s.client ==> At(v, c) == At(w, c))
            && (s.Tick? ==> v == w.(clock := s.to) && s.to >= w.clock)
            && (!s.Attempt? && !s.Leave? ==> v.rows == w.rows)
            && (s.Start? ==> At(v, s.client).Trying? && At(v, s.client).campaign == s.name && At(v, s.client).token == s.token
                             && At(v, s.client).now == None && s.token in v.used)
            && (s.Sample? ==> At(v, s.client) == At(w, s.client).(now := Some(w.clock)))
            && (s.GiveUp? || s.Die? || s.Leave? ==> At(v, s.client) == Idle)
            && (s.Attempt? ==>
                  var t := At(w, s.client);
                  if Free(w.rows, t.campaign, t.now.value)
                  then At(v, s.client).Leased? && At(v, s.client).campaign == t.campaign && At(v, s.client).token == t.token
                       && t.campaign in v.rows && v.rows[t.campaign].owner == t.token
                  else At(v, s.client) == t.(now := None) && v.rows == w.rows)
  {
  }

  // Which steps a client can take: an idle one starts, one that tries reads the clock,
  // attempts with what it read, or gives up, one with a lease leaves, and any may die.
  lemma StepsAreOpen(w: World, c: nat, name: string, token: nat, terms: Terms)
    ensures At(w, c).Idle? && token !in w.used && terms.ttl > 0.0 && terms.Wait() >= 0.0 ==> Enabled(w, Start(c, name, token, terms))
    ensures At(w, c).Trying? ==> Enabled(w, Sample(c)) && Enabled(w, GiveUp(c))
    ensures At(w, c).Trying? && At(w, c).now.Some? ==> Enabled(w, Attempt(c))
    ensures At(w, c).Leased? ==> Enabled(w, Leave(c))
    ensures Enabled(w, Die(c)) && forall later: real :: later >= w.clock ==> Enabled(w, Tick(later))
  {
  }
}
