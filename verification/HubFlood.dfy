/** Link requests that fill the trail buffer: a run in which 1024 of them are buffered. */
module HubFlood {
  import opened Wrappers
  import opened VerifyOpts
  import opened Caip
  import opened Events
  import opened Erc1271
  import opened HubMachine
  import opened HubInvariants
  import opened HubTheorems
  import opened HubWitness
  import Histories
  import SiwsGrammar
  import SolanaAdapter
  import SolanaTheorems
  import N = NonceStore
  import R = Recorder

  // ----- Fresh values -----

  lemma {:induction false} LongerThan(used: set<string>) returns (n: nat)
    ensures forall t :: t in used ==> |t| < n
  {
    n := 1;
    if t :| t in used {
      n := LongerThan(used - {t});
      n := n + |t| + 1;
    }
  }

  lemma FreshText(used: set<string>) returns (text: string)
    ensures text !in used && text != ""
  {
    var n := LongerThan(used);
    text := Repeat('a', n + 1);
  }

  lemma {:induction false} GreaterThan(used: set<nat>) returns (n: nat)
    ensures forall k: nat :: k in used ==> k < n
  {
    n := 0;
    if used != {} {
      var k :| k in used;
      var m := GreaterThan(used - {k});
      n := m + k + 1;
      forall j: nat | j in used ensures j < n {
        if j != k { assert j in used - {k}; }
      }
    }
  }

  function Drawn(log: seq<N.Op>): set<string> {
    set i | 0 <= i < |log| :: log[i].nonce
  }

  function LatestReading(log: seq<N.Op>): N.Time {
    if log == [] then 0 else N.Last(log[|log| - 1])
  }

  lemma IssueAllowed(h: Hub, nonce: string, now: N.Time)
    requires NonceInv(h) && nonce !in Drawn(h.nonceLog) && now == LatestReading(h.nonceLog)
    ensures NonceOpAllowed(h, N.Issue(nonce, now, now, NONCE_TTL))
  {
    forall i | 0 <= i < |h.nonceLog| ensures h.nonceLog[i].nonce != nonce && N.Last(h.nonceLog[i]) <= now {
      assert h.nonceLog[i].nonce in Drawn(h.nonceLog);
      var last := |h.nonceLog| - 1;
      if i < last { assert N.Last(h.nonceLog[i]) <= N.First(h.nonceLog[last]) <= N.Last(h.nonceLog[last]); }
    }
  }

  /** A nonce can be burnt at the time it was issued. */
  lemma BurnAllowed(h: Hub, h': Hub, nonce: string, now: N.Time)
    requires h'.nonceLog == h.nonceLog + [N.Issue(nonce, now, now, NONCE_TTL)]
    requires N.FreshNonces(h'.nonceLog) && N.ClockMovesOn(h'.nonceLog)
    ensures NonceOpAllowed(h', N.Burn(nonce, now)) && N.Live(Nonces(h'), nonce, now)
  {
    Histories.OneMore(N.Apply, map[], h.nonceLog, N.Issue(nonce, now, now, NONCE_TTL));
    var last := |h.nonceLog|;
    assert N.Last(h'.nonceLog[last]) == now;
    forall i | 0 <= i < |h'.nonceLog| ensures N.Last(h'.nonceLog[i]) <= now {
      if i < last { assert N.Last(h'.nonceLog[i]) <= N.First(h'.nonceLog[last]); }
    }
  }

  // ----- One link request, up to its first report -----

  /** A link request that passes validation and whose verification reports at least one check, whatever it finds. */
  ghost predicate Checks(c: Config, request: Request, chain: CAIP2) {
    && request.kind.LinkTo? && request.cookie != "" && Entry(request) == Arrived(chain)
    && forall owners, attempt, clock :: TrailOf(RunOf(c, owners, request, chain, attempt, clock).events) != []
  }

  lemma LinkIssues(c: Config, h0: Hub, nonce: string, now: N.Time) returns (h: Hub)
    requires Reachable(c, h0) && nonce !in Drawn(h0.nonceLog) && now == LatestReading(h0.nonceLog)
    ensures Reachable(c, h) && h == h0.(nonceLog := h0.nonceLog + [N.Issue(nonce, now, now, NONCE_TTL)])
    ensures NonceOpAllowed(h, N.Burn(nonce, now)) && N.Live(Nonces(h), nonce, now)
  {
    InvReachable(c, h0);
    IssueAllowed(h0, nonce, now);
    ReachableOn(c, h0, Issue(nonce, now, now));
    h := Next(c, h0, Issue(nonce, now, now));
    BurnAllowed(h0, h, nonce, now);
  }

  lemma LinkArrives(c: Config, h0: Hub, request: Request, chain: CAIP2, r: nat) returns (h: Hub)
    requires Reachable(c, h0) && Checks(c, request, chain) && Authenticated(h0, request.kind) && !In(h0, r)
    ensures Reachable(c, h) && h == h0.(requests := h0.requests[r := Progress(request, Arrived(chain), None)])
  {
    ReachableOn(c, h0, Arrive(r, request));
    h := Next(c, h0, Arrive(r, request));
  }

  lemma LinkBurns(c: Config, h0: Hub, now: N.Time, r: nat) returns (h: Hub)
    requires Reachable(c, h0) && In(h0, r) && PhaseOf(h0, r).Arrived?
    requires NonceOpAllowed(h0, N.Burn(h0.requests[r].request.cookie, now)) && N.Live(Nonces(h0), h0.requests[r].request.cookie, now)
    ensures Reachable(c, h) && Moves(h0, h, r) && PhaseOf(h, r) == Burnt(PhaseOf(h0, r).chain)
    ensures h.attempts == h0.attempts && h.trailLog == h0.trailLog && h.completed == h0.completed
  {
    ReachableOn(c, h0, Burn(r, now));
    MovesOne(c, h0, r, Burn(r, now));
    h := AfterBurn(h0, r, now);
  }

  lemma LinkVerifies(c: Config, h0: Hub, r: nat, attempt: string, clock: Clock) returns (h: Hub)
    requires Reachable(c, h0) && In(h0, r) && PhaseOf(h0, r).Burnt? && attempt !in h0.attempts
    requires Checks(c, h0.requests[r].request, PhaseOf(h0, r).chain)
    ensures Reachable(c, h) && Moves(h0, h, r) && PhaseOf(h, r).Reporting? && PhaseOf(h, r).attempt == attempt
    ensures PhaseOf(h, r).sent < |PhaseOf(h, r).trail|
    ensures h.attempts == h0.attempts[attempt := r] && h.trailLog == h0.trailLog && h.completed == h0.completed
  {
    ReachableOn(c, h0, Verify(r, attempt, clock));
    MovesOne(c, h0, r, Verify(r, attempt, clock));
    h := AfterVerify(c, h0, r, attempt, clock);
  }

  lemma LinkReports(c: Config, h0: Hub, r: nat) returns (h: Hub)
    requires Reachable(c, h0) && In(h0, r) && PhaseOf(h0, r).Reporting? && PhaseOf(h0, r).sent < |PhaseOf(h0, r).trail|
    requires |Trail(h0)| < R.CAP
    ensures Reachable(c, h) && Moves(h0, h, r) && Trail(h).Keys == Trail(h0).Keys + {PhaseOf(h0, r).attempt}
    ensures h.attempts == h0.attempts && h.completed == h0.completed
  {
    ReachableOn(c, h0, Record(r));
    MovesOne(c, h0, r, Record(r));
    h := AfterRecord(h0, r);
    Histories.OneMore(R.Apply, map[], h0.trailLog, R.Check(PhaseOf(h0, r).attempt, PhaseOf(h0, r).trail[PhaseOf(h0, r).sent]));
  }

  lemma MovesAgain(h: Hub, h': Hub, h'': Hub, r: nat)
    requires Moves(h, h', r) && Moves(h', h'', r)
    ensures Moves(h, h'', r)
  {
  }

  /** From its arrival to its first report the request leaves one more attempt in the buffer. */
  lemma LinkBuffers(c: Config, h0: Hub, r: nat, now: N.Time, attempt: string, clock: Clock) returns (h: Hub)
    requires Reachable(c, h0) && In(h0, r) && PhaseOf(h0, r).Arrived?
    requires Checks(c, h0.requests[r].request, PhaseOf(h0, r).chain)
    requires NonceOpAllowed(h0, N.Burn(h0.requests[r].request.cookie, now)) && N.Live(Nonces(h0), h0.requests[r].request.cookie, now)
    requires attempt !in h0.attempts && |Trail(h0)| < R.CAP
    ensures Reachable(c, h) && Moves(h0, h, r) && Trail(h).Keys == Trail(h0).Keys + {attempt}
    ensures h.attempts == h0.attempts[attempt := r] && h.completed == h0.completed
  {
    var h1 := LinkBurns(c, h0, now, r);
    var h2 := LinkVerifies(c, h1, r, attempt, clock);
    h := LinkReports(c, h2, r);
    MovesAgain(h0, h1, h2, r);
    MovesAgain(h0, h2, h, r);
  }

  /** A state whose buffer holds exactly these link attempts, in which more can follow. */
  ghost predicate Flooded(c: Config, h: Hub, identity: string, links: set<string>) {
    && Reachable(c, h) && Authenticated(h, LinkTo(identity)) && Trail(h).Keys == links
    && forall id :: id in links ==> LinkAttempt(h, id)
  }

  /** One link request, with values drawn for it. */
  lemma LinkSent(c: Config, h0: Hub, request: Request, chain: CAIP2, r: nat, attempt: string, clock: Clock) returns (h: Hub)
    requires Reachable(c, h0) && Authenticated(h0, request.kind) && Checks(c, request, chain) && |Trail(h0)| < R.CAP
    requires request.cookie !in Drawn(h0.nonceLog) && !In(h0, r) && attempt !in h0.attempts
    ensures Reachable(c, h) && Trail(h).Keys == Trail(h0).Keys + {attempt}
    ensures h.attempts == h0.attempts[attempt := r] && h.completed == h0.completed
    ensures In(h, r) && h.requests[r].request == request && Keeps(h0, h)
  {
    var now := LatestReading(h0.nonceLog);
    var h1 := LinkIssues(c, h0, request.cookie, now);
    var h2 := LinkArrives(c, h1, request, chain, r);
    h := LinkBuffers(c, h2, r, now, attempt, clock);
    KeepsAdded(h0, h2, h, r, h2.requests[r]);
  }

  ghost predicate Keeps(h: Hub, h': Hub) {
    forall s :: In(h, s) ==> In(h', s) && h'.requests[s] == h.requests[s]
  }

  lemma KeepsAdded(h0: Hub, h: Hub, h': Hub, r: nat, p: Progress)
    requires !In(h0, r) && h.requests == h0.requests[r := p] && Moves(h, h', r)
    ensures Keeps(h0, h')
  {
    forall s | In(h0, s) ensures In(h', s) && h'.requests[s] == h0.requests[s] { assert s != r && In(h, s); }
  }

  lemma FloodedOn(c: Config, h0: Hub, h: Hub, identity: string, links: set<string>, attempt: string, r: nat)
    requires Flooded(c, h0, identity, links) && Reachable(c, h) && Trail(h).Keys == links + {attempt}
    requires h.attempts == h0.attempts[attempt := r] && attempt !in h0.attempts && h.completed == h0.completed
    requires In(h, r) && h.requests[r].request.kind == LinkTo(identity)
    requires Keeps(h0, h)
    ensures Flooded(c, h, identity, links + {attempt})
  {
    forall id | id in links ensures LinkAttempt(h, id) { assert LinkAttempt(h0, id); }
  }

  lemma LinkFloods(c: Config, h0: Hub, request: Request, chain: CAIP2, identity: string, links: set<string>, r: nat,
                   attempt: string, clock: Clock)
    returns (h: Hub)
    requires Flooded(c, h0, identity, links) && |links| < R.CAP && request.kind == LinkTo(identity) && Checks(c, request, chain)
    requires request.cookie !in Drawn(h0.nonceLog) && !In(h0, r) && attempt !in h0.attempts
    ensures Flooded(c, h, identity, links + {attempt})
  {
    LinksKnown(c, h0, identity, links);
    h := LinkSent(c, h0, request, chain, r, attempt, clock);
    FloodedOn(c, h0, h, identity, links, attempt, r);
  }

  /** Likewise under any other cookie. */
  ghost predicate ChecksAlways(c: Config, request: Request, chain: CAIP2) {
    forall cookie :: cookie != "" ==> Checks(c, request.(cookie := cookie), chain)
  }

  /** As long as there is room, one more link attempt can be buffered. */
  lemma LinkAdds(c: Config, h0: Hub, request: Request, chain: CAIP2, identity: string, links: set<string>, clock: Clock)
    returns (h: Hub, links': set<string>)
    requires Flooded(c, h0, identity, links) && |links| < R.CAP && request.kind == LinkTo(identity)
    requires ChecksAlways(c, request, chain)
    ensures Flooded(c, h, identity, links') && |links'| == |links| + 1
  {
    var nonce := FreshText(Drawn(h0.nonceLog));
    var r := GreaterThan(h0.requests.Keys);
    var attempt := FreshText(h0.attempts.Keys);
    LinksKnown(c, h0, identity, links);
    h := LinkFloods(c, h0, request.(cookie := nonce), chain, identity, links, r, attempt, clock);
    links' := links + {attempt};
  }

  lemma {:induction false} Fill(c: Config, h0: Hub, request: Request, chain: CAIP2, identity: string, clock: Clock, n: nat)
    returns (h: Hub, links: set<string>)
    requires Flooded(c, h0, identity, {}) && request.kind == LinkTo(identity) && ChecksAlways(c, request, chain) && n <= R.CAP
    ensures Flooded(c, h, identity, links) && |links| == n
  {
    h, links := h0, {};
    if n > 0 {
      h, links := Fill(c, h0, request, chain, identity, clock, n - 1);
      h, links := LinkAdds(c, h, request, chain, identity, links, clock);
    }
  }

  // ----- The scene's text makes such requests -----

  /** What reports a check leaves a trail. */
  lemma {:induction false} TrailSome(events: seq<Event>, i: nat)
    requires i < |events| && events[i].Checked?
    ensures TrailOf(events) != []
  {
    if i > 0 { TrailSome(events[1..], i - 1); }
  }

  lemma TextChecks(c: Config, owners: map<Address, Address>, request: Request, chain: CAIP2, attempt: string, clock: Clock)
    requires chain.ns == "solana" && SiwsGrammar.Parse(request.msg, c.siws.reader).Ok?
    ensures TrailOf(RunOf(c, owners, request, chain, attempt, clock).events) != []
  {
    var opts := Opts(Expected(c.domain, request.cookie), attempt);
    var inner := SolanaAdapter.SolanaRun(request.msg, request.sig, opts, clock, c.siws);
    SolanaTheorems.SolanaTrace(request.msg, request.sig, opts, clock, c.siws);
    var events := RunOf(c, owners, request, chain, attempt, clock).events;
    assert events[2] == inner.events[1] == inner.events[1..][0];
    TrailSome(events, 2);
  }

  lemma SceneChecks(c: Config, s: Scene, identity: string) returns (request: Request)
    requires Playable(c, s)
    ensures request == RequestOf(c, s).(kind := LinkTo(identity)) && ChecksAlways(c, request, CHAIN)
  {
    request := RequestOf(c, s).(kind := LinkTo(identity));
    MessageParses(MessageOf(c, s), c, s);
    ChainValid(CHAIN);
    forall cookie | cookie != "" ensures Checks(c, request.(cookie := cookie), CHAIN) {
      forall owners, attempt, clock
        ensures TrailOf(RunOf(c, owners, request.(cookie := cookie), CHAIN, attempt, clock).events) != []
      {
        TextChecks(c, owners, request.(cookie := cookie), CHAIN, attempt, clock);
      }
    }
  }

  /**
   * A user with one token can fill the buffer: from the scene's sign-in a run leads to 1024 buffered link attempts, each
   * the same text under a nonce of its own. From then on LinksEndTrails holds.
   */
  lemma BufferFills(c: Config, s: Scene) returns (h: Hub, links: set<string>)
    requires Playable(c, s) && ValidReference(s.chainId)
    ensures Reachable(c, h) && |links| == 1024 && forall id :: id in links ==> LinkAttempt(h, id) && id in Trail(h)
  {
    h := ChainIdDecides(c, s);
    var request := SceneChecks(c, s, "i");
    assert Flooded(c, h, "i", {});
    h, links := Fill(c, h, request, CHAIN, "i", _ => s.t, R.CAP);
  }

  lemma LinksKnown(c: Config, h: Hub, identity: string, links: set<string>)
    requires Flooded(c, h, identity, links)
    ensures links <= h.attempts.Keys && |Trail(h)| == |links|
  {
    forall id | id in links ensures id in h.attempts { assert LinkAttempt(h, id); }
  }
}
