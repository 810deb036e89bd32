/** What every move of the hub keeps. */
module HubInvariants {
  import opened Wrappers
  import opened VerifyOpts
  import opened Caip
  import opened Events
  import opened Erc1271
  import opened Registry
  import opened RegistryTheorems
  import opened HubMachine
  import Histories
  import N = NonceStore
  import I = IdentityStore
  import R = Recorder

  // ----- Nonces: a request past its burn owns one successful burn of its cookie -----

  predicate PastBurn(phase: Phase) {
    !phase.Arrived? && (phase.Done? ==> phase.response.Token? || phase.response.Linked?)
  }

  predicate Holds(log: seq<N.Op>, p: Progress) {
    p.burn.Some? && p.burn.value < |log| && N.Spends(log, p.burn.value) && log[p.burn.value].nonce == p.request.cookie
  }

  ghost predicate DistinctBurns(h: Hub) {
    forall r, r' :: In(h, r) && In(h, r') && r != r' && h.requests[r].burn.Some? ==> h.requests[r].burn != h.requests[r'].burn
  }

  ghost predicate NonceInv(h: Hub) {
    && N.FreshNonces(h.nonceLog) && N.ClockMovesOn(h.nonceLog)
    && (forall r :: In(h, r) && (PastBurn(PhaseOf(h, r)) || h.requests[r].burn.Some?) ==> Holds(h.nonceLog, h.requests[r]))
    && DistinctBurns(h)
  }

  lemma HoldsOn(log: seq<N.Op>, op: N.Op, p: Progress)
    requires Holds(log, p)
    ensures Holds(log + [op], p)
  {
    Histories.SamePrefix(N.Apply, map[], log, log + [op], p.burn.value);
  }

  /** A move that leaves the nonce log and the request's burn alone. */
  lemma NonceFrame(h: Hub, h': Hub, r: nat)
    requires NonceInv(h) && h'.nonceLog == h.nonceLog && In(h, r) && PastBurn(PhaseOf(h, r))
    requires In(h', r) && h'.requests == h.requests[r := h.requests[r].(phase := PhaseOf(h', r))]
    ensures NonceInv(h')
  {
  }

  lemma NonceLogGrows(h: Hub, h': Hub, op: N.Op)
    requires NonceInv(h) && NonceOpAllowed(h, op) && h'.nonceLog == h.nonceLog + [op] && h'.requests == h.requests
    ensures NonceInv(h')
  {
    forall r | In(h', r) && (PastBurn(PhaseOf(h', r)) || h'.requests[r].burn.Some?) ensures Holds(h'.nonceLog, h'.requests[r]) {
      assert In(h, r);
      HoldsOn(h.nonceLog, op, h.requests[r]);
    }
    forall r, r' | In(h', r) && In(h', r') && r != r' && h'.requests[r].burn.Some?
      ensures h'.requests[r].burn != h'.requests[r'].burn
    {
      assert In(h, r) && In(h, r');
    }
  }

  lemma NonceArrive(h: Hub, r: nat, request: Request)
    requires NonceInv(h) && !In(h, r)
    ensures NonceInv(h.(requests := h.requests[r := Progress(request, Entry(request), None)]))
  {
  }

  lemma NonceBurn(h: Hub, r: nat, now: N.Time)
    requires NonceInv(h) && In(h, r) && PhaseOf(h, r).Arrived? && NonceOpAllowed(h, N.Burn(h.requests[r].request.cookie, now))
    ensures NonceInv(AfterBurn(h, r, now))
  {
    var h', op := AfterBurn(h, r, now), N.Burn(h.requests[r].request.cookie, now);
    Histories.SamePrefix(N.Apply, map[], h.nonceLog, h'.nonceLog, |h.nonceLog|);
    forall s | In(h', s) && (PastBurn(PhaseOf(h', s)) || h'.requests[s].burn.Some?) ensures Holds(h'.nonceLog, h'.requests[s]) {
      if s != r {
        assert In(h, s);
        HoldsOn(h.nonceLog, op, h.requests[s]);
      }
    }
    forall s, s' | In(h', s) && In(h', s') && s != s' && h'.requests[s].burn.Some?
      ensures h'.requests[s].burn != h'.requests[s'].burn
    {
      assert In(h, s) && In(h, s');
      OlderBurn(h, s);
      OlderBurn(h, s');
    }
  }

  lemma OlderBurn(h: Hub, r: nat)
    requires NonceInv(h) && In(h, r)
    ensures h.requests[r].burn.Some? ==> h.requests[r].burn.value < |h.nonceLog|
  {
  }

  lemma NonceNext(c: Config, h: Hub, move: Move)
    requires NonceInv(h) && Enabled(c, h, move)
    ensures NonceInv(Next(c, h, move))
  {
    match move
    case Issue(nonce, sweepAt, storeAt) => NonceLogGrows(h, Next(c, h, move), N.Issue(nonce, sweepAt, storeAt, NONCE_TTL));
    case RegisterWallet(_) =>
    case Arrive(r, request) => NonceArrive(h, r, request);
    case Burn(r, now) => NonceBurn(h, r, now);
    case _ => NonceLater(c, h, move);
  }

  predicate LaterMove(move: Move) {
    !move.Issue? && !move.RegisterWallet? && !move.Arrive? && !move.Burn?
  }

  lemma NonceLater(c: Config, h: Hub, move: Move)
    requires NonceInv(h) && Enabled(c, h, move) && LaterMove(move)
    ensures NonceInv(Next(c, h, move))
  {
    LaterKeeps(c, h, move);
    NonceFrame(h, Next(c, h, move), move.r);
  }

  /** Everything after the burn leaves the nonce log and all but the request's phase alone. */
  lemma LaterKeeps(c: Config, h: Hub, move: Move)
    requires Enabled(c, h, move) && LaterMove(move)
    ensures var (h', r) := (Next(c, h, move), move.r);
      && In(h, r) && PastBurn(PhaseOf(h, r)) && In(h', r) && h'.nonceLog == h.nonceLog
      && h'.requests == h.requests[r := h.requests[r].(phase := PhaseOf(h', r))]
  {
  }

  // ----- Acceptance: what was verified carries the cookie's nonce -----

  function Carried(c: Config, ns: string, msg: string): Option<string> {
    CarriedNonce(VerifiersOf(c, map[]), ns, msg)
  }

  /** The wallets registered play no part in reading a message. */
  lemma CarriedSame(c: Config, owners: map<Address, Address>, ns: string, msg: string)
    ensures CarriedNonce(VerifiersOf(c, owners), ns, msg) == Carried(c, ns, msg)
  {
  }

  /** The trail of an accepted sign-in. */
  function AllChecks(): seq<R.CheckInfo> {
    [R.CheckInfo(CheckDomain, true), R.CheckInfo(CheckNotBefore, true), R.CheckInfo(CheckExpiry, true),
     R.CheckInfo(CheckNonce, true), R.CheckInfo(CheckSignature, true)]
  }

  lemma TrailOfChecks(events: seq<Event>, k: nat)
    requires |events| == 8 && !events[0].Checked? && !events[1].Checked? && !events[7].Checked?
    requires AllPassed(events[2..7]) && forall i :: 0 <= i < 5 ==> events[2..7][i].check == NAMES[i]
    requires k <= 5
    ensures TrailOf(events[2 + k..]) == AllChecks()[k..]
    ensures k == 0 ==> TrailOf(events) == AllChecks()
    decreases 5 - k
  {
    var rest := events[2 + k..];
    if k == 5 {
      assert rest[1..] == [];
    } else {
      TrailOfChecks(events, k + 1);
      assert rest[0] == events[2..7][k] && rest[1..] == events[2 + (k + 1)..];
      CheckName(k);
      assert AllChecks()[k..] == [AllChecks()[k]] + AllChecks()[k + 1..];
    }
    if k == 0 {
      assert events[1..][1..] == events[2..];
    }
  }

  lemma CheckName(k: nat)
    requires k < 5
    ensures AllChecks()[k] == R.CheckInfo(NAMES[k], true)
  {
  }

  predicate Accepted(c: Config, request: Request) {
    var chain := ParseCAIP2(request.chain);
    chain.Ok? && Carried(c, chain.value.ns, request.msg) == Some(request.cookie)
  }

  predicate AcceptProgress(c: Config, request: Request, phase: Phase) {
    match phase
    case Arrived(chain) => ParseCAIP2(request.chain) == Ok(chain)
    case Burnt(chain) => ParseCAIP2(request.chain) == Ok(chain)
    case Reporting(_, trail, _, result) => result.Ok? ==> Accepted(c, request) && trail == AllChecks()
    case Verified(_, _) => Accepted(c, request)
    case Upserted(_, _, _) => Accepted(c, request)
    case Read(_, _, _, _) => Accepted(c, request)
    case Done(response) => response.Token? || response.Linked? ==> Accepted(c, request)
  }

  ghost predicate AcceptInv(c: Config, h: Hub) {
    forall r :: In(h, r) ==> AcceptProgress(c, h.requests[r].request, PhaseOf(h, r))
  }

  lemma RunAccepted(c: Config, owners: map<Address, Address>, request: Request, chain: CAIP2, attempt: string, clock: Clock)
    requires ParseCAIP2(request.chain) == Ok(chain)
    requires RunOf(c, owners, request, chain, attempt, clock).result.Ok?
    ensures Accepted(c, request)
    ensures TrailOf(RunOf(c, owners, request, chain, attempt, clock).events) == AllChecks()
  {
    var verifiers, opts := VerifiersOf(c, owners), Opts(Expected(c.domain, request.cookie), attempt);
    AcceptedIdentity(verifiers, chain, request.msg, request.sig, opts, clock);
    CarriedSame(c, owners, chain.ns, request.msg);
    RunTrail(verifiers, chain, request.msg, request.sig, opts, clock);
  }

  lemma RunTrail(verifiers: Verifiers, chain: CAIP2, msg: string, sig: seq<byte>, opts: Opts, clock: Clock)
    requires RegistryRun(verifiers, chain, msg, sig, opts, clock).result.Ok?
    ensures TrailOf(RegistryRun(verifiers, chain, msg, sig, opts, clock).events) == AllChecks()
  {
    var run := RegistryRun(verifiers, chain, msg, sig, opts, clock);
    RunTrace(verifiers, chain, msg, sig, opts, clock);
    IdentityIffAllChecks(verifiers, chain, msg, sig, opts, clock);
    var inner := Middle(run.events);
    assert inner[0] == run.events[1] && inner[1..] == run.events[2..7];
    TrailOfChecks(run.events, 0);
  }

  lemma AcceptVerify(c: Config, h: Hub, r: nat, attempt: string, clock: Clock)
    requires AcceptInv(c, h) && In(h, r) && PhaseOf(h, r).Burnt?
    ensures AcceptInv(c, AfterVerify(c, h, r, attempt, clock))
  {
    var request, chain := h.requests[r].request, PhaseOf(h, r).chain;
    assert AcceptProgress(c, request, PhaseOf(h, r));
    if RunOf(c, h.owners, request, chain, attempt, clock).result.Ok? {
      RunAccepted(c, h.owners, request, chain, attempt, clock);
    }
    AcceptFrame(c, h, AfterVerify(c, h, r, attempt, clock), r);
  }

  lemma AcceptFrame(c: Config, h: Hub, h': Hub, r: nat)
    requires AcceptInv(c, h) && In(h, r) && In(h', r)
    requires h'.requests[r].request == h.requests[r].request && h'.requests == h.requests[r := h'.requests[r]]
    requires AcceptProgress(c, h.requests[r].request, PhaseOf(h, r)) ==> AcceptProgress(c, h.requests[r].request, PhaseOf(h', r))
    ensures AcceptInv(c, h')
  {
    forall s | In(h', s) ensures AcceptProgress(c, h'.requests[s].request, PhaseOf(h', s)) {
      assert In(h, s);
    }
  }

  /** Reporting and draining. */
  lemma AcceptReports(c: Config, h: Hub, r: nat)
    requires AcceptInv(c, h) && In(h, r) && PhaseOf(h, r).Reporting?
    ensures PhaseOf(h, r).sent < |PhaseOf(h, r).trail| ==> AcceptInv(c, AfterRecord(h, r))
    ensures AcceptInv(c, AfterDrain(h, r))
  {
    if PhaseOf(h, r).sent < |PhaseOf(h, r).trail| {
      AcceptFrame(c, h, AfterRecord(h, r), r);
    }
    AcceptFrame(c, h, AfterDrain(h, r), r);
  }

  lemma AcceptRead(c: Config, h: Hub, r: nat)
    requires AcceptInv(c, h) && In(h, r) && PhaseOf(h, r).Upserted?
    ensures AcceptInv(c, AfterRead(h, r))
  {
    AcceptFrame(c, h, AfterRead(h, r), r);
  }

  lemma AcceptMint(c: Config, h: Hub, r: nat)
    requires AcceptInv(c, h) && In(h, r) && PhaseOf(h, r).Read?
    ensures AcceptInv(c, AfterMint(h, r))
  {
    AcceptFrame(c, h, AfterMint(h, r), r);
  }

  lemma AcceptAttach(c: Config, h: Hub, r: nat)
    requires AcceptInv(c, h) && In(h, r) && PhaseOf(h, r).Reporting? && h.requests[r].request.kind.LinkTo?
    ensures AcceptInv(c, AfterAttach(h, r))
  {
    AcceptFrame(c, h, AfterAttach(h, r), r);
  }

  lemma AcceptSame(c: Config, h: Hub, h': Hub)
    requires AcceptInv(c, h) && h'.requests == h.requests
    ensures AcceptInv(c, h')
  {
    forall r | In(h', r) ensures AcceptProgress(c, h'.requests[r].request, PhaseOf(h', r)) { assert In(h, r); }
  }

  lemma AcceptArrive(c: Config, h: Hub, r: nat, request: Request)
    requires AcceptInv(c, h) && !In(h, r)
    ensures AcceptInv(c, h.(requests := h.requests[r := Progress(request, Entry(request), None)]))
  {
  }

  lemma AcceptNext(c: Config, h: Hub, move: Move)
    requires AcceptInv(c, h) && Enabled(c, h, move)
    ensures AcceptInv(c, Next(c, h, move))
  {
    var h' := Next(c, h, move);
    match move
    case Issue(_, _, _) => AcceptSame(c, h, h');
    case RegisterWallet(_) => AcceptSame(c, h, h');
    case Arrive(r, request) => AcceptArrive(c, h, r, request);
    case Burn(r, _) => AcceptFrame(c, h, h', r);
    case Verify(r, attempt, clock) => AcceptVerify(c, h, r, attempt, clock);
    case Record(r) => AcceptReports(c, h, r);
    case Drain(r) => AcceptReports(c, h, r);
    case Upsert(r, _) => AcceptFrame(c, h, h', r);
    case ReadWallets(r) => AcceptRead(c, h, r);
    case Mint(r) => AcceptMint(c, h, r);
    case Attach(r) => AcceptAttach(c, h, r);
  }

  // ----- Identities: an upserted account stays listed, and identities stay -----

  ghost predicate IdProgress(s: I.Index, p: Progress) {
    && (p.request.kind.LinkTo? ==> p.request.kind.identity in s.wallets)
    && (p.phase.Upserted? ==> String(p.phase.account) in I.Listed(s, p.phase.identity))
    && (p.phase.Read? ==> p.phase.identity in s.wallets)
  }

  ghost predicate IdInv(h: Hub) {
    && I.FreshIds(h.idLog)
    && (forall r :: In(h, r) ==> IdProgress(Ids(h), h.requests[r]))
    && (forall i :: 0 <= i < |h.completed| && h.completed[i].Minted? ==> h.completed[i].identity in Ids(h).wallets)
  }

  /** The id log and the requests other than r move on; r itself is looked at separately. */
  lemma IdFrame(h: Hub, h': Hub, r: nat)
    requires IdInv(h) && In(h, r) && In(h', r) && h'.requests == h.requests[r := h'.requests[r]]
    requires h.idLog <= h'.idLog && I.FreshIds(h'.idLog) && h'.completed == h.completed
    requires IdProgress(Ids(h'), h'.requests[r])
    ensures IdInv(h')
  {
    IdsGrow(h, h');
    forall s | In(h', s) ensures IdProgress(Ids(h'), h'.requests[s]) {
      if s != r {
        assert In(h, s);
        StaysListed(Ids(h), Ids(h'), h.requests[s]);
      }
    }
    forall i | 0 <= i < |h'.completed| && h'.completed[i].Minted?
      ensures h'.completed[i].identity in Ids(h').wallets
    {
      assert h.completed[i].identity in Ids(h).wallets;
    }
  }

  lemma IdsGrow(h: Hub, h': Hub)
    requires h.idLog <= h'.idLog && I.FreshIds(h'.idLog)
    ensures I.Grows(Ids(h), Ids(h'))
  {
    Histories.SamePrefix(I.Apply, I.EMPTY, h.idLog, h'.idLog, |h.idLog|);
    I.RunGrows(h'.idLog, |h.idLog|, |h'.idLog|);
  }

  lemma StaysListed(s: I.Index, t: I.Index, p: Progress)
    requires I.Grows(s, t) && IdProgress(s, p)
    ensures IdProgress(t, p)
  {
    if p.phase.Upserted? {
      assert p.phase.identity in s.wallets && s.wallets[p.phase.identity] <= t.wallets[p.phase.identity];
    }
  }

  lemma FreshIdsOn(log: seq<I.Action>, a: I.Action)
    requires I.FreshIds(log) && (a.Upsert? ==> a.newId !in I.StateAt(log, |log|).wallets)
    ensures I.FreshIds(log + [a])
  {
    forall k | 0 <= k < |log + [a]| && (log + [a])[k].Upsert? ensures (log + [a])[k].newId !in I.StateAt(log + [a], k).wallets {
      Histories.SamePrefix(I.Apply, I.EMPTY, log, log + [a], k);
    }
  }

  lemma IdUpsert(h: Hub, r: nat, newId: string)
    requires IdInv(h) && In(h, r) && PhaseOf(h, r).Verified? && newId !in Ids(h).wallets
    ensures IdInv(AfterUpsert(h, r, newId))
  {
    var h', k, a := AfterUpsert(h, r, newId), |h.idLog|, I.Upsert(PhaseOf(h, r).account, newId);
    FreshIdsOn(h.idLog, a);
    I.UpsertedStaysListed(h'.idLog, k, k + 1);
    Histories.SamePrefix(I.Apply, I.EMPTY, h.idLog, h'.idLog, k);
    IdsGrow(h, h');
    IdFrame(h, h', r);
  }

  lemma IdRead(h: Hub, r: nat)
    requires IdInv(h) && In(h, r) && PhaseOf(h, r).Upserted?
    ensures IdInv(AfterRead(h, r))
  {
    assert IdProgress(Ids(h), h.requests[r]);
    IdFrame(h, AfterRead(h, r), r);
  }

  lemma IdMint(h: Hub, r: nat)
    requires IdInv(h) && In(h, r) && PhaseOf(h, r).Read?
    ensures IdInv(AfterMint(h, r))
  {
    var h', phase := AfterMint(h, r), PhaseOf(h, r);
    assert IdProgress(Ids(h), h.requests[r]);
    IdFrame(h, Put(h, r, PhaseOf(h', r)), r);
  }

  lemma IdAttach(h: Hub, r: nat)
    requires IdInv(h) && In(h, r) && PhaseOf(h, r).Reporting? && h.requests[r].request.kind.LinkTo?
    ensures IdInv(AfterAttach(h, r))
    ensures AfterAttach(h, r).requests[r].phase != Done(Broken)
  {
    var h', phase := AfterAttach(h, r), PhaseOf(h, r);
    assert IdProgress(Ids(h), h.requests[r]);
    if phase.result.Ok? {
      FreshIdsOn(h.idLog, I.Link(h.requests[r].request.kind.identity, phase.result.value.account));
    }
    IdsGrow(h, h');
    IdFrame(h, h'.(completed := h.completed), r);
  }

  lemma IdArrive(h: Hub, r: nat, request: Request)
    requires IdInv(h) && !In(h, r) && Authenticated(h, request.kind)
    ensures IdInv(h.(requests := h.requests[r := Progress(request, Entry(request), None)]))
  {
    var h' := h.(requests := h.requests[r := Progress(request, Entry(request), None)]);
    forall s | In(h', s) ensures IdProgress(Ids(h'), h'.requests[s]) {
      if s != r { assert In(h, s); }
    }
  }

  lemma IdNext(c: Config, h: Hub, move: Move)
    requires IdInv(h) && Enabled(c, h, move)
    ensures IdInv(Next(c, h, move))
  {
    var h' := Next(c, h, move);
    match move
    case Issue(_, _, _) => IdSame(h, h');
    case RegisterWallet(_) => IdSame(h, h');
    case Arrive(r, request) => IdArrive(h, r, request);
    case Burn(r, _) => IdPhase(h, h', r);
    case Verify(r, _, _) => IdPhase(h, h', r);
    case Record(r) => IdPhase(h, h', r);
    case Drain(r) => IdPhase(h, h', r);
    case Upsert(r, newId) => IdUpsert(h, r, newId);
    case ReadWallets(r) => IdRead(h, r);
    case Mint(r) => IdMint(h, r);
    case Attach(r) => IdAttach(h, r);
  }

  lemma IdSame(h: Hub, h': Hub)
    requires IdInv(h) && h'.idLog == h.idLog && h'.requests == h.requests && h'.completed == h.completed
    ensures IdInv(h')
  {
    forall r | In(h', r) ensures IdProgress(Ids(h'), h'.requests[r]) { assert In(h, r); }
  }

  /** A move of r before its upsert. */
  lemma IdPhase(h: Hub, h': Hub, r: nat)
    requires IdInv(h) && In(h, r) && In(h', r) && h'.requests == h.requests[r := h'.requests[r]]
    requires h'.idLog == h.idLog && h'.completed == h.completed && h'.requests[r].request == h.requests[r].request
    requires !PhaseOf(h', r).Upserted? && !PhaseOf(h', r).Read?
    ensures IdInv(h')
  {
    assert IdProgress(Ids(h), h.requests[r]);
    IdFrame(h, h', r);
  }

  // ----- Completions: one per request, at its end -----

  predicate CompletedBy(h: Hub, done: Completion) {
    In(h, done.r) && match done
      case Minted(r, identity, account, wallets) =>
        PhaseOf(h, r).Done? && PhaseOf(h, r).response.Token? && PhaseOf(h, r).response.identity == identity
        && PhaseOf(h, r).response.wallets == wallets
      case Attached(r, identity, account) =>
        PhaseOf(h, r) == Done(Linked(account)) && h.requests[r].request.kind == LinkTo(identity)
  }

  ghost predicate CompletedInv(h: Hub) {
    && (forall i :: 0 <= i < |h.completed| ==> CompletedBy(h, h.completed[i]))
    && (forall i, j :: 0 <= i < j < |h.completed| ==> h.completed[i].r != h.completed[j].r)
  }

  lemma CompletedFrame(h: Hub, h': Hub, r: nat)
    requires CompletedInv(h) && In(h, r) && !PhaseOf(h, r).Done?
    requires In(h', r) && h'.requests == h.requests[r := h'.requests[r]]
    requires h'.completed == h.completed ||
      exists done: Completion :: done.r == r && CompletedBy(h', done) && h'.completed == h.completed + [done]
    ensures CompletedInv(h')
  {
    forall i | 0 <= i < |h.completed| ensures h.completed[i].r != r && CompletedBy(h', h.completed[i]) {
      assert CompletedBy(h, h.completed[i]);
    }
  }

  lemma CompletedMint(h: Hub, r: nat)
    requires CompletedInv(h) && In(h, r) && PhaseOf(h, r).Read?
    ensures CompletedInv(AfterMint(h, r))
  {
    var h', phase := AfterMint(h, r), PhaseOf(h, r);
    var done := Minted(r, phase.identity, phase.account, phase.wallets);
    assert CompletedBy(h', done) && h'.completed == h.completed + [done];
    CompletedFrame(h, h', r);
  }

  lemma CompletedAttach(h: Hub, r: nat)
    requires CompletedInv(h) && In(h, r) && PhaseOf(h, r).Reporting? && h.requests[r].request.kind.LinkTo?
    ensures CompletedInv(AfterAttach(h, r))
  {
    var h', phase, identity := AfterAttach(h, r), PhaseOf(h, r), h.requests[r].request.kind.identity;
    if phase.result.Ok? && identity in Ids(h).wallets {
      var done := Attached(r, identity, phase.result.value.account);
      assert CompletedBy(h', done) && h'.completed == h.completed + [done];
    }
    CompletedFrame(h, h', r);
  }

  lemma CompletedNext(c: Config, h: Hub, move: Move)
    requires CompletedInv(h) && Enabled(c, h, move)
    ensures CompletedInv(Next(c, h, move))
  {
    var h' := Next(c, h, move);
    match move
    case Issue(_, _, _) => CompletedSame(h, h');
    case RegisterWallet(_) => CompletedSame(h, h');
    case Arrive(r, request) => CompletedSame(h, h');
    case Burn(r, _) => CompletedFrame(h, h', r);
    case Verify(r, _, _) => CompletedFrame(h, h', r);
    case Record(r) => CompletedFrame(h, h', r);
    case Drain(r) => CompletedFrame(h, h', r);
    case Upsert(r, _) => CompletedFrame(h, h', r);
    case ReadWallets(r) => CompletedFrame(h, h', r);
    case Mint(r) => CompletedMint(h, r);
    case Attach(r) => CompletedAttach(h, r);
  }

  lemma CompletedSame(h: Hub, h': Hub)
    requires CompletedInv(h) && h'.completed == h.completed
    requires forall r :: In(h, r) ==> In(h', r) && h'.requests[r] == h.requests[r]
    ensures CompletedInv(h')
  {
    forall i | 0 <= i < |h.completed| ensures CompletedBy(h', h.completed[i]) {
      assert CompletedBy(h, h.completed[i]);
    }
  }

  // ----- Trails: an attempt's reports reach the buffer in order, and only sign-ins are drained -----

  /** An operation on the buffer belongs to the attempt of a known request, and a drain to a sign-in. */
  ghost predicate Owned(h: Hub, op: R.Op) {
    op.id in h.attempts && In(h, h.attempts[op.id]) && (op.Drain? ==> h.requests[h.attempts[op.id]].request.kind.SignIn?)
  }

  ghost predicate TrailProgress(h: Hub, r: nat)
    requires In(h, r)
  {
    var phase := PhaseOf(h, r);
    phase.Reporting? ==>
      && phase.attempt in h.attempts && h.attempts[phase.attempt] == r && phase.sent <= |phase.trail|
      && R.Emitted(h.trailLog, |h.trailLog|, phase.attempt) == phase.trail[..phase.sent]
  }

  ghost predicate TrailInv(h: Hub) {
    && (forall k :: 0 <= k < |h.trailLog| ==> Owned(h, h.trailLog[k]))
    && (forall r :: In(h, r) ==> TrailProgress(h, r))
  }

  /** Requests and the owners of attempts stay what they are. */
  ghost predicate Lasts(h: Hub, h': Hub) {
    && (forall r :: In(h, r) ==> In(h', r) && h'.requests[r].request == h.requests[r].request)
    && (forall id :: id in h.attempts ==> id in h'.attempts && h'.attempts[id] == h.attempts[id])
  }

  lemma OwnedOn(h: Hub, h': Hub, op: R.Op)
    requires Lasts(h, h') && Owned(h, op)
    ensures Owned(h', op)
  {
  }

  lemma {:induction false} NothingEmitted(log: seq<R.Op>, k: nat, id: string)
    requires k <= |log| && forall i :: 0 <= i < k ==> log[i].id != id
    ensures R.Emitted(log, k, id) == []
  {
    if k > 0 {
      NothingEmitted(log, k - 1, id);
    }
  }

  /** One more operation in the log. */
  lemma EmittedOn(log: seq<R.Op>, op: R.Op, id: string)
    ensures R.Emitted(log + [op], |log| + 1, id) == R.Emits(R.Emitted(log, |log|, id), op, id)
  {
    R.EmittedPrefix(log, log + [op], |log|, id);
    assert (log + [op])[|log|] == op;
  }

  /** A report or a drain of request r. */
  lemma TrailOp(h: Hub, h': Hub, r: nat, op: R.Op)
    requires TrailInv(h) && In(h, r) && PhaseOf(h, r).Reporting? && op.id == PhaseOf(h, r).attempt
    requires In(h', r) && h'.requests == h.requests[r := h.requests[r].(phase := PhaseOf(h', r))] && h'.attempts == h.attempts
    requires op.Drain? ==> h.requests[r].request.kind.SignIn?
    requires h'.trailLog == h.trailLog + [op] && TrailProgress(h', r)
    ensures TrailInv(h')
  {
    assert TrailProgress(h, r);
    forall k | 0 <= k < |h'.trailLog| ensures Owned(h', h'.trailLog[k]) {
      if k < |h.trailLog| { OwnedOn(h, h', h.trailLog[k]); }
    }
    forall s | In(h', s) ensures TrailProgress(h', s) {
      if s != r {
        assert In(h, s) && TrailProgress(h, s);
        if PhaseOf(h, s).Reporting? {
          EmittedOn(h.trailLog, op, PhaseOf(h, s).attempt);
        }
      }
    }
  }

  lemma TrailRecord(h: Hub, r: nat)
    requires TrailInv(h) && In(h, r) && PhaseOf(h, r).Reporting? && PhaseOf(h, r).sent < |PhaseOf(h, r).trail|
    ensures TrailInv(AfterRecord(h, r))
  {
    var phase := PhaseOf(h, r);
    var op := R.Check(phase.attempt, phase.trail[phase.sent]);
    assert TrailProgress(h, r);
    EmittedOn(h.trailLog, op, phase.attempt);
    assert phase.trail[..phase.sent + 1] == phase.trail[..phase.sent] + [phase.trail[phase.sent]];
    TrailOp(h, AfterRecord(h, r), r, op);
  }

  lemma TrailVerify(c: Config, h: Hub, r: nat, attempt: string, clock: Clock)
    requires TrailInv(h) && In(h, r) && PhaseOf(h, r).Burnt? && attempt !in h.attempts
    ensures TrailInv(AfterVerify(c, h, r, attempt, clock))
  {
    var h' := AfterVerify(c, h, r, attempt, clock);
    assert forall k :: 0 <= k < |h.trailLog| ==> Owned(h, h.trailLog[k]);
    NothingEmitted(h.trailLog, |h.trailLog|, attempt);
    TrailFrame(h, h', r);
  }

  /** A move that leaves the buffer alone. */
  lemma TrailFrame(h: Hub, h': Hub, r: nat)
    requires TrailInv(h) && h'.trailLog == h.trailLog && Lasts(h, h')
    requires In(h', r) ==> TrailProgress(h', r)
    requires forall s :: In(h', s) && s != r ==> In(h, s) && h'.requests[s] == h.requests[s]
    ensures TrailInv(h')
  {
    forall k | 0 <= k < |h'.trailLog| ensures Owned(h', h'.trailLog[k]) {
      OwnedOn(h, h', h.trailLog[k]);
    }
    forall s | In(h', s) && s != r ensures TrailProgress(h', s) {
      assert In(h, s) && TrailProgress(h, s);
    }
  }

  lemma TrailNext(c: Config, h: Hub, move: Move)
    requires TrailInv(h) && Enabled(c, h, move)
    ensures TrailInv(Next(c, h, move))
  {
    match move
    case Verify(r, attempt, clock) => TrailVerify(c, h, r, attempt, clock);
    case Record(r) => TrailRecord(h, r);
    case Drain(r) => TrailOp(h, Next(c, h, move), r, R.Drain(PhaseOf(h, r).attempt));
    case _ => TrailQuiet(c, h, move);
  }

  /** The other moves leave the buffer alone. */
  lemma TrailQuiet(c: Config, h: Hub, move: Move)
    requires TrailInv(h) && Enabled(c, h, move) && !move.Verify? && !move.Record? && !move.Drain?
    ensures TrailInv(Next(c, h, move))
  {
    var h' := Next(c, h, move);
    if move.Issue? || move.RegisterWallet? {
      TrailSame(h, h');
    } else if move.Arrive? {
      TrailFrame(h, h', move.r);
    } else {
      MovesOne(c, h, move.r, move);
      QuietPhase(c, h, move);
      TrailFrame(h, h', move.r);
    }
  }

  lemma TrailSame(h: Hub, h': Hub)
    requires TrailInv(h) && h'.trailLog == h.trailLog && h'.attempts == h.attempts && h'.requests == h.requests
    ensures TrailInv(h')
  {
    forall k | 0 <= k < |h'.trailLog| ensures Owned(h', h'.trailLog[k]) { OwnedOn(h, h', h.trailLog[k]); }
    forall r | In(h', r) ensures TrailProgress(h', r) { assert In(h, r) && TrailProgress(h, r); }
  }

  lemma QuietPhase(c: Config, h: Hub, move: Move)
    requires Enabled(c, h, move) && (move.Burn? || move.Upsert? || move.ReadWallets? || move.Mint? || move.Attach?)
    ensures var h' := Next(c, h, move);
      h'.trailLog == h.trailLog && h'.attempts == h.attempts && In(h', move.r) && !PhaseOf(h', move.r).Reporting?
  {
  }

  // ----- All of it, in every reachable state -----

  ghost predicate Inv(c: Config, h: Hub) {
    NonceInv(h) && AcceptInv(c, h) && IdInv(h) && CompletedInv(h) && TrailInv(h)
  }

  lemma InvNext(c: Config, h: Hub, move: Move)
    requires Inv(c, h) && Enabled(c, h, move)
    ensures Inv(c, Next(c, h, move))
  {
    NonceNext(c, h, move);
    AcceptNext(c, h, move);
    IdNext(c, h, move);
    CompletedNext(c, h, move);
    TrailNext(c, h, move);
  }

  lemma {:induction false} InvRun(c: Config, states: seq<Hub>, moves: seq<Move>, k: nat)
    requires IsRun(c, states, moves) && k <= |moves|
    ensures Inv(c, states[k])
  {
    if k > 0 {
      InvRun(c, states, moves, k - 1);
      InvNext(c, states[k - 1], moves[k - 1]);
    }
  }

  lemma InvReachable(c: Config, h: Hub)
    requires Reachable(c, h)
    ensures Inv(c, h)
  {
    var states, moves :| IsRun(c, states, moves) && states[|moves|] == h;
    InvRun(c, states, moves, |moves|);
  }
}
