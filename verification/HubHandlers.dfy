/**
 * examples/hub/handlers.go: the handlers themselves. Each effect of a handler is one move of the state machine, and a
 * handler served alone plays enabled moves of its request from its arrival to its response.
 */
module HubHandlers {
  import opened Wrappers
  import opened VerifyOpts
  import opened Caip
  import opened Events
  import opened Erc1271
  import G = Registry
  import opened Registry
  import opened HubMachine
  import EvmTheorems
  import Histories
  import N = NonceStore
  import I = IdentityStore
  import R = Recorder

  /** The state after the moves, if each is enabled when its turn comes. */
  ghost function Play(c: Config, h: Hub, moves: seq<Move>): Option<Hub> {
    if moves == [] then Some(h)
    else
      var before, move := Play(c, h, moves[..|moves| - 1]), moves[|moves| - 1];
      if before.Some? && Enabled(c, before.value, move) then Some(Next(c, before.value, move)) else None
  }

  lemma PlayOn(c: Config, h: Hub, moves: seq<Move>, mid: Hub, move: Move)
    requires Play(c, h, moves) == Some(mid) && Enabled(c, mid, move)
    ensures Play(c, h, moves + [move]) == Some(Next(c, mid, move))
  {
    assert (moves + [move])[..|moves|] == moves;
  }

  /** The contents of the stores are those of the state. */
  ghost predicate Models(c: Config, h: Hub, entries: N.Entries, index: I.Index, trail: R.Trail, owners: map<Address, Address>,
                         verifiers: Verifiers) {
    && Reachable(c, h)
    && entries == Nonces(h) && index == Ids(h) && trail == Trail(h) && owners == h.owners && verifiers == VerifiersOf(c, owners)
  }

  lemma ModelsNext(c: Config, h: Hub, move: Move, entries: N.Entries, index: I.Index, trail: R.Trail,
                   owners: map<Address, Address>, verifiers: Verifiers)
    requires Models(c, h, entries, index, trail, owners, verifiers) && Enabled(c, h, move)
    requires var h' := Next(c, h, move); h'.nonceLog == h.nonceLog && h'.idLog == h.idLog && h'.owners == h.owners
    requires var h' := Next(c, h, move); h'.trailLog == h.trailLog
    ensures Models(c, Next(c, h, move), entries, index, trail, owners, verifiers)
  {
    ReachableOn(c, h, move);
  }

  lemma ModelsRecord(c: Config, h: Hub, r: nat, entries: N.Entries, index: I.Index, trail: R.Trail,
                     owners: map<Address, Address>, verifiers: Verifiers)
    requires Models(c, h, entries, index, trail, owners, verifiers) && Enabled(c, h, Record(r))
    ensures var phase := PhaseOf(h, r);
      Models(c, AfterRecord(h, r), entries, index, R.Apply(trail, R.Check(phase.attempt, phase.trail[phase.sent])), owners,
             verifiers)
  {
    ReachableOn(c, h, Record(r));
    Histories.OneMore(R.Apply, map[], h.trailLog, R.Check(PhaseOf(h, r).attempt, PhaseOf(h, r).trail[PhaseOf(h, r).sent]));
  }

  lemma ModelsDrain(c: Config, h: Hub, r: nat, entries: N.Entries, index: I.Index, trail: R.Trail,
                    owners: map<Address, Address>, verifiers: Verifiers)
    requires Models(c, h, entries, index, trail, owners, verifiers) && Enabled(c, h, Drain(r))
    ensures Models(c, AfterDrain(h, r), entries, index, R.Apply(trail, R.Drain(PhaseOf(h, r).attempt)), owners, verifiers)
  {
    ReachableOn(c, h, Drain(r));
    var h' := AfterDrain(h, r);
    assert h'.nonceLog == h.nonceLog && h'.idLog == h.idLog && h'.owners == h.owners;
    assert h'.trailLog == h.trailLog + [R.Drain(PhaseOf(h, r).attempt)];
    Histories.OneMore(R.Apply, map[], h.trailLog, R.Drain(PhaseOf(h, r).attempt));
  }

  lemma ModelsUpsert(c: Config, h: Hub, r: nat, newId: string, entries: N.Entries, index: I.Index, trail: R.Trail,
                     owners: map<Address, Address>, verifiers: Verifiers)
    requires Models(c, h, entries, index, trail, owners, verifiers) && Enabled(c, h, Upsert(r, newId))
    ensures Models(c, AfterUpsert(h, r, newId), entries, I.Apply(index, I.Upsert(PhaseOf(h, r).account, newId)), trail,
                   owners, verifiers)
  {
    ReachableOn(c, h, Upsert(r, newId));
    var h' := AfterUpsert(h, r, newId);
    assert h'.nonceLog == h.nonceLog && h'.trailLog == h.trailLog && h'.owners == h.owners;
    Histories.OneMore(I.Apply, I.EMPTY, h.idLog, I.Upsert(PhaseOf(h, r).account, newId));
  }

  class Server {
    const config: Config
    const nonces: N.NonceStore
    const ids: I.IdentityStore
    const recorder: R.Recorder
    const registry: G.Registry
    const wallets: DemoWallets

    /** What the machine knows about this server. */
    ghost var model: Hub

    ghost predicate Valid()
      reads this, nonces, ids, recorder, registry, wallets
    {
      && Models(config, model, nonces.entries, ids.State(), recorder.checks, wallets.owners, registry.verifiers)
      && wallets.derive == config.derive && wallets.recover == config.recover && wallets.Valid()
    }

    constructor (config: Config)
      ensures Valid() && model == START && this.config == config
      ensures fresh(nonces) && fresh(ids) && fresh(recorder) && fresh(registry) && fresh(wallets)
    {
      this.config := config;
      nonces := new N.NonceStore();
      ids := new I.IdentityStore();
      recorder := new R.Recorder();
      wallets := new DemoWallets(config.derive, config.recover);
      registry := new G.Registry();
      model := START;
      new;
      registry.Register(Solana(config.siws));
      RegisterEvm();
      assert IsRun(config, [START], []);
    }

    /** The EVM adapter holds the demo wallets by reference; here it is registered again with their present owners. */
    method RegisterEvm()
      requires registry.Valid() && "solana" in registry.verifiers && registry.verifiers["solana"] == Solana(config.siws)
      requires registry.verifiers.Keys <= {"solana", "eip155"}
      modifies registry
      ensures registry.Valid() && registry.verifiers == VerifiersOf(config, wallets.owners)
    {
      var resolver := if config.demo then Some(EvmTheorems.DemoResolver(wallets.owners, config.recover)) else None;
      registry.Register(Evm(config.evm.(resolver := resolver)));
    }

    /** getNonce. */
    method GetNonce(nonce: string, sweepAt: N.Time, storeAt: N.Time)
      requires Valid() && Enabled(config, model, Issue(nonce, sweepAt, storeAt))
      modifies this`model, nonces
      ensures Valid() && model == Next(config, old(model), Issue(nonce, sweepAt, storeAt))
      ensures model.nonceLog == old(model.nonceLog) + [N.Issue(nonce, sweepAt, storeAt, 600_000_000_000)]
    {
      nonces.Issue(nonce, sweepAt, storeAt, NONCE_TTL);
      Histories.OneMore(N.Apply, map[], model.nonceLog, N.Issue(nonce, sweepAt, storeAt, NONCE_TTL));
      ReachableOn(config, model, Issue(nonce, sweepAt, storeAt));
      model := Next(config, model, Issue(nonce, sweepAt, storeAt));
    }

    /** postRegisterContractWallet, once the owner's address has been read. */
    method RegisterContractWallet(owner: Address) returns (wallet: Address)
      requires Valid() && config.demo
      modifies this`model, wallets, registry
      ensures Valid() && model == Next(config, old(model), RegisterWallet(owner)) && wallet == config.derive(owner)
    {
      wallet := wallets.Register(owner);
      ReachableOn(config, model, RegisterWallet(owner));
      model := Next(config, model, RegisterWallet(owner));
      RegisterEvm();
    }

    // ----- The effects of postVerify and postLink, one move each -----

    /** nonces.Burn. */
    method BurnCookie(ghost r: nat, cookie: string, now: N.Time) returns (ok: bool)
      requires Valid() && Enabled(config, model, Burn(r, now)) && model.requests[r].request.cookie == cookie
      modifies this`model, nonces
      ensures Valid() && model == Next(config, old(model), Burn(r, now))
      ensures PhaseOf(model, r) == if ok then Burnt(old(PhaseOf(model, r)).chain) else Done(Refused({ErrNonceMismatch}))
    {
      ok := nonces.Burn(cookie, now);
      Histories.OneMore(N.Apply, map[], model.nonceLog, N.Burn(cookie, now));
      ReachableOn(config, model, Burn(r, now));
      model := Next(config, model, Burn(r, now));
    }

    /** registry.Verify; the tap stands for the recorder, which is offered every event of the run. */
    method AskRegistry(request: Request, chain: CAIP2, attempt: string, clock: Clock)
      returns (result: Result<Identity, Failure>, events: seq<Event>)
      requires Valid()
      ensures Run(events, result) == RunOf(config, wallets.owners, request, chain, attempt, clock)
      ensures OneId(events, attempt)
    {
      var opts := Opts(Expected(config.domain, request.cookie), attempt);
      RunTrace(registry.verifiers, chain, request.msg, request.sig, opts, clock);
      result, events := Tapped(chain, request.msg, request.sig, opts, clock);
    }

    method Tapped(chain: CAIP2, msg: string, sig: seq<byte>, opts: Opts, clock: Clock)
      returns (result: Result<Identity, Failure>, events: seq<Event>)
      ensures Run(events, result) == RegistryRun(registry.verifiers, chain, msg, sig, WithId(opts, opts.attemptId), clock)
    {
      var tap := new Observer();
      ghost var run := RegistryRun(registry.verifiers, chain, msg, sig, WithId(opts, opts.attemptId), clock);
      Alone(tap);
      result := registry.Verify([tap], chain, msg, sig, opts, opts.attemptId, clock);
      events := Offered(tap.calls);
      assert tap in [tap] && tap.calls[0..] == tap.calls;
    }

    method VerifyMessage(ghost r: nat, request: Request, chain: CAIP2, attempt: string, clock: Clock)
      returns (result: Result<Identity, Failure>, events: seq<Event>)
      requires Valid() && Enabled(config, model, Verify(r, attempt, clock))
      requires model.requests[r].request == request && PhaseOf(model, r) == Burnt(chain)
      modifies this`model
      ensures Valid() && model == Next(config, old(model), Verify(r, attempt, clock))
      ensures PhaseOf(model, r) == Reporting(attempt, TrailOf(events), 0, result)
      ensures OneId(events, attempt)
    {
      result, events := AskRegistry(request, chain, attempt, clock);
      ModelsNext(config, model, Verify(r, attempt, clock), nonces.entries, ids.State(), recorder.checks, wallets.owners,
                 registry.verifiers);
      model := Next(config, model, Verify(r, attempt, clock));
    }

    /** OnCheckResult, for one check event. */
    method ReportCheck(ghost r: nat, e: Event)
      requires Valid() && Enabled(config, model, Record(r)) && e.Checked?
      requires var phase := PhaseOf(model, r); phase.attempt == e.id && phase.trail[phase.sent] == R.CheckInfo(e.check, e.ok)
      modifies this`model, recorder
      ensures Valid() && model == Next(config, old(model), Record(r))
    {
      ModelsRecord(config, model, r, nonces.entries, ids.State(), recorder.checks, wallets.owners, registry.verifiers);
      recorder.OnCheckResult(e.id, e.check, e.ok);
      model := Next(config, model, Record(r));
    }

    /** The recorder's share of the events of one verification. */
    method ReportAll(ghost r: nat, events: seq<Event>, ghost start: Hub, ghost before: seq<Move>)
      returns (ghost moves: seq<Move>)
      requires Valid() && ReportsAhead(config, start, before, model, model, r, events)
      modifies this`model, recorder
      ensures Valid() && ReportsAhead(config, start, moves, old(model), model, r, [])
    {
      moves := before;
      for i := 0 to |events|
        invariant Valid() && ReportsAhead(config, start, moves, old(model), model, r, events[i..])
      {
        assert events[i..][0] == events[i] && events[i..][1..] == events[i + 1..];
        if events[i].Checked? {
          NextReport(config, start, moves, old(model), model, r, events[i..]);
          ReportCheck(r, events[i]);
          moves := moves + [Record(r)];
        } else {
          NoReport(config, start, moves, old(model), model, r, events[i..]);
        }
      }
    }

    /** recorder.DrainChecks. */
    method DrainTrail(ghost r: nat, attempt: string, result: Result<Identity, Failure>) returns (checks: seq<R.CheckInfo>)
      requires Valid() && Enabled(config, model, Drain(r))
      requires PhaseOf(model, r).attempt == attempt && PhaseOf(model, r).result == result
      modifies this`model, recorder
      ensures Valid() && model == Next(config, old(model), Drain(r))
      ensures PhaseOf(model, r) == if result.Ok? then Verified(result.value.account, checks) else Done(Refused(result.error))
    {
      ModelsDrain(config, model, r, nonces.entries, ids.State(), recorder.checks, wallets.owners, registry.verifiers);
      checks := recorder.DrainChecks(attempt);
      model := Next(config, model, Drain(r));
    }

    /** ids.UpsertByWallet. */
    method UpsertAccount(ghost r: nat, account: CAIP10, newId: string) returns (identity: string)
      requires Valid() && Enabled(config, model, Upsert(r, newId)) && PhaseOf(model, r).account == account
      modifies this`model, ids
      ensures Valid() && model == Next(config, old(model), Upsert(r, newId))
      ensures PhaseOf(model, r) == Upserted(account, old(PhaseOf(model, r)).checks, identity)
    {
      ModelsUpsert(config, model, r, newId, nonces.entries, ids.State(), recorder.checks, wallets.owners, registry.verifiers);
      var created;
      identity, created := ids.UpsertByWallet(account, newId);
      model := Next(config, model, Upsert(r, newId));
    }

    /** ids.Wallets. */
    method WalletsOf(ghost r: nat, identity: string) returns (wallets: Result<seq<CAIP10>, CaipError>)
      requires Valid() && Enabled(config, model, ReadWallets(r)) && PhaseOf(model, r).identity == identity
      modifies this`model
      ensures Valid() && model == Next(config, old(model), ReadWallets(r))
      ensures wallets == I.ParseAll(I.Listed(Ids(old(model)), identity))
      ensures var phase := old(PhaseOf(model, r));
        PhaseOf(model, r) == if wallets.Ok? then Read(phase.account, phase.checks, identity, wallets.value) else Done(Broken)
    {
      wallets := ids.Wallets(identity);
      ReachableOn(config, model, ReadWallets(r));
      model := Next(config, model, ReadWallets(r));
    }

    /** issuer.Issue; what is in the token is its response. */
    method MintToken(ghost r: nat)
      requires Valid() && Enabled(config, model, HubMachine.Mint(r))
      modifies this`model
      ensures Valid() && model == Next(config, old(model), HubMachine.Mint(r))
    {
      ReachableOn(config, model, HubMachine.Mint(r));
      model := Next(config, model, HubMachine.Mint(r));
    }

    /** ids.LinkWallet, or nothing when verification failed. */
    method AttachAccount(ghost r: nat, identity: string, result: Result<Identity, Failure>) returns (response: Response)
      requires Valid() && Enabled(config, model, Attach(r)) && PhaseOf(model, r).result == result
      requires model.requests[r].request.kind == LinkTo(identity)
      modifies this`model, ids
      ensures Valid() && model == Next(config, old(model), Attach(r))
      ensures PhaseOf(model, r) == Done(response)
    {
      if result.Err? {
        response := Refused(result.error);
      } else {
        var found := ids.LinkWallet(identity, result.value.account);
        Histories.OneMore(I.Apply, I.EMPTY, model.idLog, I.Link(identity, result.value.account));
        response := if found then Linked(result.value.account) else Broken;
      }
      ReachableOn(config, model, Attach(r));
      model := Next(config, model, Attach(r));
    }

    // ----- The handlers -----

    /** What both handlers do first: validate, burn the cookie's nonce, verify, and report. */
    method Admit(ghost r: nat, request: Request, now: N.Time, attempt: string, clock: Clock)
      returns (refused: Option<Response>, result: Result<Identity, Failure>, ghost moves: seq<Move>)
      requires Valid() && Servable(config, model, r, request, now, attempt)
      modifies this`model, nonces, recorder
      ensures Valid() && Plays(config, old(model), moves, model, r, request) && model.idLog == old(model.idLog)
      ensures if refused.Some? then PhaseOf(model, r) == Done(refused.value)
              else Reported(PhaseOf(model, r)) && PhaseOf(model, r).attempt == attempt && PhaseOf(model, r).result == result
    {
      result := Err({});
      ghost var start := model;
      var chain := ParseCAIP2(request.chain);
      ModelsNext(config, model, Arrive(r, request), nonces.entries, ids.State(), recorder.checks, wallets.owners,
                 registry.verifiers);
      Arrives(config, start, r, request);
      model := Next(config, model, Arrive(r, request));
      moves := [Arrive(r, request)];
      if chain.Err? {
        return Some(Refused({ErrMalformed})), result, moves;
      }
      if request.cookie == "" {
        return Some(Refused({ErrNonceMismatch})), result, moves;
      }
      PlaysOn(config, start, moves, model, r, request, Burn(r, now));
      var ok := BurnCookie(r, request.cookie, now);
      moves := moves + [Burn(r, now)];
      if !ok {
        return Some(Refused({ErrNonceMismatch})), result, moves;
      }
      result, moves := Examine(r, request, chain.value, attempt, clock, start, moves);
      refused := None;
    }

    /** Verification and its reports. */
    method Examine(ghost r: nat, request: Request, chain: CAIP2, attempt: string, clock: Clock, ghost start: Hub,
                   ghost before: seq<Move>)
      returns (result: Result<Identity, Failure>, ghost moves: seq<Move>)
      requires Valid() && Plays(config, start, before, model, r, request) && PhaseOf(model, r) == Burnt(chain)
      requires attempt !in model.attempts
      modifies this`model, recorder
      ensures Valid() && Plays(config, start, moves, model, r, request) && model.idLog == old(model.idLog)
      ensures Reported(PhaseOf(model, r)) && PhaseOf(model, r).attempt == attempt && PhaseOf(model, r).result == result
    {
      PlaysOn(config, start, before, model, r, request, Verify(r, attempt, clock));
      var events;
      result, events := VerifyMessage(r, request, chain, attempt, clock);
      moves := before + [Verify(r, attempt, clock)];
      ghost var verified := model;
      moves := ReportAll(r, events, start, moves);
      OnlyMovesOn(start, verified, model, r);
    }

    /** postVerify, from the decoded body on. */
    method PostVerify(ghost r: nat, request: Request, now: N.Time, attempt: string, clock: Clock, newId: string)
      returns (response: Response, ghost moves: seq<Move>)
      requires Valid() && Servable(config, model, r, request, now, attempt) && request.kind.SignIn?
      requires newId !in Ids(model).wallets
      modifies this`model, nonces, ids, recorder
      ensures Valid() && Plays(config, old(model), moves, model, r, request)
      ensures PhaseOf(model, r) == Done(response)
    {
      ghost var start := model;
      var refused, result;
      refused, result, moves := Admit(r, request, now, attempt, clock);
      if refused.Some? {
        return refused.value, moves;
      }
      PlaysOn(config, start, moves, model, r, request, HubMachine.Drain(r));
      var checks := DrainTrail(r, attempt, result);
      moves := moves + [HubMachine.Drain(r)];
      if result.Err? {
        return Refused(result.error), moves;
      }
      response, moves := Welcome(r, request, result.value.account, checks, newId, start, moves);
    }

    /** The identity and its wallets. */
    method Enrol(ghost r: nat, request: Request, account: CAIP10, newId: string, ghost start: Hub, ghost before: seq<Move>)
      returns (identity: string, wallets: Result<seq<CAIP10>, CaipError>, ghost moves: seq<Move>)
      requires Valid() && Plays(config, start, before, model, r, request)
      requires PhaseOf(model, r).Verified? && PhaseOf(model, r).account == account && newId !in Ids(model).wallets
      modifies this`model, ids
      ensures Valid() && Plays(config, start, moves, model, r, request)
      ensures moves == before + [HubMachine.Upsert(r, newId), ReadWallets(r)]
      ensures PhaseOf(model, r) ==
        if wallets.Ok? then Read(account, old(PhaseOf(model, r)).checks, identity, wallets.value) else Done(Broken)
    {
      PlaysOn(config, start, before, model, r, request, HubMachine.Upsert(r, newId));
      identity := UpsertAccount(r, account, newId);
      ghost var first := before + [HubMachine.Upsert(r, newId)];
      PlaysOn(config, start, first, model, r, request, ReadWallets(r));
      wallets := WalletsOf(r, identity);
      moves := first + [ReadWallets(r)];
      TwoMore(before, HubMachine.Upsert(r, newId), ReadWallets(r));
    }

    /** The identity, its wallets, and the token. */
    method Welcome(ghost r: nat, request: Request, account: CAIP10, checks: seq<R.CheckInfo>, newId: string, ghost start: Hub,
                   ghost before: seq<Move>)
      returns (response: Response, ghost moves: seq<Move>)
      requires Valid() && Plays(config, start, before, model, r, request) && PhaseOf(model, r) == Verified(account, checks)
      requires newId !in Ids(model).wallets
      modifies this`model, ids
      ensures Valid() && Plays(config, start, moves, model, r, request) && PhaseOf(model, r) == Done(response)
      ensures moves == before + [HubMachine.Upsert(r, newId), ReadWallets(r)] + if response.Token? then [HubMachine.Mint(r)] else []
    {
      var identity, wallets;
      identity, wallets, moves := Enrol(r, request, account, newId, start, before);
      if wallets.Err? {
        response := Broken;
      } else {
        PlaysOn(config, start, moves, model, r, request, HubMachine.Mint(r));
        MintToken(r);
        moves := moves + [HubMachine.Mint(r)];
        response := Token(identity, wallets.value, checks);
      }
    }

    /** postLink, for the identity of the bearer token. */
    method PostLink(ghost r: nat, request: Request, now: N.Time, attempt: string, clock: Clock)
      returns (response: Response, ghost moves: seq<Move>)
      requires Valid() && Servable(config, model, r, request, now, attempt) && request.kind.LinkTo?
      modifies this`model, nonces, ids, recorder
      ensures Valid() && Plays(config, old(model), moves, model, r, request)
      ensures PhaseOf(model, r) == Done(response)
    {
      ghost var start := model;
      var refused, result;
      refused, result, moves := Admit(r, request, now, attempt, clock);
      if refused.Some? {
        return refused.value, moves;
      }
      PlaysOn(config, start, moves, model, r, request, Attach(r));
      response := AttachAccount(r, request.kind.identity, result);
      moves := moves + [Attach(r)];
    }
  }

  /** A new request, with a clock reading for its burn and a fresh attempt id. */
  ghost predicate Servable(c: Config, h: Hub, r: nat, request: Request, now: N.Time, attempt: string) {
    Enabled(c, h, Arrive(r, request)) && NonceOpAllowed(h, N.Burn(request.cookie, now)) && attempt !in h.attempts
  }

  /** Every move is the arrival of this request or a later move of it. */
  ghost predicate AllOf(moves: seq<Move>, r: nat, request: Request) {
    forall i :: 0 <= i < |moves| ==> moves[i] == Arrive(r, request) || MoveOf(moves[i], r)
  }

  /** The moves lead from h0 to h, are all of request r, and touch no other request. */
  ghost predicate Plays(c: Config, h0: Hub, moves: seq<Move>, h: Hub, r: nat, request: Request) {
    && Play(c, h0, moves) == Some(h) && AllOf(moves, r, request)
    && In(h, r) && OnlyMoves(h0, h, r) && h.requests[r].request == request
  }

  lemma PlaysOn(c: Config, h0: Hub, moves: seq<Move>, h: Hub, r: nat, request: Request, move: Move)
    requires Plays(c, h0, moves, h, r, request) && Enabled(c, h, move) && MoveOf(move, r)
    ensures Plays(c, h0, moves + [move], Next(c, h, move), r, request)
  {
    PlayOn(c, h0, moves, h, move);
    MovesOne(c, h, r, move);
    OnlyMovesOn(h0, h, Next(c, h, move), r);
  }

  lemma OnlyMovesOn(h0: Hub, h: Hub, h': Hub, r: nat)
    requires OnlyMoves(h0, h, r) && OnlyMoves(h, h', r)
    ensures OnlyMoves(h0, h', r)
  {
  }

  lemma Arrives(c: Config, h: Hub, r: nat, request: Request)
    requires Enabled(c, h, Arrive(r, request))
    ensures Plays(c, h, [Arrive(r, request)], Next(c, h, Arrive(r, request)), r, request)
  {
    assert [] + [Arrive(r, request)] == [Arrive(r, request)];
    PlayOn(c, h, [], h, Arrive(r, request));
  }

  lemma TwoMore(moves: seq<Move>, a: Move, b: Move)
    ensures moves + [a] + [b] == moves + [a, b]
  {
  }

  lemma Alone(o: Observer)
    ensures multiset([o])[o] == 1
  {
  }

  /** From h0 to h request r has only reported, and what is left of its trail is what the events hold. */
  ghost predicate ReportsAhead(c: Config, start: Hub, moves: seq<Move>, h0: Hub, h: Hub, r: nat, events: seq<Event>) {
    && Play(c, start, moves) == Some(h) && In(h, r) && AllOf(moves, r, h.requests[r].request)
    && In(h0, r) && OnlyMoves(h0, h, r) && h.requests[r].request == h0.requests[r].request
    && h.nonceLog == h0.nonceLog && h.idLog == h0.idLog
    && PhaseOf(h0, r).Reporting? && PhaseOf(h, r).Reporting?
    && PhaseOf(h, r) == PhaseOf(h0, r).(sent := PhaseOf(h, r).sent)
    && PhaseOf(h, r).sent <= |PhaseOf(h, r).trail|
    && PhaseOf(h, r).trail[PhaseOf(h, r).sent..] == TrailOf(events)
    && OneId(events, PhaseOf(h, r).attempt)
  }

  lemma NextReport(c: Config, start: Hub, moves: seq<Move>, h0: Hub, h: Hub, r: nat, events: seq<Event>)
    requires ReportsAhead(c, start, moves, h0, h, r, events) && events != [] && events[0].Checked?
    ensures Enabled(c, h, Record(r))
    ensures PhaseOf(h, r).attempt == events[0].id
    ensures PhaseOf(h, r).trail[PhaseOf(h, r).sent] == R.CheckInfo(events[0].check, events[0].ok)
    ensures ReportsAhead(c, start, moves + [Record(r)], h0, Next(c, h, Record(r)), r, events[1..])
  {
    var phase := PhaseOf(h, r);
    var rest := phase.trail[phase.sent..];
    assert rest[0] == phase.trail[phase.sent] && rest[1..] == phase.trail[phase.sent + 1..];
    PlayOn(c, start, moves, h, Record(r));
    forall i | 0 <= i < |events[1..]| ensures events[1..][i].id == phase.attempt { assert events[1..][i] == events[i + 1]; }
  }

  lemma NoReport(c: Config, start: Hub, moves: seq<Move>, h0: Hub, h: Hub, r: nat, events: seq<Event>)
    requires ReportsAhead(c, start, moves, h0, h, r, events) && events != [] && !events[0].Checked?
    ensures ReportsAhead(c, start, moves, h0, h, r, events[1..])
  {
    forall i | 0 <= i < |events[1..]| ensures events[1..][i].id == events[0].id { assert events[1..][i] == events[i + 1]; }
  }
}
