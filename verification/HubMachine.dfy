/**
 * examples/hub/handlers.go: requests to the hub as a state machine. A move is one critical section of one request, or
 * one verification; requests interleave in any way. The stores are given by what they have been through.
 */
module HubMachine {
  import opened Wrappers
  import opened VerifyOpts
  import opened Caip
  import opened Events
  import opened Erc1271
  import opened Registry
  import SiwsVerify
  import EvmAdapter
  import EvmTheorems
  import N = NonceStore
  import I = IdentityStore
  import R = Recorder

  /** The hub's domain, and the foreign parts behind its two verifiers. */
  datatype Config = Config(domain: string, siws: SiwsVerify.Env, evm: EvmAdapter.EvmEnv, demo: bool,
                           derive: Address -> Address, recover: Recover)

  const NONCE_TTL := 600_000_000_000

  /** A link request carries the identity of its bearer token. */
  datatype Kind = SignIn | LinkTo(identity: string)

  /** Body and cookie as the client sent them, after base64. */
  datatype Request = Request(kind: Kind, chain: string, msg: string, sig: seq<byte>, cookie: string)

  datatype Response =
    | Refused(errors: Failure)
    | Broken
    | Token(identity: string, wallets: seq<CAIP10>, checks: seq<R.CheckInfo>)
    | Linked(account: CAIP10)

  datatype Phase =
    | Arrived(chain: CAIP2)
    | Burnt(chain: CAIP2)
    | Reporting(attempt: string, trail: seq<R.CheckInfo>, sent: nat, result: Result<Identity, Failure>)
    | Verified(account: CAIP10, checks: seq<R.CheckInfo>)
    | Upserted(account: CAIP10, checks: seq<R.CheckInfo>, identity: string)
    | Read(account: CAIP10, checks: seq<R.CheckInfo>, identity: string, wallets: seq<CAIP10>)
    | Done(response: Response)

  /** A request, how far it is, and where in the nonce log its successful burn stands. */
  datatype Progress = Progress(request: Request, phase: Phase, burn: Option<nat>)

  /** A minted token or a completed link of request r. */
  datatype Completion = Minted(r: nat, identity: string, account: CAIP10, wallets: seq<CAIP10>)
                      | Attached(r: nat, identity: string, account: CAIP10)

  datatype Hub = Hub(nonceLog: seq<N.Op>, idLog: seq<I.Action>, trailLog: seq<R.Op>, owners: map<Address, Address>,
                     attempts: map<string, nat>, requests: map<nat, Progress>, completed: seq<Completion>)

  const START := Hub([], [], [], map[], map[], map[], [])

  function Nonces(h: Hub): N.Entries { N.StateAt(h.nonceLog, |h.nonceLog|) }

  function Ids(h: Hub): I.Index { I.StateAt(h.idLog, |h.idLog|) }

  function Trail(h: Hub): R.Trail { R.StateAt(h.trailLog, |h.trailLog|) }

  function VerifiersOf(c: Config, owners: map<Address, Address>): Verifiers {
    var resolver := if c.demo then Some(EvmTheorems.DemoResolver(owners, c.recover)) else None;
    map["solana" := Solana(c.siws), "eip155" := Evm(c.evm.(resolver := resolver))]
  }

  /** The check results among the events of a run, as the recorder keeps them. */
  function TrailOf(events: seq<Event>): seq<R.CheckInfo> {
    if events == [] then []
    else
      var rest := TrailOf(events[1..]);
      if events[0].Checked? then [R.CheckInfo(events[0].check, events[0].ok)] + rest else rest
  }

  function RunOf(c: Config, owners: map<Address, Address>, request: Request, chain: CAIP2, attempt: string, clock: Clock): Run {
    RegistryRun(VerifiersOf(c, owners), chain, request.msg, request.sig,
                Opts(Expected(c.domain, request.cookie), attempt), clock)
  }

  // ----- Moves -----

  datatype Move =
    | Issue(nonce: string, sweepAt: N.Time, storeAt: N.Time)
    | RegisterWallet(owner: Address)
    | Arrive(r: nat, request: Request)
    | Burn(r: nat, now: N.Time)
    | Verify(r: nat, attempt: string, clock: Clock)
    | Record(r: nat)
    | Drain(r: nat)
    | Upsert(r: nat, newId: string)
    | ReadWallets(r: nat)
    | Mint(r: nat)
    | Attach(r: nat)

  predicate In(h: Hub, r: nat) {
    r in h.requests
  }

  function PhaseOf(h: Hub, r: nat): Phase
    requires In(h, r)
  {
    h.requests[r].phase
  }

  /** The bearer token of a link request was minted by this hub. */
  ghost predicate Authenticated(h: Hub, kind: Kind) {
    kind.LinkTo? ==> exists i :: 0 <= i < |h.completed| && h.completed[i].Minted? && h.completed[i].identity == kind.identity
  }

  ghost predicate NonceOpAllowed(h: Hub, op: N.Op) {
    N.FreshNonces(h.nonceLog + [op]) && N.ClockMovesOn(h.nonceLog + [op])
  }

  /** What may happen next: each handler's order, fresh random values, and a clock that does not go back. */
  ghost predicate Enabled(c: Config, h: Hub, move: Move) {
    match move
    case Issue(nonce, sweepAt, storeAt) => NonceOpAllowed(h, N.Issue(nonce, sweepAt, storeAt, NONCE_TTL))
    case RegisterWallet(_) => c.demo
    case Arrive(r, request) => !In(h, r) && Authenticated(h, request.kind)
    case Burn(r, now) => In(h, r) && PhaseOf(h, r).Arrived? && NonceOpAllowed(h, N.Burn(h.requests[r].request.cookie, now))
    case Verify(r, attempt, _) => In(h, r) && PhaseOf(h, r).Burnt? && attempt !in h.attempts
    case Record(r) => In(h, r) && PhaseOf(h, r).Reporting? && PhaseOf(h, r).sent < |PhaseOf(h, r).trail|
    case Drain(r) => In(h, r) && Reported(PhaseOf(h, r)) && h.requests[r].request.kind.SignIn?
    case Upsert(r, newId) => In(h, r) && PhaseOf(h, r).Verified? && newId !in Ids(h).wallets
    case ReadWallets(r) => In(h, r) && PhaseOf(h, r).Upserted?
    case Mint(r) => In(h, r) && PhaseOf(h, r).Read?
    case Attach(r) => In(h, r) && Reported(PhaseOf(h, r)) && h.requests[r].request.kind.LinkTo?
  }

  predicate Reported(phase: Phase) {
    phase.Reporting? && phase.sent >= |phase.trail|
  }

  function Put(h: Hub, r: nat, phase: Phase): Hub
    requires In(h, r)
  {
    h.(requests := h.requests[r := h.requests[r].(phase := phase)])
  }

  /** Validation before any store is touched. */
  function Entry(request: Request): Phase {
    var chain := ParseCAIP2(request.chain);
    if chain.Err? then Done(Refused({ErrMalformed}))
    else if request.cookie == "" then Done(Refused({ErrNonceMismatch}))
    else Arrived(chain.value)
  }

  function AfterBurn(h: Hub, r: nat, now: N.Time): Hub
    requires In(h, r) && PhaseOf(h, r).Arrived?
  {
    var p := h.requests[r];
    var ok := N.Live(Nonces(h), p.request.cookie, now);
    var phase := if ok then Burnt(p.phase.chain) else Done(Refused({ErrNonceMismatch}));
    h.(nonceLog := h.nonceLog + [N.Burn(p.request.cookie, now)],
       requests := h.requests[r := Progress(p.request, phase, if ok then Some(|h.nonceLog|) else None)])
  }

  function AfterVerify(c: Config, h: Hub, r: nat, attempt: string, clock: Clock): Hub
    requires In(h, r) && PhaseOf(h, r).Burnt?
  {
    var run := RunOf(c, h.owners, h.requests[r].request, PhaseOf(h, r).chain, attempt, clock);
    Put(h.(attempts := h.attempts[attempt := r]), r, Reporting(attempt, TrailOf(run.events), 0, run.result))
  }

  function AfterRecord(h: Hub, r: nat): Hub
    requires In(h, r) && PhaseOf(h, r).Reporting? && PhaseOf(h, r).sent < |PhaseOf(h, r).trail|
  {
    var phase := PhaseOf(h, r);
    Put(h.(trailLog := h.trailLog + [R.Check(phase.attempt, phase.trail[phase.sent])]), r, phase.(sent := phase.sent + 1))
  }

  function AfterDrain(h: Hub, r: nat): Hub
    requires In(h, r) && PhaseOf(h, r).Reporting?
  {
    var phase := PhaseOf(h, r);
    Put(h.(trailLog := h.trailLog + [R.Drain(phase.attempt)]), r,
        if phase.result.Ok? then Verified(phase.result.value.account, R.At(Trail(h), phase.attempt))
        else Done(Refused(phase.result.error)))
  }

  function AfterUpsert(h: Hub, r: nat, newId: string): Hub
    requires In(h, r) && PhaseOf(h, r).Verified?
  {
    var phase := PhaseOf(h, r);
    var key := String(phase.account);
    Put(h.(idLog := h.idLog + [I.Upsert(phase.account, newId)]), r,
        Upserted(phase.account, phase.checks, I.Upserted(Ids(h), key, newId)))
  }

  function AfterRead(h: Hub, r: nat): Hub
    requires In(h, r) && PhaseOf(h, r).Upserted?
  {
    var phase := PhaseOf(h, r);
    var wallets := I.ParseAll(I.Listed(Ids(h), phase.identity));
    Put(h, r, if wallets.Ok? then Read(phase.account, phase.checks, phase.identity, wallets.value) else Done(Broken))
  }

  function AfterMint(h: Hub, r: nat): Hub
    requires In(h, r) && PhaseOf(h, r).Read?
  {
    var phase := PhaseOf(h, r);
    Put(h.(completed := h.completed + [Minted(r, phase.identity, phase.account, phase.wallets)]), r,
        Done(Token(phase.identity, phase.wallets, phase.checks)))
  }

  function AfterAttach(h: Hub, r: nat): Hub
    requires In(h, r) && PhaseOf(h, r).Reporting? && h.requests[r].request.kind.LinkTo?
  {
    var phase, identity := PhaseOf(h, r), h.requests[r].request.kind.identity;
    if phase.result.Err? then Put(h, r, Done(Refused(phase.result.error)))
    else
      var account := phase.result.value.account;
      var after := h.(idLog := h.idLog + [I.Link(identity, account)]);
      if identity !in Ids(h).wallets then Put(after, r, Done(Broken))
      else Put(after.(completed := h.completed + [Attached(r, identity, account)]), r, Done(Linked(account)))
  }

  function Next(c: Config, h: Hub, move: Move): Hub
    requires Enabled(c, h, move)
  {
    match move
    case Issue(nonce, sweepAt, storeAt) => h.(nonceLog := h.nonceLog + [N.Issue(nonce, sweepAt, storeAt, NONCE_TTL)])
    case RegisterWallet(owner) => h.(owners := h.owners[c.derive(owner) := owner])
    case Arrive(r, request) => h.(requests := h.requests[r := Progress(request, Entry(request), None)])
    case Burn(r, now) => AfterBurn(h, r, now)
    case Verify(r, attempt, clock) => AfterVerify(c, h, r, attempt, clock)
    case Record(r) => AfterRecord(h, r)
    case Drain(r) => AfterDrain(h, r)
    case Upsert(r, newId) => AfterUpsert(h, r, newId)
    case ReadWallets(r) => AfterRead(h, r)
    case Mint(r) => AfterMint(h, r)
    case Attach(r) => AfterAttach(h, r)
  }

  // ----- Moves of one request -----

  /** Only request r has moved. */
  ghost predicate OnlyMoves(h: Hub, h': Hub, r: nat) {
    forall s :: s != r ==> (In(h', s) <==> In(h, s)) && (In(h, s) ==> h'.requests[s] == h.requests[s])
  }

  /** The moves of request r after its arrival. */
  predicate MoveOf(move: Move, r: nat) {
    !move.Issue? && !move.RegisterWallet? && !move.Arrive? && move.r == r
  }

  lemma MovesOne(c: Config, h: Hub, r: nat, move: Move)
    requires Enabled(c, h, move) && MoveOf(move, r)
    ensures Moves(h, Next(c, h, move), r)
  {
    match move
    case Burn(_, _) => ChecksMoveOne(c, h, r, move);
    case Verify(_, _, _) => ChecksMoveOne(c, h, r, move);
    case Record(_) => ReportsMoveOne(c, h, r, move);
    case Drain(_) => ReportsMoveOne(c, h, r, move);
    case Attach(_) => AttachMovesOne(h, r);
    case _ => StoresMoveOne(c, h, r, move);
  }

  /** Request r has moved, and no other. */
  ghost predicate Moves(h: Hub, h': Hub, r: nat) {
    In(h, r) && In(h', r) && OnlyMoves(h, h', r) && h'.requests[r].request == h.requests[r].request
  }

  lemma MovesPut(h: Hub, h': Hub, r: nat, p: Progress)
    requires In(h, r) && h'.requests == h.requests[r := p] && p.request == h.requests[r].request
    ensures Moves(h, h', r)
  {
  }

  lemma ChecksMoveOne(c: Config, h: Hub, r: nat, move: Move)
    requires Enabled(c, h, move) && (move.Burn? || move.Verify?) && move.r == r
    ensures Moves(h, Next(c, h, move), r)
  {
    var h' := Next(c, h, move);
    MovesPut(h, h', r, h'.requests[r]);
  }

  lemma ReportsMoveOne(c: Config, h: Hub, r: nat, move: Move)
    requires Enabled(c, h, move) && (move.Record? || move.Drain?) && move.r == r
    ensures Moves(h, Next(c, h, move), r)
  {
    var h' := Next(c, h, move);
    MovesPut(h, h', r, h'.requests[r]);
  }

  lemma StoresMoveOne(c: Config, h: Hub, r: nat, move: Move)
    requires Enabled(c, h, move) && (move.Upsert? || move.ReadWallets? || move.Mint?) && move.r == r
    ensures Moves(h, Next(c, h, move), r)
  {
    var h' := Next(c, h, move);
    MovesPut(h, h', r, h'.requests[r]);
  }

  lemma AttachMovesOne(h: Hub, r: nat)
    requires In(h, r) && PhaseOf(h, r).Reporting? && h.requests[r].request.kind.LinkTo?
    ensures Moves(h, AfterAttach(h, r), r)
  {
    var h' := AfterAttach(h, r);
    MovesPut(h, h', r, h'.requests[r]);
  }

  /** A run of the hub. */
  ghost predicate IsRun(c: Config, states: seq<Hub>, moves: seq<Move>) {
    && |states| == |moves| + 1 && states[0] == START
    && forall i :: 0 <= i < |moves| ==> Enabled(c, states[i], moves[i]) && states[i + 1] == Next(c, states[i], moves[i])
  }

  ghost predicate Reachable(c: Config, h: Hub) {
    exists states, moves :: IsRun(c, states, moves) && states[|moves|] == h
  }

  lemma ReachableOn(c: Config, h: Hub, move: Move)
    requires Reachable(c, h) && Enabled(c, h, move)
    ensures Reachable(c, Next(c, h, move))
  {
    var states, moves :| IsRun(c, states, moves) && states[|moves|] == h;
    var states', moves' := states + [Next(c, h, move)], moves + [move];
    forall i | 0 <= i < |moves'| ensures Enabled(c, states'[i], moves'[i]) && states'[i + 1] == Next(c, states'[i], moves'[i]) {
      if i < |moves| { assert states'[i + 1] == states[i + 1] && moves'[i] == moves[i]; }
    }
    assert IsRun(c, states', moves');
  }
}
