/** Which accounts the hub handles, in every run: those its verifiers have returned for a request of the run. */
module HubAccounts {
  import opened VerifyOpts
  import opened Caip
  import opened Events
  import opened RegistryTheorems
  import opened HubMachine
  import opened HubInvariants
  import I = IdentityStore

  // ----- Every account in the hub goes back to a verification -----

  /** This verification accepts its request for this account. */
  ghost predicate Vouches(c: Config, h: Hub, move: Move, account: CAIP10) {
    move.Verify? && In(h, move.r) && PhaseOf(h, move.r).Burnt? && VouchingRun(c, h, move).result.Ok?
    && VouchingRun(c, h, move).result.value.account == account
  }

  function VouchingRun(c: Config, h: Hub, move: Move): Run
    requires move.Verify? && In(h, move.r) && PhaseOf(h, move.r).Burnt?
  {
    RunOf(c, h.owners, h.requests[move.r].request, PhaseOf(h, move.r).chain, move.attempt, move.clock)
  }

  /** Move j of the run does so for request r. */
  ghost predicate VouchesAt(c: Config, states: seq<Hub>, moves: seq<Move>, j: nat, r: nat, account: CAIP10) {
    j < |moves| && j < |states| && moves[j].Verify? && moves[j].r == r && Vouches(c, states[j], moves[j], account)
  }

  /** What the first k moves have verified, by request and account. */
  ghost function VouchedBy(c: Config, states: seq<Hub>, moves: seq<Move>, k: nat): (nat, CAIP10) -> bool {
    (r: nat, account: CAIP10) => exists j: nat :: j < k && VouchesAt(c, states, moves, j, r, account)
  }

  predicate AccountIs(phase: Phase, r: nat, P: (nat, CAIP10) -> bool) {
    match phase
    case Reporting(_, _, _, result) => result.Ok? ==> P(r, result.value.account)
    case Verified(account, _) => P(r, account)
    case Upserted(account, _, _) => P(r, account)
    case Read(account, _, _, _) => P(r, account)
    case _ => true
  }

  /** The account was verified for some request. */
  ghost predicate ForSome(P: (nat, CAIP10) -> bool, account: CAIP10) {
    exists r: nat :: P(r, account)
  }

  /** The accounts of requests under way, of tokens and links, and those ever written to the identity store. */
  ghost predicate AccountsAre(h: Hub, P: (nat, CAIP10) -> bool) {
    && (forall r :: In(h, r) ==> AccountIs(PhaseOf(h, r), r, P))
    && (forall i :: 0 <= i < |h.completed| ==> P(h.completed[i].r, h.completed[i].account))
    && (forall i :: 0 <= i < |h.idLog| ==> ForSome(P, h.idLog[i].w))
  }

  /** A move writes no account but this one of request r. */
  ghost predicate Writes(h: Hub, h': Hub, r: nat, P: (nat, CAIP10) -> bool) {
    && (h'.idLog == h.idLog || exists a: I.Action :: P(r, a.w) && h'.idLog == h.idLog + [a])
    && (h'.completed == h.completed ||
        exists done: Completion :: P(done.r, done.account) && h'.completed == h.completed + [done])
  }

  lemma AccountsFrame(h: Hub, h': Hub, r: nat, P: (nat, CAIP10) -> bool)
    requires AccountsAre(h, P) && forall s :: In(h', s) && s != r ==> In(h, s) && h'.requests[s] == h.requests[s]
    requires In(h', r) ==> AccountIs(PhaseOf(h', r), r, P)
    requires Writes(h, h', r, P)
    ensures AccountsAre(h', P)
  {
    forall s | In(h', s) ensures AccountIs(PhaseOf(h', s), s, P) {
      if s != r { assert In(h, s); }
    }
  }

  lemma AccountsVerify(c: Config, h: Hub, move: Move, P: (nat, CAIP10) -> bool)
    requires AccountsAre(h, P) && Enabled(c, h, move) && move.Verify?
    requires forall a :: Vouches(c, h, move, a) ==> P(move.r, a)
    ensures AccountsAre(Next(c, h, move), P)
  {
    var result := VouchingRun(c, h, move).result;
    assert result.Ok? ==> Vouches(c, h, move, result.value.account);
    AccountsFrame(h, Next(c, h, move), move.r, P);
  }

  /** After verification a request keeps its account. */
  lemma AccountKept(c: Config, h: Hub, move: Move, P: (nat, CAIP10) -> bool)
    requires Enabled(c, h, move) && LaterMove(move) && !move.Verify? && AccountIs(PhaseOf(h, move.r), move.r, P)
    ensures In(Next(c, h, move), move.r) && AccountIs(PhaseOf(Next(c, h, move), move.r), move.r, P)
  {
  }

  /** Only the account of the request is ever written to the identity store, to a token or to a link. */
  lemma AccountWritten(c: Config, h: Hub, move: Move, P: (nat, CAIP10) -> bool)
    requires Enabled(c, h, move) && LaterMove(move) && AccountIs(PhaseOf(h, move.r), move.r, P)
    ensures Writes(h, Next(c, h, move), move.r, P)
  {
    match move
    case Upsert(r, newId) => UpsertWrites(h, r, newId, P);
    case Mint(r) => MintWrites(h, r, P);
    case Attach(r) => AttachWrites(h, r, P);
    case _ =>
  }

  lemma UpsertWrites(h: Hub, r: nat, newId: string, P: (nat, CAIP10) -> bool)
    requires In(h, r) && PhaseOf(h, r).Verified? && P(r, PhaseOf(h, r).account)
    ensures Writes(h, AfterUpsert(h, r, newId), r, P)
  {
    var a := I.Upsert(PhaseOf(h, r).account, newId);
    assert P(r, a.w) && AfterUpsert(h, r, newId).idLog == h.idLog + [a];
  }

  lemma MintWrites(h: Hub, r: nat, P: (nat, CAIP10) -> bool)
    requires In(h, r) && PhaseOf(h, r).Read? && P(r, PhaseOf(h, r).account)
    ensures Writes(h, AfterMint(h, r), r, P)
  {
    var phase := PhaseOf(h, r);
    var done := Minted(r, phase.identity, phase.account, phase.wallets);
    assert P(done.r, done.account) && AfterMint(h, r).completed == h.completed + [done];
  }

  lemma AttachWrites(h: Hub, r: nat, P: (nat, CAIP10) -> bool)
    requires In(h, r) && PhaseOf(h, r).Reporting? && h.requests[r].request.kind.LinkTo? && AccountIs(PhaseOf(h, r), r, P)
    ensures Writes(h, AfterAttach(h, r), r, P)
  {
    var h', result, identity := AfterAttach(h, r), PhaseOf(h, r).result, h.requests[r].request.kind.identity;
    if result.Ok? {
      var a, done := I.Link(identity, result.value.account), Attached(r, identity, result.value.account);
      assert P(r, a.w) && h'.idLog == h.idLog + [a];
      assert P(done.r, done.account) && (identity in Ids(h).wallets ==> h'.completed == h.completed + [done]);
    }
  }

  lemma AccountsLater(c: Config, h: Hub, move: Move, P: (nat, CAIP10) -> bool)
    requires AccountsAre(h, P) && Enabled(c, h, move) && LaterMove(move) && !move.Verify?
    ensures AccountsAre(Next(c, h, move), P)
  {
    MovesOne(c, h, move.r, move);
    AccountKept(c, h, move, P);
    AccountWritten(c, h, move, P);
    AccountsFrame(h, Next(c, h, move), move.r, P);
  }

  lemma AccountsSame(h: Hub, h': Hub, P: (nat, CAIP10) -> bool)
    requires AccountsAre(h, P) && h'.requests == h.requests && h'.idLog == h.idLog && h'.completed == h.completed
    ensures AccountsAre(h', P)
  {
    forall r | In(h', r) ensures AccountIs(PhaseOf(h', r), r, P) { assert In(h, r); }
  }

  lemma AccountsNext(c: Config, h: Hub, move: Move, P: (nat, CAIP10) -> bool)
    requires AccountsAre(h, P) && Enabled(c, h, move)
    requires move.Verify? ==> forall a :: Vouches(c, h, move, a) ==> P(move.r, a)
    ensures AccountsAre(Next(c, h, move), P)
  {
    match move
    case Issue(_, _, _) => AccountsSame(h, Next(c, h, move), P);
    case RegisterWallet(_) => AccountsSame(h, Next(c, h, move), P);
    case Arrive(r, request) => AccountsFrame(h, Next(c, h, move), r, P);
    case Burn(r, _) => AccountsFrame(h, Next(c, h, move), r, P);
    case Verify(_, _, _) => AccountsVerify(c, h, move, P);
    case _ => AccountsLater(c, h, move, P);
  }

  lemma AccountsWeaken(h: Hub, P: (nat, CAIP10) -> bool, Q: (nat, CAIP10) -> bool)
    requires AccountsAre(h, P) && forall r, a :: P(r, a) ==> Q(r, a)
    ensures AccountsAre(h, Q)
  {
    forall i | 0 <= i < |h.idLog| ensures ForSome(Q, h.idLog[i].w) {
      assert ForSome(P, h.idLog[i].w);
      var r: nat :| P(r, h.idLog[i].w);
      assert Q(r, h.idLog[i].w);
    }
    forall r | In(h, r) ensures AccountIs(PhaseOf(h, r), r, Q) { assert AccountIs(PhaseOf(h, r), r, P); }
  }

  /** In every run each account was verified by an earlier move of its request. */
  lemma {:induction false} AccountsRun(c: Config, states: seq<Hub>, moves: seq<Move>, k: nat)
    requires IsRun(c, states, moves) && k <= |moves|
    ensures AccountsAre(states[k], VouchedBy(c, states, moves, k))
  {
    if k > 0 {
      var before, now := VouchedBy(c, states, moves, k - 1), VouchedBy(c, states, moves, k);
      AccountsRun(c, states, moves, k - 1);
      AccountsWeaken(states[k - 1], before, now);
      LastVouches(c, states, moves, k - 1, now);
      AccountsNext(c, states[k - 1], moves[k - 1], now);
    }
  }

  lemma LastVouches(c: Config, states: seq<Hub>, moves: seq<Move>, j: nat, now: (nat, CAIP10) -> bool)
    requires j < |moves| && j < |states| && now == VouchedBy(c, states, moves, j + 1)
    ensures moves[j].Verify? ==> forall a :: Vouches(c, states[j], moves[j], a) ==> now(moves[j].r, a)
  {
    if moves[j].Verify? {
      var r := moves[j].r;
      forall a | Vouches(c, states[j], moves[j], a) ensures now(r, a) {
        assert VouchesAt(c, states, moves, j, r, a);
      }
    }
  }

  // ----- A property of accounts that verification establishes -----

  ghost predicate VerifiesOnly(c: Config, P: CAIP10 -> bool) {
    forall owners, request, chain, attempt, clock | RunOf(c, owners, request, chain, attempt, clock).result.Ok? ::
      P(RunOf(c, owners, request, chain, attempt, clock).result.value.account)
  }

  /** Of whichever request. */
  function Any(P: CAIP10 -> bool): (nat, CAIP10) -> bool {
    (r: nat, a: CAIP10) => P(a)
  }

  lemma AccountsVerified(c: Config, states: seq<Hub>, moves: seq<Move>, k: nat, P: CAIP10 -> bool)
    requires VerifiesOnly(c, P) && IsRun(c, states, moves) && k <= |moves|
    ensures AccountsAre(states[k], Any(P))
  {
    var V := VouchedBy(c, states, moves, k);
    AccountsRun(c, states, moves, k);
    forall r, a | V(r, a) ensures Any(P)(r, a) {
      var j: nat :| j < k && VouchesAt(c, states, moves, j, r, a);
      assert VouchingRun(c, states[j], moves[j]).result.value.account == a;
    }
    AccountsWeaken(states[k], V, Any(P));
  }

  lemma AccountsReachable(c: Config, h: Hub, P: CAIP10 -> bool)
    requires VerifiesOnly(c, P) && Reachable(c, h)
    ensures AccountsAre(h, Any(P))
  {
    var states, moves :| IsRun(c, states, moves) && states[|moves|] == h;
    AccountsVerified(c, states, moves, |moves|, P);
  }

  // ----- Accounts whose text splits back into its parts -----

  /** Address.Hex prints no colon. */
  ghost predicate PlainHex(c: Config) {
    forall a :: ':' !in c.evm.hex(a)
  }

  predicate PlainAccount(a: CAIP10) {
    ':' !in a.chainId.ns && ':' !in a.address
  }

  lemma PlainVerified(c: Config)
    requires PlainHex(c)
    ensures VerifiesOnly(c, PlainAccount)
  {
    forall owners, request: Request, chain, attempt, clock | RunOf(c, owners, request, chain, attempt, clock).result.Ok?
      ensures PlainAccount(RunOf(c, owners, request, chain, attempt, clock).result.value.account)
    {
      AccountPlain(VerifiersOf(c, owners), chain, request.msg, request.sig,
                   Opts(Expected(c.domain, request.cookie), attempt), clock);
    }
  }

  // ----- Accounts that are valid but perhaps for their reference -----

  /** Address.Hex prints what CAIP-10 takes for an address. */
  ghost predicate ProperHex(c: Config) {
    forall a :: Caip.ValidAddress(c.evm.hex(a))
  }

  predicate RegularAccount(a: CAIP10) {
    ValidNamespace(a.chainId.ns) && Caip.ValidAddress(a.address)
  }

  /** The text of such an account parses exactly when its reference is valid. */
  lemma RegularParses(a: CAIP10)
    requires RegularAccount(a)
    ensures ParseCAIP10(String(a)).Ok? <==> ValidReference(a.chainId.reference)
  {
    KeyParses(a);
  }

  lemma RegularVerified(c: Config)
    requires ProperHex(c)
    ensures VerifiesOnly(c, RegularAccount)
  {
    forall owners, request: Request, chain, attempt, clock | RunOf(c, owners, request, chain, attempt, clock).result.Ok?
      ensures RegularAccount(RunOf(c, owners, request, chain, attempt, clock).result.value.account)
    {
      AccountRegular(VerifiersOf(c, owners), chain, request.msg, request.sig,
                     Opts(Expected(c.domain, request.cookie), attempt), clock);
    }
  }

  // ----- Tokens list the account signed in with -----

  lemma ValidPlain(a: CAIP10)
    requires ValidCAIP10(a)
    ensures PlainAccount(a)
  {
  }

  /** If reading the wallets succeeds, the account whose key is listed is one of them. */
  lemma AccountRead(keys: seq<string>, account: CAIP10)
    requires String(account) in keys && PlainAccount(account) && I.ParseAll(keys).Ok?
    ensures account in I.ParseAll(keys).value
  {
    var wallets := I.ParseAll(keys).value;
    I.ParseAllExactly(keys, wallets);
    var i :| 0 <= i < |keys| && keys[i] == String(account);
    ValidPlain(wallets[i]);
    KeyInjective(account, wallets[i]);
  }

  ghost predicate TokenInv(h: Hub) {
    && (forall r :: In(h, r) && PhaseOf(h, r).Read? ==> PhaseOf(h, r).account in PhaseOf(h, r).wallets)
    && (forall i :: 0 <= i < |h.completed| && h.completed[i].Minted? ==> h.completed[i].account in h.completed[i].wallets)
  }

  lemma TokenRead(h: Hub, r: nat)
    requires TokenInv(h) && IdInv(h) && AccountsAre(h, Any(PlainAccount)) && In(h, r) && PhaseOf(h, r).Upserted?
    ensures TokenInv(AfterRead(h, r))
  {
    var phase, h' := PhaseOf(h, r), AfterRead(h, r);
    assert IdProgress(Ids(h), h.requests[r]) && AccountIs(phase, r, Any(PlainAccount));
    var keys := I.Listed(Ids(h), phase.identity);
    if I.ParseAll(keys).Ok? {
      AccountRead(keys, phase.account);
    }
    TokenFrame(h, h', r);
  }

  lemma TokenFrame(h: Hub, h': Hub, r: nat)
    requires TokenInv(h) && forall s :: In(h', s) && s != r ==> In(h, s) && h'.requests[s] == h.requests[s]
    requires In(h', r) && PhaseOf(h', r).Read? ==> PhaseOf(h', r).account in PhaseOf(h', r).wallets
    requires h'.completed == h.completed
    ensures TokenInv(h')
  {
  }

  lemma TokenMint(h: Hub, r: nat)
    requires TokenInv(h) && In(h, r) && PhaseOf(h, r).Read?
    ensures TokenInv(AfterMint(h, r))
  {
    var h', phase := AfterMint(h, r), PhaseOf(h, r);
    assert h'.completed == h.completed + [Minted(r, phase.identity, phase.account, phase.wallets)];
    TokenFrame(h, h'.(completed := h.completed), r);
  }

  lemma TokenAttach(h: Hub, r: nat)
    requires TokenInv(h) && In(h, r) && PhaseOf(h, r).Reporting? && h.requests[r].request.kind.LinkTo?
    ensures TokenInv(AfterAttach(h, r))
  {
    TokenFrame(h, AfterAttach(h, r).(completed := h.completed), r);
  }

  lemma TokenSame(h: Hub, h': Hub)
    requires TokenInv(h) && h'.requests == h.requests && h'.completed == h.completed
    ensures TokenInv(h')
  {
    forall r | In(h', r) && PhaseOf(h', r).Read? ensures PhaseOf(h', r).account in PhaseOf(h', r).wallets {
      assert In(h, r);
    }
  }

  lemma TokenNext(c: Config, h: Hub, move: Move)
    requires TokenInv(h) && IdInv(h) && AccountsAre(h, Any(PlainAccount)) && Enabled(c, h, move)
    ensures TokenInv(Next(c, h, move))
  {
    match move
    case Issue(_, _, _) => TokenSame(h, Next(c, h, move));
    case RegisterWallet(_) => TokenSame(h, Next(c, h, move));
    case Arrive(r, request) => TokenFrame(h, Next(c, h, move), r);
    case ReadWallets(r) => TokenRead(h, r);
    case Mint(r) => TokenMint(h, r);
    case Attach(r) => TokenAttach(h, r);
    case _ => TokenEarly(c, h, move);
  }

  lemma TokenEarly(c: Config, h: Hub, move: Move)
    requires TokenInv(h) && Enabled(c, h, move)
    requires move.Burn? || move.Verify? || move.Record? || move.Drain? || move.Upsert?
    ensures TokenInv(Next(c, h, move))
  {
    MovesOne(c, h, move.r, move);
    TokenFrame(h, Next(c, h, move), move.r);
  }

  lemma {:induction false} TokenRun(c: Config, states: seq<Hub>, moves: seq<Move>, k: nat)
    requires PlainHex(c) && IsRun(c, states, moves) && k <= |moves|
    ensures TokenInv(states[k])
  {
    if k > 0 {
      TokenRun(c, states, moves, k - 1);
      InvRun(c, states, moves, k - 1);
      PlainVerified(c);
      AccountsVerified(c, states, moves, k - 1, PlainAccount);
      TokenNext(c, states[k - 1], moves[k - 1]);
    }
  }
}
