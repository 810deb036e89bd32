/** No token and no link without a signature: every completion goes back to a sign-in that its signer made for this hub. */
module HubGenuine {
  import opened Wrappers
  import opened Timestamps
  import opened VerifyOpts
  import opened Caip
  import opened Erc1271
  import opened HubMachine
  import opened HubInvariants
  import opened HubAccounts
  import opened HubTheorems
  import SiwsMessage
  import SiwsVerify
  import SolanaAdapter
  import SolanaTheorems
  import EvmAdapter
  import EvmTheorems
  import RegistryTheorems

  /** The Solana key of the account has signed this text, for the hub's domain and the cookie's nonce, and it is current. */
  ghost predicate SolanaSigned(c: Config, request: Request, m: SiwsMessage.Message, now: Instant, account: CAIP10) {
    SiwsVerify.Genuine(m, request.msg, request.sig, Expected(c.domain, request.cookie), now, c.siws)
    && account == SolanaAdapter.Identify(m).account
  }

  function EvmEnvOf(c: Config, owners: map<Address, Address>): EvmAdapter.EvmEnv {
    c.evm.(resolver := if c.demo then Some(EvmTheorems.DemoResolver(owners, c.recover)) else None)
  }

  /** Likewise for an Ethereum address, with the wallets registered at the time. */
  ghost predicate EvmSigned(c: Config, owners: map<Address, Address>, request: Request, attempt: string,
                            m: EvmAdapter.SiweMessage, now: Instant, account: CAIP10)
  {
    var env := EvmEnvOf(c, owners);
    && env.parse(request.msg) == Some(m)
    && EvmTheorems.Admissible(m, request.sig, Opts(Expected(c.domain, request.cookie), attempt), now, env)
    && account == EvmAdapter.Identify(m, env).account
  }

  /** The sign-in of this request is genuine as its namespace demands, at the clock readings of its verification. */
  ghost predicate Signed(c: Config, h: Hub, move: Move, request: Request, account: CAIP10)
    requires move.Verify?
  {
    if account.chainId.ns == "solana" then exists m :: SolanaSigned(c, request, m, move.clock(2), account)
    else exists m :: EvmSigned(c, h.owners, request, move.attempt, m, move.clock(0), account)
  }

  lemma SolanaVouches(c: Config, request: Request, attempt: string, clock: Clock, account: CAIP10)
    requires var run := SolanaAdapter.SolanaRun(request.msg, request.sig, Opts(Expected(c.domain, request.cookie), attempt),
                                                clock, c.siws);
      run.result.Ok? && run.result.value.account == account
    ensures exists m :: SolanaSigned(c, request, m, clock(2), account)
  {
    var opts := Opts(Expected(c.domain, request.cookie), attempt);
    var m := SolanaTheorems.AcceptedIsGenuine(request.msg, request.sig, opts, clock, c.siws);
    assert SolanaSigned(c, request, m, clock(2), account);
  }

  lemma EvmVouches(c: Config, owners: map<Address, Address>, request: Request, attempt: string, clock: Clock, account: CAIP10)
    requires var run := EvmAdapter.EvmRun(request.msg, request.sig, Opts(Expected(c.domain, request.cookie), attempt),
                                          clock, EvmEnvOf(c, owners));
      run.result.Ok? && run.result.value.account == account
    ensures exists m :: EvmSigned(c, owners, request, attempt, m, clock(0), account)
  {
    var opts, env := Opts(Expected(c.domain, request.cookie), attempt), EvmEnvOf(c, owners);
    var m := env.parse(request.msg).value;
    EvmTheorems.AcceptsAdmissible(request.msg, request.sig, opts, clock, env, m);
    assert EvmSigned(c, owners, request, attempt, m, clock(0), account);
  }

  lemma VouchesSigned(c: Config, h: Hub, move: Move, account: CAIP10)
    requires Vouches(c, h, move, account)
    ensures Signed(c, h, move, h.requests[move.r].request, account)
  {
    var request, chain := h.requests[move.r].request, PhaseOf(h, move.r).chain;
    var verifiers := VerifiersOf(c, h.owners);
    if chain.ns == "solana" {
      SolanaVouches(c, request, move.attempt, move.clock, account);
    } else {
      assert chain.ns in verifiers;
      EvmVouches(c, h.owners, request, move.attempt, move.clock, account);
    }
    RegistryTheorems.AcceptedIdentity(verifiers, chain, request.msg, request.sig,
                                      Opts(Expected(c.domain, request.cookie), move.attempt), move.clock);
  }

  /**
   * Every token and every link goes back to a verification of its own request by an earlier move, at which the sign-in
   * was genuine for the hub's domain and for a nonce that the request had already burnt.
   */
  lemma CompletionSigned(c: Config, states: seq<Hub>, moves: seq<Move>, k: nat, i: nat) returns (j: nat)
    requires IsRun(c, states, moves) && k <= |moves| && i < |states[k].completed|
    ensures j < k && moves[j].Verify? && moves[j].r == states[k].completed[i].r
    ensures var (done, h) := (states[k].completed[i], states[j]);
      && In(h, done.r) && In(states[k], done.r) && h.requests[done.r].request == states[k].requests[done.r].request
      && Holds(h.nonceLog, h.requests[done.r]) && Signed(c, h, moves[j], h.requests[done.r].request, done.account)
  {
    var done := states[k].completed[i];
    j := CompletionVouched(c, states, moves, k, done);
    VouchesSigned(c, states[j], moves[j], done.account);
    RunLasts(c, states, moves, j, k);
    InvRun(c, states, moves, j);
  }

  lemma CompletionVouched(c: Config, states: seq<Hub>, moves: seq<Move>, k: nat, done: Completion) returns (j: nat)
    requires IsRun(c, states, moves) && k <= |moves| && done in states[k].completed
    ensures j < k && VouchesAt(c, states, moves, j, done.r, done.account)
  {
    AccountsRun(c, states, moves, k);
    assert VouchedBy(c, states, moves, k)(done.r, done.account);
    j :| j < k && VouchesAt(c, states, moves, j, done.r, done.account);
  }

  // ----- Contract wallets -----

  lemma {:induction false} OwnersDerived(c: Config, states: seq<Hub>, moves: seq<Move>, k: nat)
    requires IsRun(c, states, moves) && k <= |moves|
    ensures Derived(states[k].owners, c.derive)
  {
    if k > 0 {
      OwnersDerived(c, states, moves, k - 1);
      OwnersNext(c, states[k - 1], moves[k - 1]);
    }
  }

  lemma OwnersNext(c: Config, h: Hub, move: Move)
    requires Derived(h.owners, c.derive) && Enabled(c, h, move)
    ensures Derived(Next(c, h, move).owners, c.derive)
  {
  }

  /** A sign-in with a registered wallet was signed by an address from which the wallet's address is derived. */
  lemma WalletSigned(c: Config, owners: map<Address, Address>, request: Request, attempt: string, m: EvmAdapter.SiweMessage,
                     now: Instant, account: CAIP10)
    requires c.demo && Derived(owners, c.derive) && |c.evm.textHash(m)| == 32
    requires EvmSigned(c, owners, request, attempt, m, now, account) && m.address in owners
    ensures var signer := EvmTheorems.SignerSeen(c.evm.textHash(m), request.sig, c.recover);
      signer.Some? && c.derive(signer.value) == m.address
  {
    EvmTheorems.DemoVerdict(m, request.sig, EvmEnvOf(c, owners), owners, c.recover);
    assert c.derive(owners[m.address]) == m.address;
  }
}
