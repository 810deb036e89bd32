/** What the EVM adapter promises: one trace shape, acceptance without an order, and contract wallets end to end. */
module EvmTheorems {
  import opened Wrappers
  import opened Timestamps
  import opened VerifyOpts
  import opened Events
  import opened Erc1271
  import opened EvmAdapter

  /** Every call emits one trace of the adapter language, all under the caller's id. */
  lemma EvmTrace(msg: string, sig: seq<byte>, opts: Opts, clock: Clock, env: EvmEnv)
    ensures AdapterTrace(EvmRun(msg, sig, opts, clock, env), opts.attemptId)
  {
    var parsed := env.parse(msg);
    if parsed.Some? {
      var steps := Steps(parsed.value, sig, opts, clock(0), env);
      RunChecksTrace(opts.attemptId, steps);
      var run := EvmRun(msg, sig, opts, clock, env);
      assert run.events[1..] == RunChecks(opts.attemptId, steps).0;
    }
  }

  // ----- Acceptance -----

  /** The time limits a message sets are readable and hold now. */
  predicate Current(m: SiweMessage, now: Instant, env: EvmEnv) {
    && (m.notBefore.Some? ==> env.readTime(m.notBefore.value).Some? && !Before(now, env.readTime(m.notBefore.value).value))
    && (m.expirationTime.Some? ==>
          env.readTime(m.expirationTime.value).Some? && Before(now, env.readTime(m.expirationTime.value).value))
  }

  /** What a relying party relies on, without an order. */
  predicate Admissible(m: SiweMessage, sig: seq<byte>, opts: Opts, now: Instant, env: EvmEnv) {
    && m.domain == opts.expected.domain != "" && m.nonce == opts.expected.nonce
    && Current(m, now, env)
    && VerifySignature(m, sig, env).None?
  }

  lemma AcceptsAdmissible(msg: string, sig: seq<byte>, opts: Opts, clock: Clock, env: EvmEnv, m: SiweMessage)
    requires env.parse(msg) == Some(m)
    ensures EvmRun(msg, sig, opts, clock, env).result.Ok? <==> Admissible(m, sig, opts, clock(0), env)
    ensures EvmRun(msg, sig, opts, clock, env).result.Ok? ==> EvmRun(msg, sig, opts, clock, env).result == Ok(Identify(m, env))
  {
    var steps := Steps(m, sig, opts, clock(0), env);
    RunChecksTrace(opts.attemptId, steps);
    AllPass(steps);
  }

  /** Whether check k of the fixed order passes, looked at alone. */
  predicate Passes(m: SiweMessage, sig: seq<byte>, opts: Opts, now: Instant, env: EvmEnv, k: nat) {
    match k
    case 0 => m.domain == opts.expected.domain != ""
    case 1 => Current(m.(expirationTime := None), now, env)
    case 2 => Current(m.(notBefore := None), now, env)
    case 3 => m.nonce == opts.expected.nonce
    case _ => VerifySignature(m, sig, env).None?
  }

  /** The error of check k; an unreadable time limit is malformed. */
  function Objection(m: SiweMessage, sig: seq<byte>, env: EvmEnv, k: nat): Failure {
    match k
    case 0 => {ErrDomainMismatch}
    case 1 => if m.notBefore.Some? && env.readTime(m.notBefore.value).None? then {ErrMalformed} else {ErrNotYetValid}
    case 2 => if m.expirationTime.Some? && env.readTime(m.expirationTime.value).None? then {ErrMalformed} else {ErrExpired}
    case 3 => {ErrNonceMismatch}
    case _ => if VerifySignature(m, sig, env).Some? then VerifySignature(m, sig, env).value else {}
  }

  /** A refusal carries the error of the first check that does not pass, in the order domain, times, nonce, signature. */
  lemma FirstObjection(msg: string, sig: seq<byte>, opts: Opts, clock: Clock, env: EvmEnv, m: SiweMessage, k: nat)
    requires env.parse(msg) == Some(m) && k < 5
    requires !Passes(m, sig, opts, clock(0), env, k) && forall i :: 0 <= i < k ==> Passes(m, sig, opts, clock(0), env, i)
    ensures EvmRun(msg, sig, opts, clock, env).result == Err(Objection(m, sig, env, k))
    ensures |EvmRun(msg, sig, opts, clock, env).events| == k + 2
  {
    var steps := Steps(m, sig, opts, clock(0), env);
    RunChecksTrace(opts.attemptId, steps);
    forall i | 0 <= i <= k ensures steps[i].error == if i < k then None else Some(Objection(m, sig, env, k)) {
      StepPasses(m, sig, opts, clock(0), env, i);
    }
    FirstOf(steps, k);
  }

  lemma StepPasses(m: SiweMessage, sig: seq<byte>, opts: Opts, now: Instant, env: EvmEnv, i: nat)
    requires i < 5
    ensures Steps(m, sig, opts, now, env)[i].error ==
      if Passes(m, sig, opts, now, env, i) then None else Some(Objection(m, sig, env, i))
  {
    StepIs(m, sig, opts, now, env, i);
  }

  /**
   * An identity never drops the expiry its message names: the expiry check has read it. Its account is the chain and the
   * address of the message; an Issued At that cannot be read becomes Go's zero time.
   */
  lemma ExpiryKept(msg: string, sig: seq<byte>, opts: Opts, clock: Clock, env: EvmEnv, m: SiweMessage)
    requires env.parse(msg) == Some(m) && EvmRun(msg, sig, opts, clock, env).result.Ok?
    ensures var id := EvmRun(msg, sig, opts, clock, env).result.value;
      && (id.expiresAt.Some? <==> m.expirationTime.Some?)
      && (id.expiresAt.Some? ==> Before(clock(0), id.expiresAt.value) && id.expiresAt == env.readTime(m.expirationTime.value))
      && (env.readTime(m.issuedAt).Some? ==> id.issuedAt == env.readTime(m.issuedAt).value)
      && (env.readTime(m.issuedAt).None? ==> id.issuedAt == Instant(1, 1, 1, 0, 0, 0, 0))
      && id.account.chainId.ns == "eip155" && id.account.chainId.reference == m.chain && id.account.address == env.hex(m.address)
      && id.nonce == opts.expected.nonce && id.domain == opts.expected.domain
  {
    AcceptsAdmissible(msg, sig, opts, clock, env, m);
  }

  /** A signature is routed to deployless validation exactly when it is some signature with the magic appended. */
  lemma WrappedIs(sig: seq<byte>)
    ensures HasERC6492Suffix(sig) <==> exists inner :: sig == inner + WrapMagic()
  {
    if HasERC6492Suffix(sig) {
      assert sig == sig[..|sig| - 32] + WrapMagic();
    }
    if inner :| sig == inner + WrapMagic() {
      assert sig[|sig| - 32..] == WrapMagic();
    }
  }

  // ----- The simulated wallets behind the adapter -----

  /** The demo's ClientFor and the client it hands out, over one state of its wallets; see NeverPanics for the dead branch. */
  function DemoClient(owners: map<Address, Address>, recover: Recover): ChainClient {
    ChainClient(a => Ok(Code(owners, a)),
                (to, data) => match Answer(owners, recover, to, data) case Some(ret) => Ok(ret) case None => Err({}),
                None)
  }

  function DemoResolver(owners: map<Address, Address>, recover: Recover): string -> Option<ChainClient> {
    chain => if "eip155:" <= chain then Some(DemoClient(owners, recover)) else None
  }

  /** The demo answers for every eip155 chain, and for no other. */
  lemma DemoChains(owners: map<Address, Address>, recover: Recover, chain: string)
    ensures DemoResolver(owners, recover)(chain).Some? <==> exists reference :: chain == "eip155:" + reference
  {
    if "eip155:" <= chain {
      assert chain == "eip155:" + chain[7..];
    }
  }

  lemma NeverPanics(owners: map<Address, Address>, recover: Recover, to: Address, hash: seq<byte>, sig: seq<byte>)
    ensures Answer(owners, recover, to, Calldata(hash, sig)).Some?
  {
    DecodeEncoded(hash, sig);
  }

  /** Who signed, as the wallet reads it: the length field keeps |sig| mod 2^32. */
  function SignerSeen(hash: seq<byte>, sig: seq<byte>, recover: Recover): Option<Address> {
    var n := |sig| % 0x1_0000_0000;
    if n == 0 then None else recover(hash, Normalise(sig[..n]))
  }

  lemma DemoClientOf(m: SiweMessage, env: EvmEnv, owners: map<Address, Address>, recover: Recover)
    requires env.resolver == Some(DemoResolver(owners, recover))
    ensures ClientOf(m, env) == Some(DemoClient(owners, recover))
  {
    var chain := "eip155:" + m.chain;
    assert chain[..7] == "eip155:";
  }

  lemma AnswerToEncoded(owners: map<Address, Address>, recover: Recover, to: Address, hash: seq<byte>, sig: seq<byte>)
    requires |hash| == 32
    ensures Answer(owners, recover, to, Calldata(hash, sig)) ==
      Some(if to in owners && SignerSeen(hash, sig, recover) == Some(owners[to]) then MagicWord() else ZeroWord())
  {
    DecodeEncoded(hash, sig);
    assert Word(hash) == hash;
  }

  /** The magic word or the zero word, as the wallets answer. */
  function Verdict(accepted: bool): seq<byte> {
    if accepted then [0x16, 0x26, 0xba, 0x7e] + Repeat<byte>(0, 28) else Repeat<byte>(0, 32)
  }

  /**
   * What a wallet answers to the adapter: yes exactly if the signature recovers to its owner. Of a signature r, s, v a v of
   * 27 or more stands for v - 27; one of another length is recovered as it is.
   */
  lemma WalletAnswers(owners: map<Address, Address>, recover: Recover, to: Address, hash: seq<byte>, sig: seq<byte>)
    requires |hash| == 32 && 1 <= |sig| < 0x1_0000_0000
    ensures var recovered :=
        recover(hash, if |sig| == 65 && sig[64] >= 27 then sig[..64] + [sig[64] - 27] else sig);
      Answer(owners, recover, to, Calldata(hash, sig)) == Some(Verdict(to in owners && recovered == Some(owners[to])))
  {
    AnswerToEncoded(owners, recover, to, hash, sig);
    WholeSignature(hash, sig, recover);
    if |sig| == 65 && sig[64] >= 27 {
      assert Normalise(sig) == sig[..64] + [sig[64] - 27];
    }
  }

  lemma MagicIsNotZero()
    ensures MagicWord()[..4] == MAGIC_VALUE && ZeroWord()[..4] != MAGIC_VALUE
  {
    assert ZeroWord()[..4][0] == 0;
  }

  /**
   * With the demo wallets behind the adapter: a registered wallet accepts exactly its owner's signature, every other
   * address is checked as an EOA, and wrapped signatures are refused as unsupported.
   */
  lemma DemoVerdict(m: SiweMessage, sig: seq<byte>, env: EvmEnv, owners: map<Address, Address>, recover: Recover)
    requires env.resolver == Some(DemoResolver(owners, recover)) && |env.textHash(m)| == 32
    ensures VerifySignature(m, sig, env) ==
      if HasERC6492Suffix(sig) then Some({ErrContractWalletUnsupported})
      else if m.address !in owners then Eoa(m, sig, env)
      else if SignerSeen(env.textHash(m), sig, recover) == Some(owners[m.address]) then None
      else Some({ErrContractValidationFailed})
  {
    DemoClientOf(m, env, owners, recover);
    AnswerToEncoded(owners, recover, m.address, env.textHash(m), sig);
    MagicIsNotZero();
  }

  /**
   * No other address derives the wallet of this owner. Only this wallet is looked at: collisions elsewhere, which a hash
   * of 20 bytes has, play no part.
   */
  ghost predicate OnlyOwner(derive: Address -> Address, owner: Address) {
    forall a :: derive(a) == derive(owner) ==> a == owner
  }

  /** Whatever else is registered, a wallet accepts exactly the signers its address is derived from, if there is only one. */
  lemma WalletAnswersToItsOwner(m: SiweMessage, sig: seq<byte>, env: EvmEnv, owners: map<Address, Address>, recover: Recover,
                                derive: Address -> Address)
    requires env.resolver == Some(DemoResolver(owners, recover)) && |env.textHash(m)| == 32
    requires Derived(owners, derive) && m.address in owners && OnlyOwner(derive, owners[m.address])
    requires !HasERC6492Suffix(sig) && 1 <= |sig| < 0x1_0000_0000
    ensures VerifySignature(m, sig, env).None? <==>
      var signer := recover(env.textHash(m), Normalise(sig)); signer.Some? && derive(signer.value) == m.address
  {
    DemoVerdict(m, sig, env, owners, recover);
    WholeSignature(env.textHash(m), sig, recover);
    var signer := recover(env.textHash(m), Normalise(sig));
    assert derive(owners[m.address]) == m.address;
    if signer.Some? && derive(signer.value) == m.address {
      assert signer.value == owners[m.address];
    }
  }

  lemma WholeSignature(hash: seq<byte>, sig: seq<byte>, recover: Recover)
    requires 1 <= |sig| < 0x1_0000_0000
    ensures SignerSeen(hash, sig, recover) == recover(hash, Normalise(sig))
  {
    assert sig[..|sig|] == sig;
  }
}
