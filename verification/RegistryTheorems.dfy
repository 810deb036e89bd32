/** What an accepted identity guarantees, whichever adapter accepted it. */
module RegistryTheorems {
  import opened Wrappers
  import opened VerifyOpts
  import opened Caip
  import opened Events
  import opened Registry
  import Base58
  import SiwsMessage
  import SiwsGrammar
  import SiwsTheorems
  import SiwsVerify
  import SolanaAdapter
  import SolanaTheorems
  import EvmTheorems

  /** The nonce inside a message, as the verifier of a namespace reads it. */
  function CarriedNonce(verifiers: Verifiers, ns: string, msg: string): Option<string> {
    if ns !in verifiers then None
    else
      match verifiers[ns]
      case Solana(env) =>
        var parsed := SiwsGrammar.Parse(msg, env.reader);
        if parsed.Ok? then Some(parsed.value.nonce) else None
      case Evm(env) =>
        var parsed := env.parse(msg);
        if parsed.Some? then Some(parsed.value.nonce) else None
  }

  /**
   * An identity carries the caller's domain and the nonce of the message itself, which is the caller's nonce; its
   * account lives in the namespace the caller named.
   */
  lemma AcceptedIdentity(verifiers: Verifiers, chain: CAIP2, msg: string, sig: seq<byte>, opts: Opts, clock: Clock)
    requires WellKeyed(verifiers) && RegistryRun(verifiers, chain, msg, sig, opts, clock).result.Ok?
    ensures var id := RegistryRun(verifiers, chain, msg, sig, opts, clock).result.value;
      && id.nonce == opts.expected.nonce && CarriedNonce(verifiers, chain.ns, msg) == Some(id.nonce)
      && id.domain == opts.expected.domain != ""
      && id.account.chainId.ns == chain.ns
  {
    match verifiers[chain.ns]
    case Solana(env) => SolanaAccepted(msg, sig, opts, clock, env);
    case Evm(env) => EvmTheorems.AcceptsAdmissible(msg, sig, opts, clock, env, env.parse(msg).value);
  }

  lemma SolanaAccepted(msg: string, sig: seq<byte>, opts: Opts, clock: Clock, env: SiwsVerify.Env)
    requires SolanaAdapter.SolanaRun(msg, sig, opts, clock, env).result.Ok?
    ensures var parsed := SiwsGrammar.Parse(msg, env.reader);
      && parsed.Ok? && parsed.value.nonce == opts.expected.nonce && parsed.value.domain == opts.expected.domain != ""
      && SolanaAdapter.SolanaRun(msg, sig, opts, clock, env).result == Ok(SolanaAdapter.Identify(parsed.value))
  {
    var m := SiwsGrammar.Parse(msg, env.reader).value;
    var steps := SolanaAdapter.Steps(m, msg, sig, opts, clock, env);
    SolanaTheorems.VerdictOf(m, msg, sig, opts, clock, env, steps);
    AllPass(steps);
  }

  // ----- Store keys -----

  /** Address.Hex prints no colon. */
  ghost predicate HexPlain(verifiers: Verifiers) {
    forall ns :: ns in verifiers && verifiers[ns].Evm? ==> forall a :: ':' !in verifiers[ns].evm.hex(a)
  }

  lemma AddressPlain(s: string)
    requires SiwsGrammar.ValidAddress(s)
    ensures ':' !in s
  {
    assert Base58.InAlphabet(s);
  }

  lemma AccountPlain(verifiers: Verifiers, chain: CAIP2, msg: string, sig: seq<byte>, opts: Opts, clock: Clock)
    requires HexPlain(verifiers) && RegistryRun(verifiers, chain, msg, sig, opts, clock).result.Ok?
    ensures var account := RegistryRun(verifiers, chain, msg, sig, opts, clock).result.value.account;
      ':' !in account.chainId.ns && ':' !in account.address
  {
    match verifiers[chain.ns]
    case Solana(env) =>
      SolanaAccepted(msg, sig, opts, clock, env);
      var m := SiwsGrammar.Parse(msg, env.reader).value;
      SiwsTheorems.ParsedIsWellFormed(msg, m, env.reader);
      AddressPlain(m.address);
    case Evm(env) =>
      EvmTheorems.AcceptsAdmissible(msg, sig, opts, clock, env, env.parse(msg).value);
  }

  /** An accepted account has a valid namespace and a valid address; only its reference may be arbitrary text. */
  lemma AccountRegular(verifiers: Verifiers, chain: CAIP2, msg: string, sig: seq<byte>, opts: Opts, clock: Clock)
    requires forall ns :: ns in verifiers && verifiers[ns].Evm? ==> forall a :: ValidAddress(verifiers[ns].evm.hex(a))
    requires RegistryRun(verifiers, chain, msg, sig, opts, clock).result.Ok?
    ensures var account := RegistryRun(verifiers, chain, msg, sig, opts, clock).result.value.account;
      ValidNamespace(account.chainId.ns) && ValidAddress(account.address)
  {
    match verifiers[chain.ns]
    case Solana(env) => SolanaRegular(msg, sig, opts, clock, env);
    case Evm(env) => EvmTheorems.AcceptsAdmissible(msg, sig, opts, clock, env, env.parse(msg).value);
  }

  lemma SolanaRegular(msg: string, sig: seq<byte>, opts: Opts, clock: Clock, env: SiwsVerify.Env)
    requires SolanaAdapter.SolanaRun(msg, sig, opts, clock, env).result.Ok?
    ensures var account := SolanaAdapter.SolanaRun(msg, sig, opts, clock, env).result.value.account;
      ValidNamespace(account.chainId.ns) && ValidAddress(account.address)
  {
    SolanaAccepted(msg, sig, opts, clock, env);
    var m := SiwsGrammar.Parse(msg, env.reader).value;
    SiwsTheorems.ParsedIsWellFormed(msg, m, env.reader);
    KeyRegular(m);
  }

  lemma KeyRegular(m: SiwsMessage.Message)
    requires SiwsGrammar.ValidAddress(m.address)
    ensures var account := SolanaAdapter.Identify(m).account; ValidNamespace(account.chainId.ns) && ValidAddress(account.address)
  {
    KeyIsAddress(m.address);
  }

  /** The base58 text of a key is an address of CAIP-10. */
  lemma KeyIsAddress(s: string)
    requires SiwsGrammar.ValidAddress(s)
    ensures ValidAddress(s)
  {
    Base58.AddressLength(s);
    assert Base58.InAlphabet(s);
  }

  /** The account of a Solana sign-in has a text that parses exactly when the Chain ID is a valid reference. */
  lemma SolanaKeyParses(m: SiwsMessage.Message)
    requires SiwsGrammar.ValidAddress(m.address)
    ensures ParseCAIP10(String(SolanaAdapter.Identify(m).account)).Ok? <==> ValidReference(m.chainId)
  {
    KeyIsAddress(m.address);
    KeyParses(SolanaAdapter.Identify(m).account);
  }

  /**
   * Two accepted identities share a store key only if they are the same account, although a Solana Chain ID is
   * arbitrary text and may hold colons.
   */
  lemma AccountKeysInjective(verifiers: Verifiers, chain: CAIP2, msg: string, sig: seq<byte>, opts: Opts, clock: Clock,
                             chain': CAIP2, msg': string, sig': seq<byte>, opts': Opts, clock': Clock)
    requires HexPlain(verifiers)
    requires RegistryRun(verifiers, chain, msg, sig, opts, clock).result.Ok?
    requires RegistryRun(verifiers, chain', msg', sig', opts', clock').result.Ok?
    ensures var a := RegistryRun(verifiers, chain, msg, sig, opts, clock).result.value.account;
      var b := RegistryRun(verifiers, chain', msg', sig', opts', clock').result.value.account;
      String(a) == String(b) <==> a == b
  {
    AccountPlain(verifiers, chain, msg, sig, opts, clock);
    AccountPlain(verifiers, chain', msg', sig', opts', clock');
    var a := RegistryRun(verifiers, chain, msg, sig, opts, clock).result.value.account;
    var b := RegistryRun(verifiers, chain', msg', sig', opts', clock').result.value.account;
    if String(a) == String(b) {
      KeyInjective(a, b);
    }
  }
}
