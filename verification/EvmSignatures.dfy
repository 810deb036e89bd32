/** How the EVM adapter validates signatures, told by its results: wrapped, contract and plain ones, for any chain client. */
module EvmSignatures {
  import opened Wrappers
  import opened Timestamps
  import opened Calendar
  import opened VerifyOpts
  import opened Events
  import opened Erc1271
  import opened EvmAdapter
  import EvmTheorems

  /** The magic of ERC-6492 stands at the end. */
  predicate EndsInMagic(sig: seq<byte>) {
    |sig| >= 32 && sig[|sig| - 32..] ==
      [0x64, 0x92, 0x64, 0x92, 0x64, 0x92, 0x64, 0x92, 0x64, 0x92, 0x64, 0x92, 0x64, 0x92, 0x64, 0x92,
       0x64, 0x92, 0x64, 0x92, 0x64, 0x92, 0x64, 0x92, 0x64, 0x92, 0x64, 0x92, 0x64, 0x92, 0x64, 0x92]
  }

  /** A time limit is absent, or readable and on this side of now. */
  predicate Started(text: Option<string>, now: Instant, env: EvmEnv)
    requires OnCalendar(now)
  {
    text.Some? ==>
      var t := env.readTime(text.value); t.Some? && OnCalendar(t.value) && Nanos(t.value) <= Nanos(now)
  }

  predicate Unexpired(text: Option<string>, now: Instant, env: EvmEnv)
    requires OnCalendar(now)
  {
    text.Some? ==>
      var t := env.readTime(text.value); t.Some? && OnCalendar(t.value) && Nanos(now) < Nanos(t.value)
  }

  /** Everything but the signature holds. */
  predicate Otherwise(m: SiweMessage, expected: Expected, now: Instant, env: EvmEnv) {
    && m.domain == expected.domain && expected.domain != "" && m.nonce == expected.nonce
    && OnCalendar(now) && Started(m.notBefore, now, env) && Unexpired(m.expirationTime, now, env)
  }

  /** The client for the chain the message names, if there is one. */
  function Client(m: SiweMessage, env: EvmEnv): Option<ChainClient> {
    if env.resolver.Some? then env.resolver.value("eip155:" + m.chain) else None
  }

  lemma MagicIs(sig: seq<byte>)
    ensures HasERC6492Suffix(sig) <==> EndsInMagic(sig)
  {
    var written: seq<byte> :=
      [0x64, 0x92, 0x64, 0x92, 0x64, 0x92, 0x64, 0x92, 0x64, 0x92, 0x64, 0x92, 0x64, 0x92, 0x64, 0x92,
       0x64, 0x92, 0x64, 0x92, 0x64, 0x92, 0x64, 0x92, 0x64, 0x92, 0x64, 0x92, 0x64, 0x92, 0x64, 0x92];
    assert WrapMagic() == written;
  }

  /** With everything else in order, the signature decides. */
  lemma SignatureDecides(msg: string, sig: seq<byte>, opts: Opts, clock: Clock, env: EvmEnv, m: SiweMessage)
    requires env.parse(msg) == Some(m) && Otherwise(m, opts.expected, clock(0), env)
    ensures var e := VerifySignature(m, sig, env);
      if e.Some? then EvmRun(msg, sig, opts, clock, env).result == Err(e.value)
      else EvmRun(msg, sig, opts, clock, env).result.Ok?
  {
    var now := clock(0);
    if m.notBefore.Some? { BeforeIff(now, env.readTime(m.notBefore.value).value); }
    if m.expirationTime.Some? { BeforeIff(now, env.readTime(m.expirationTime.value).value); }
    if VerifySignature(m, sig, env).Some? {
      EvmTheorems.FirstObjection(msg, sig, opts, clock, env, m, 4);
    } else {
      EvmTheorems.AcceptsAdmissible(msg, sig, opts, clock, env, m);
    }
  }

  /**
   * A wrapped signature is accepted exactly if there is a client that can call a creation, the call can be packed, and
   * it answers with the single byte 1.
   */
  lemma WrappedVerdict(msg: string, sig: seq<byte>, opts: Opts, clock: Clock, env: EvmEnv, m: SiweMessage)
    requires env.parse(msg) == Some(m) && Otherwise(m, opts.expected, clock(0), env) && EndsInMagic(sig)
    ensures var (result, client) := (EvmRun(msg, sig, opts, clock, env).result, Client(m, env));
      if client.None? || client.value.deployless.None? then result == Err({ErrContractWalletUnsupported})
      else
        var data := env.pack(m.address, Word(env.textHash(m)), sig);
        if data.None? then result == Err({ErrContractValidationFailed})
        else
          var answer := client.value.deployless.value(data.value);
          if answer.Err? then result == Err({ErrRPC} + answer.error)
          else if answer.value == [1] then result.Ok?
          else result == Err({ErrContractValidationFailed})
  {
    MagicIs(sig);
    SignatureDecides(msg, sig, opts, clock, env, m);
  }

  /**
   * Any other signature: without a client, or for an address without code, it is checked as that of an EOA; for a contract
   * the first four bytes of its answer decide. Errors of the client are errors of the call, never a reason to fall back.
   */
  lemma PlainVerdict(msg: string, sig: seq<byte>, opts: Opts, clock: Clock, env: EvmEnv, m: SiweMessage)
    requires env.parse(msg) == Some(m) && Otherwise(m, opts.expected, clock(0), env) && !EndsInMagic(sig)
    ensures var (result, client) := (EvmRun(msg, sig, opts, clock, env).result, Client(m, env));
      var signed := env.eip191(m, sig);
      if client.None? then if signed then result.Ok? else result == Err({ErrBadSignature})
      else
        var code := client.value.codeAt(m.address);
        if code.Err? then result == Err({ErrRPC} + code.error)
        else if code.value == [] then if signed then result.Ok? else result == Err({ErrBadSignature})
        else
          var answer := client.value.call(m.address, Calldata(env.textHash(m), sig));
          if answer.Err? then result == Err({ErrRPC} + answer.error)
          else if |answer.value| >= 4 && answer.value[..4] == [0x16, 0x26, 0xba, 0x7e] then result.Ok?
          else result == Err({ErrContractValidationFailed})
  {
    MagicIs(sig);
    SignatureDecides(msg, sig, opts, clock, env, m);
  }

  /** The first event tells of the parse, and how many bytes there were. */
  lemma ParseReported(msg: string, sig: seq<byte>, opts: Opts, clock: Clock, env: EvmEnv)
    ensures var (run, ok) := (EvmRun(msg, sig, opts, clock, env), env.parse(msg).Some?);
      && run.events != []
      && run.events[0] == Parsed(opts.attemptId, ok, if ok then NoError else Is(ErrMalformed), |msg|)
      && (!ok ==> run.result == Err({ErrMalformed}))
  {
  }
}
