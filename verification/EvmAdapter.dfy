/** siwx/evm/adapter.go and validateERC6492 of siwx/evm/erc6492.go: the EVM verifier. */
module EvmAdapter {
  import opened Wrappers
  import opened Timestamps
  import opened VerifyOpts
  import opened Caip
  import opened Events
  import opened Erc1271

  /**
   * What siwe-go's parser returns; times stay text, and the chain id is its decimal form. The statement, URI, version,
   * request id and resources, which only hashing and the EIP-191 check look at, are in rest.
   */
  datatype SiweMessage = SiweMessage(domain: string, nonce: string, issuedAt: string, expirationTime: Option<string>,
                                     notBefore: Option<string>, chain: string, address: Address, rest: seq<string>)

  /** A chain client as it answers during one call; deployless is the optional DeploylessCaller. */
  datatype ChainClient = ChainClient(codeAt: Address -> Result<seq<byte>, Failure>,
                                     call: (Address, seq<byte>) -> Result<seq<byte>, Failure>,
                                     deployless: Option<seq<byte> -> Result<seq<byte>, Failure>>)

  /**
   * The foreign parts: siwe-go's parser and EIP-191 check, parseISO8601, TextHash, Address.Hex, the resolver, and the
   * packing of a deployless validation call behind the validator's creation code.
   */
  datatype EvmEnv = EvmEnv(parse: string -> Option<SiweMessage>, eip191: (SiweMessage, seq<byte>) -> bool,
                           readTime: string -> Option<Instant>, textHash: SiweMessage -> seq<byte>, hex: Address -> string,
                           resolver: Option<string -> Option<ChainClient>>,
                           pack: (Address, seq<byte>, seq<byte>) -> Option<seq<byte>>)

  // ----- Signatures -----

  /** erc6492Magic: 0x6492, sixteen times. */
  function WrapMagic(): (s: seq<byte>)
    ensures |s| == 32
  {
    seq(32, i => if i % 2 == 0 then 0x64 else 0x92)
  }

  predicate HasERC6492Suffix(sig: seq<byte>) {
    |sig| >= 32 && sig[|sig| - 32..] == WrapMagic()
  }

  function Eoa(m: SiweMessage, sig: seq<byte>, env: EvmEnv): Option<Failure> {
    if env.eip191(m, sig) then None else Some({ErrBadSignature})
  }

  function ValidateERC6492(deployless: seq<byte> -> Result<seq<byte>, Failure>, signer: Address, hash: seq<byte>, sig: seq<byte>,
                           env: EvmEnv): Option<Failure> {
    var packed := env.pack(signer, Word(hash), sig);
    if packed.None? then Some({ErrContractValidationFailed})
    else
      var ret := deployless(packed.value);
      if ret.Err? then Some({ErrRPC} + ret.error)
      else if ret.value == [1] then None
      else Some({ErrContractValidationFailed})
  }

  function ContractCall(client: ChainClient, addr: Address, hash: seq<byte>, sig: seq<byte>): Option<Failure> {
    var ret := client.call(addr, Calldata(hash, sig));
    if ret.Err? then Some({ErrRPC} + ret.error)
    else if |ret.value| >= 4 && ret.value[..4] == MAGIC_VALUE then None
    else Some({ErrContractValidationFailed})
  }

  function ClientOf(m: SiweMessage, env: EvmEnv): Option<ChainClient> {
    if env.resolver.None? then None else env.resolver.value("eip155:" + m.chain)
  }

  /** Which of the four ways to validate is taken; None is acceptance. */
  function VerifySignature(m: SiweMessage, sig: seq<byte>, env: EvmEnv): Option<Failure> {
    var hash := env.textHash(m);
    var client := ClientOf(m, env);
    if HasERC6492Suffix(sig) then
      if client.None? || client.value.deployless.None? then Some({ErrContractWalletUnsupported})
      else ValidateERC6492(client.value.deployless.value, m.address, hash, sig, env)
    else if client.None? then Eoa(m, sig, env)
    else
      var code := client.value.codeAt(m.address);
      if code.Err? then Some({ErrRPC} + code.error)
      else if code.value == [] then Eoa(m, sig, env)
      else ContractCall(client.value, m.address, hash, sig)
  }

  // ----- The checks -----

  function DomainStep(m: SiweMessage, opts: Opts): Step {
    Step(CheckDomain, if opts.expected.domain == "" || m.domain != opts.expected.domain then Some({ErrDomainMismatch}) else None)
  }

  function NotBeforeStep(m: SiweMessage, now: Instant, env: EvmEnv): Step {
    Step(CheckNotBefore,
      if m.notBefore.None? then None
      else
        var t := env.readTime(m.notBefore.value);
        if t.None? then Some({ErrMalformed})
        else if Before(now, t.value) then Some({ErrNotYetValid})
        else None)
  }

  function ExpiryStep(m: SiweMessage, now: Instant, env: EvmEnv): Step {
    Step(CheckExpiry,
      if m.expirationTime.None? then None
      else
        var t := env.readTime(m.expirationTime.value);
        if t.None? then Some({ErrMalformed})
        else if !Before(now, t.value) then Some({ErrExpired})
        else None)
  }

  function NonceStep(m: SiweMessage, opts: Opts): Step {
    Step(CheckNonce, if m.nonce != opts.expected.nonce then Some({ErrNonceMismatch}) else None)
  }

  function CheckAt(m: SiweMessage, opts: Opts, now: Instant, env: EvmEnv, i: nat): Step {
    match i
    case 0 => DomainStep(m, opts)
    case 1 => NotBeforeStep(m, now, env)
    case 2 => ExpiryStep(m, now, env)
    case _ => NonceStep(m, opts)
  }

  function Steps(m: SiweMessage, sig: seq<byte>, opts: Opts, now: Instant, env: EvmEnv): (s: seq<Step>)
    ensures |s| == 5 && forall i :: 0 <= i < 5 ==> s[i].name == NAMES[i]
  {
    [DomainStep(m, opts), NotBeforeStep(m, now, env), ExpiryStep(m, now, env), NonceStep(m, opts),
     Step(CheckSignature, VerifySignature(m, sig, env))]
  }

  /** Go's zero time, which stands for an unreadable Issued At. */
  const ZERO_TIME := Instant(1, 1, 1, 0, 0, 0, 0)

  function Identify(m: SiweMessage, env: EvmEnv): Identity {
    var issued := env.readTime(m.issuedAt);
    Identity(CAIP10(CAIP2("eip155", m.chain), env.hex(m.address)), m.domain, m.nonce,
             if issued.Some? then issued.value else ZERO_TIME,
             if m.expirationTime.Some? then env.readTime(m.expirationTime.value) else None)
  }

  /** What one call emits and returns; the clock is read once, after parsing. */
  function EvmRun(msg: string, sig: seq<byte>, opts: Opts, clock: Clock, env: EvmEnv): Run {
    var parsed := env.parse(msg);
    var first := ParsedEvent(opts.attemptId, parsed.Some?, |msg|);
    if parsed.None? then Run([first], Err({ErrMalformed}))
    else
      var (events, failed) := RunChecks(opts.attemptId, Steps(parsed.value, sig, opts, clock(0), env));
      Run([first] + events, if failed.Some? then Err(failed.value) else Ok(Identify(parsed.value, env)))
  }

  // ----- The adapter as it runs -----

  /** Verify emits its run to every observer and returns its result. */
  method Verify(observers: seq<Observer>, msg: string, sig: seq<byte>, opts: Opts, clock: Clock, env: EvmEnv,
                ghost start: map<Observer, seq<Call>>, ghost before: seq<Event>)
    returns (r: Result<Identity, Failure>)
    requires Heard(observers, start, before)
    modifies observers
    ensures r == EvmRun(msg, sig, opts, clock, env).result
    ensures Heard(observers, start, before + EvmRun(msg, sig, opts, clock, env).events)
  {
    var parsed := env.parse(msg);
    var first := ParsedEvent(opts.attemptId, parsed.Some?, |msg|);
    Emit(observers, first, start, before);
    if parsed.None? {
      return Err({ErrMalformed});
    }
    var m, now := parsed.value, clock(0);
    ghost var steps := Steps(m, sig, opts, now, env);
    ghost var run := before + [first];
    var failed := RunSteps(observers, m, sig, opts, now, env, start, run);
    assert run + RunChecks(opts.attemptId, steps).0 == before + ([first] + RunChecks(opts.attemptId, steps).0);
    if failed.Some? {
      return Err(failed.value);
    }
    return Ok(Identify(m, env));
  }

  /** The loop over the four checks, and the signature check after it. */
  method RunSteps(observers: seq<Observer>, m: SiweMessage, sig: seq<byte>, opts: Opts, now: Instant, env: EvmEnv,
                  ghost start: map<Observer, seq<Call>>, ghost before: seq<Event>)
    returns (failed: Option<Failure>)
    requires Heard(observers, start, before)
    modifies observers
    ensures failed == RunChecks(opts.attemptId, Steps(m, sig, opts, now, env)).1
    ensures Heard(observers, start, before + RunChecks(opts.attemptId, Steps(m, sig, opts, now, env)).0)
  {
    ghost var steps := Steps(m, sig, opts, now, env);
    ghost var passed: seq<Event> := [];
    assert before + passed == before;
    for i := 0 to 4
      invariant PassReports(passed, opts.attemptId, steps, i) && forall k :: 0 <= k < i ==> steps[k].error.None?
      invariant Heard(observers, start, before + passed)
    {
      var step := CheckAt(m, opts, now, env, i);
      StepIs(m, sig, opts, now, env, i);
      ghost var reported := passed;
      passed := Report(observers, opts.attemptId, step, start, before, reported);
      if step.error.Some? {
        RunStops(opts.attemptId, steps, i, reported);
        return step.error;
      }
    }
    failed := VerifySignature(m, sig, env);
    StepIs(m, sig, opts, now, env, 4);
    RunStops(opts.attemptId, steps, 4, passed);
    passed := Report(observers, opts.attemptId, Step(CheckSignature, failed), start, before, passed);
  }

  lemma StepIs(m: SiweMessage, sig: seq<byte>, opts: Opts, now: Instant, env: EvmEnv, i: nat)
    requires i < 5
    ensures Steps(m, sig, opts, now, env)[i] ==
      if i < 4 then CheckAt(m, opts, now, env, i) else Step(CheckSignature, VerifySignature(m, sig, env))
  {
  }
}
