/** What the Solana adapter promises beside siws: one trace shape, and the same verdict. */
module SolanaTheorems {
  import opened Wrappers
  import opened Timestamps
  import opened Calendar
  import opened Caip
  import opened VerifyOpts
  import opened Events
  import opened SiwsMessage
  import opened SiwsVerify
  import V = SiwsVerify
  import opened SolanaAdapter
  import Siws = SiwsErrors
  import Grammar = SiwsGrammar
  import Parsing = SiwsTheorems

  /** Every call emits one trace of the adapter language, all under the caller's id. */
  lemma SolanaTrace(msg: string, sig: seq<byte>, opts: Opts, clock: Clock, env: Env)
    ensures AdapterTrace(SolanaRun(msg, sig, opts, clock, env), opts.attemptId)
  {
    var parsed := Grammar.Parse(msg, env.reader);
    if parsed.Ok? {
      var steps := Steps(parsed.value, msg, sig, opts, clock, env);
      RunChecksTrace(opts.attemptId, steps);
      var run := SolanaRun(msg, sig, opts, clock, env);
      assert run.events[1..] == RunChecks(opts.attemptId, steps).0;
    }
  }

  /** The adapter's verdict in terms of its steps. */
  lemma VerdictOf(m: Message, msg: string, sig: seq<byte>, opts: Opts, clock: Clock, env: Env, steps: seq<Step>)
    requires Grammar.Parse(msg, env.reader) == Ok(m) && steps == Steps(m, msg, sig, opts, clock, env)
    ensures SolanaRun(msg, sig, opts, clock, env).result ==
      if FirstFailure(steps) < 5 then Err(steps[FirstFailure(steps)].error.value) else Ok(Identify(m))
  {
    RunChecksTrace(opts.attemptId, steps);
  }

  /** siws's verdict, as the adapter reports it. */
  function Reported(r: Result<Message, Siws.SiwsError>): Result<Identity, Failure> {
    match r
    case Ok(m) => Ok(Identify(m))
    case Err(e) => Err({ToSiwx(e)})
  }

  predicate Given(expected: Expected) {
    expected.domain != "" && expected.nonce != ""
  }

  /**
   * With the clock standing still the adapter gives siws's verdict, exactly when both expectations are given or the
   * message does not parse: an empty expectation is malformed to VerifyRaw and a mismatch to the adapter.
   */
  lemma FixedClock(msg: string, sig: seq<byte>, opts: Opts, clock: Clock, env: Env, now: Instant)
    requires forall i :: clock(i) == now
    ensures SolanaRun(msg, sig, opts, clock, env).result == Reported(VerifyRaw(msg, sig, opts.expected, now, env))
      <==> Given(opts.expected) || Grammar.Parse(msg, env.reader).Err?
  {
    var parsed := Grammar.Parse(msg, env.reader);
    if parsed.Ok? {
      if Given(opts.expected) {
        GivenAgree(parsed.value, msg, sig, opts, clock, env, now);
      } else {
        MissingDiffers(parsed.value, msg, sig, opts, clock, env, now);
      }
    }
  }

  function Mapped(e: Option<Siws.SiwsError>): Option<Failure> {
    if e.Some? then Some({ToSiwx(e.value)}) else None
  }

  /** The first four steps are siws's checks, and the fifth is its verdict. */
  lemma StepsAreChecks(m: Message, msg: string, sig: seq<byte>, opts: Opts, clock: Clock, env: Env, now: Instant)
    requires clock(0) == clock(1) == clock(2) == now
    ensures var steps := Steps(m, msg, sig, opts, clock, env);
      && steps[0].error == Mapped(V.CheckDomain(m, opts.expected.domain))
      && steps[1].error == Mapped(V.CheckNotBefore(m, now))
      && steps[2].error == Mapped(V.CheckExpiry(m, now))
      && steps[3].error == Mapped(V.CheckNonce(m, opts.expected.nonce))
      && steps[4] == SignatureStep(msg, sig, opts, now, env)
  {
    StepErrors(m, opts, now);
    forall i | 0 <= i < 5 { StepIs(m, msg, sig, opts, clock, env, i); }
  }

  lemma StepErrors(m: Message, opts: Opts, now: Instant)
    ensures DomainStep(m, opts).error == Mapped(V.CheckDomain(m, opts.expected.domain))
    ensures NotBeforeStep(m, now).error == Mapped(V.CheckNotBefore(m, now))
    ensures ExpiryStep(m, now).error == Mapped(V.CheckExpiry(m, now))
    ensures NonceStep(m, opts).error == Mapped(V.CheckNonce(m, opts.expected.nonce))
  {
  }

  /** VerifyRaw on a parsed message is its first failing check. */
  lemma RawIsChecks(m: Message, msg: string, sig: seq<byte>, expected: Expected, now: Instant, env: Env)
    requires Grammar.Parse(msg, env.reader) == Ok(m) && Given(expected)
    ensures Reported(VerifyRaw(msg, sig, expected, now, env)) ==
      var failed := Mapped(CheckAll(m, msg, sig, expected, now, env));
      if failed.Some? then Err(failed.value) else Ok(Identify(m))
  {
  }

  lemma GivenAgree(m: Message, msg: string, sig: seq<byte>, opts: Opts, clock: Clock, env: Env, now: Instant)
    requires Grammar.Parse(msg, env.reader) == Ok(m) && Given(opts.expected) && forall i :: clock(i) == now
    ensures SolanaRun(msg, sig, opts, clock, env).result == Reported(VerifyRaw(msg, sig, opts.expected, now, env))
  {
    var steps := Steps(m, msg, sig, opts, clock, env);
    assert clock(0) == now && clock(1) == now && clock(2) == now;
    VerdictOf(m, msg, sig, opts, clock, env, steps);
    StepsAreChecks(m, msg, sig, opts, clock, env, now);
    var k := if steps[0].error.Some? then 0 else if steps[1].error.Some? then 1 else if steps[2].error.Some? then 2
             else if steps[3].error.Some? then 3 else if steps[4].error.Some? then 4 else 5;
    FirstOf(steps, k);
    if k < 4 {
      RawIsChecks(m, msg, sig, opts.expected, now, env);
    } else {
      OnlyParsed(msg, sig, opts.expected, now, env);
    }
  }

  lemma MissingDiffers(m: Message, msg: string, sig: seq<byte>, opts: Opts, clock: Clock, env: Env, now: Instant)
    requires Grammar.Parse(msg, env.reader) == Ok(m) && !Given(opts.expected)
    ensures VerifyRaw(msg, sig, opts.expected, now, env) == Err(Siws.Malformed)
    ensures SolanaRun(msg, sig, opts, clock, env).result.Err?
    ensures ErrMalformed !in SolanaRun(msg, sig, opts, clock, env).result.error
  {
    Parsing.ParsedIsWellFormed(msg, m, env.reader);
    var steps := Steps(m, msg, sig, opts, clock, env);
    VerdictOf(m, msg, sig, opts, clock, env, steps);
    FirstOf(steps, if steps[0].error.Some? then 0 else if steps[1].error.Some? then 1 else if steps[2].error.Some? then 2 else 3);
  }

  // ----- A clock that moves -----

  /** Once the four checks have passed, repeating them inside VerifyRaw can only find the message expired or badly signed. */
  lemma SignatureStepErrors(m: Message, msg: string, sig: seq<byte>, opts: Opts, clock: Clock, env: Env)
    requires Grammar.Parse(msg, env.reader) == Ok(m) && NonDecreasing(clock)
    requires var steps := Steps(m, msg, sig, opts, clock, env); forall i :: 0 <= i < 4 ==> steps[i].error.None?
    ensures Steps(m, msg, sig, opts, clock, env)[4].error ==
      if m.expirationTime.Some? && !Before(clock(2), m.expirationTime.value) then Some({ErrExpired})
      else if !Signed(m.address, msg, sig, env) then Some({ErrBadSignature})
      else None
  {
    FourPassed(m, msg, sig, opts, clock, env);
    if m.notBefore.Some? {
      LaterStays(clock(0), clock(2), m.notBefore.value);
    }
    Parsing.ParsedIsWellFormed(msg, m, env.reader);
    LastTwoChecks(m, msg, sig, opts.expected, clock(2), env);
  }

  lemma FourPassed(m: Message, msg: string, sig: seq<byte>, opts: Opts, clock: Clock, env: Env)
    requires var steps := Steps(m, msg, sig, opts, clock, env); forall i :: 0 <= i < 4 ==> steps[i].error.None?
    ensures m.domain == opts.expected.domain != "" && m.nonce == opts.expected.nonce
    ensures m.notBefore.Some? ==> !Before(clock(0), m.notBefore.value)
    ensures Steps(m, msg, sig, opts, clock, env)[4] == SignatureStep(msg, sig, opts, clock(2), env)
  {
    var steps := Steps(m, msg, sig, opts, clock, env);
    assert steps[0].error.None? && steps[1].error.None? && steps[3].error.None?;
  }

  /** VerifyRaw on a message that passes the other checks. */
  lemma LastTwoChecks(m: Message, msg: string, sig: seq<byte>, expected: Expected, now: Instant, env: Env)
    requires Grammar.Parse(msg, env.reader) == Ok(m) && Grammar.ValidAddress(m.address)
    requires m.domain == expected.domain != "" && m.nonce == expected.nonce != ""
    requires m.notBefore.Some? ==> !Before(now, m.notBefore.value)
    ensures VerifyRaw(msg, sig, expected, now, env) ==
      if m.expirationTime.Some? && !Before(now, m.expirationTime.value) then Err(Siws.Expired)
      else if !Signed(m.address, msg, sig, env) then Err(Siws.BadSignature)
      else Ok(m)
  {
  }

  /** Acceptance with a moving clock: genuine at the last reading, and already valid at the first. */
  lemma MovingClock(msg: string, sig: seq<byte>, opts: Opts, clock: Clock, env: Env, m: Message)
    requires NonDecreasing(clock) && Grammar.Parse(msg, env.reader) == Ok(m)
    ensures SolanaRun(msg, sig, opts, clock, env).result.Ok? <==>
      Genuine(m, msg, sig, opts.expected, clock(2), env) && (m.notBefore.Some? ==> !Before(clock(0), m.notBefore.value))
    ensures SolanaRun(msg, sig, opts, clock, env).result.Ok? ==>
      SolanaRun(msg, sig, opts, clock, env).result == Ok(Identify(m))
  {
    var steps := Steps(m, msg, sig, opts, clock, env);
    VerdictOf(m, msg, sig, opts, clock, env, steps);
    AcceptsGenuine(msg, sig, opts.expected, clock(2), env, m);
    if m.expirationTime.Some? {
      LaterStays(clock(1), clock(2), m.expirationTime.value);
    }
    AllPass(steps);
    SignatureIsGenuine(m, msg, sig, opts, clock, env);
  }

  /** Whatever the clock does, what is accepted is genuine at the last reading. */
  lemma AcceptedIsGenuine(msg: string, sig: seq<byte>, opts: Opts, clock: Clock, env: Env) returns (m: Message)
    requires SolanaRun(msg, sig, opts, clock, env).result.Ok?
    ensures Genuine(m, msg, sig, opts.expected, clock(2), env)
    ensures SolanaRun(msg, sig, opts, clock, env).result == Ok(Identify(m))
  {
    m := Grammar.Parse(msg, env.reader).value;
    var steps := Steps(m, msg, sig, opts, clock, env);
    VerdictOf(m, msg, sig, opts, clock, env, steps);
    AllPass(steps);
    SignatureIsGenuine(m, msg, sig, opts, clock, env);
  }

  lemma SignatureIsGenuine(m: Message, msg: string, sig: seq<byte>, opts: Opts, clock: Clock, env: Env)
    requires Grammar.Parse(msg, env.reader) == Ok(m)
    ensures Steps(m, msg, sig, opts, clock, env)[4].error.None? <==> Genuine(m, msg, sig, opts.expected, clock(2), env)
  {
    AcceptsGenuine(msg, sig, opts.expected, clock(2), env, m);
    OnlyParsed(msg, sig, opts.expected, clock(2), env);
  }

  // ----- Events, verdict and identity, spelled out -----

  /** The first event tells of the parse, and how many bytes there were. */
  lemma ParseReported(msg: string, sig: seq<byte>, opts: Opts, clock: Clock, env: Env)
    ensures var run, parsed := SolanaRun(msg, sig, opts, clock, env), Grammar.Parse(msg, env.reader);
      && run.events != []
      && run.events[0] == Parsed(opts.attemptId, parsed.Ok?, if parsed.Ok? then NoError else Is(ErrMalformed), |msg|)
      && (parsed.Err? ==> run.result == Err({ErrMalformed}))
  {
  }

  predicate ReadsCalendar(clock: Clock) {
    OnCalendar(clock(0)) && OnCalendar(clock(1)) && OnCalendar(clock(2))
  }

  /** The error of check k, looked at alone; each time check reads the clock anew, and the last repeats them all. */
  function CheckError(m: Message, msg: string, sig: seq<byte>, expected: Expected, clock: Clock, env: Env, k: nat): Option<Sentinel>
    requires TimesOnCalendar(m) && ReadsCalendar(clock)
  {
    match k
    case 0 => if expected.domain == "" || m.domain != expected.domain then Some(ErrDomainMismatch) else None
    case 1 => if NotTooEarly(m, clock(0)) then None else Some(ErrNotYetValid)
    case 2 => if NotTooLate(m, clock(1)) then None else Some(ErrExpired)
    case 3 => if m.nonce == expected.nonce then None else Some(ErrNonceMismatch)
    case _ => LastError(m, msg, sig, expected, clock(2), env)
  }

  function LastError(m: Message, msg: string, sig: seq<byte>, expected: Expected, now: Instant, env: Env): Option<Sentinel>
    requires TimesOnCalendar(m) && OnCalendar(now)
  {
    Renamed(ErrorInTime(m, msg, sig, expected, now, env))
  }

  function Renamed(e: Option<Siws.SiwsError>): Option<Sentinel> {
    match e
    case None => None
    case Some(Malformed) => Some(ErrMalformed)
    case Some(DomainMismatch) => Some(ErrDomainMismatch)
    case Some(NotYetValid) => Some(ErrNotYetValid)
    case Some(Expired) => Some(ErrExpired)
    case Some(NonceMismatch) => Some(ErrNonceMismatch)
    case Some(BadSignature) => Some(ErrBadSignature)
  }

  function Alone(e: Option<Sentinel>): Option<Failure> {
    if e.Some? then Some({e.value}) else None
  }

  lemma EarlyErrors(m: Message, msg: string, sig: seq<byte>, opts: Opts, clock: Clock, env: Env, k: nat)
    requires TimesOnCalendar(m) && ReadsCalendar(clock) && k < 4
    ensures CheckAt(m, opts, clock, k).error == Alone(CheckError(m, msg, sig, opts.expected, clock, env, k))
  {
    LimitsByCount(m, clock(0));
    LimitsByCount(m, clock(1));
  }

  lemma SameNames(r: Result<Message, Siws.SiwsError>, e: Option<Siws.SiwsError>)
    requires if e.Some? then r == Err(e.value) else r.Ok?
    ensures (if r.Ok? then None else Some({ToSiwx(r.error)})) == Alone(Renamed(e))
  {
  }

  lemma SignatureError(m: Message, msg: string, sig: seq<byte>, opts: Opts, now: Instant, env: Env)
    requires Grammar.Parse(msg, env.reader) == Ok(m) && TimesOnCalendar(m) && OnCalendar(now)
    ensures SignatureStep(msg, sig, opts, now, env).error == Alone(LastError(m, msg, sig, opts.expected, now, env))
  {
    VerdictInTime(msg, m, sig, opts.expected, now, env);
    SameNames(VerifyRaw(msg, sig, opts.expected, now, env), ErrorInTime(m, msg, sig, opts.expected, now, env));
  }

  lemma ErrorsOfSteps(m: Message, msg: string, sig: seq<byte>, opts: Opts, clock: Clock, env: Env, k: nat)
    requires Grammar.Parse(msg, env.reader) == Ok(m) && TimesOnCalendar(m) && ReadsCalendar(clock) && k < 5
    ensures Steps(m, msg, sig, opts, clock, env)[k].error == Alone(CheckError(m, msg, sig, opts.expected, clock, env, k))
  {
    StepIs(m, msg, sig, opts, clock, env, k);
    if k < 4 {
      EarlyErrors(m, msg, sig, opts, clock, env, k);
    } else {
      SignatureError(m, msg, sig, opts, clock(2), env);
    }
  }

  /** Whatever the clock, the first check that fails gives the error and the last event; if none does, this is the identity. */
  lemma FirstObjection(m: Message, msg: string, sig: seq<byte>, opts: Opts, clock: Clock, env: Env, k: nat)
    requires Grammar.Parse(msg, env.reader) == Ok(m) && TimesOnCalendar(m) && ReadsCalendar(clock) && k <= 5
    requires forall i :: 0 <= i < k ==> CheckError(m, msg, sig, opts.expected, clock, env, i) == None
    requires k < 5 ==> CheckError(m, msg, sig, opts.expected, clock, env, k).Some?
    ensures |SolanaRun(msg, sig, opts, clock, env).events| == 1 + (if k < 5 then k + 1 else 5)
    ensures SolanaRun(msg, sig, opts, clock, env).result ==
      if k < 5 then Err({CheckError(m, msg, sig, opts.expected, clock, env, k).value})
      else Ok(Identity(CAIP10(CAIP2("solana", m.chainId), m.address), m.domain, m.nonce, m.issuedAt, m.expirationTime))
  {
    var steps := Steps(m, msg, sig, opts, clock, env);
    forall i | 0 <= i < 5 && i <= k
      ensures steps[i].error == Alone(CheckError(m, msg, sig, opts.expected, clock, env, i))
    {
      ErrorsOfSteps(m, msg, sig, opts, clock, env, i);
    }
    FirstOf(steps, k);
    RunChecksTrace(opts.attemptId, steps);
  }

  /** What an identity says: who signed, for which domain and nonce, from when to when. */
  lemma IdentitySays(msg: string, sig: seq<byte>, opts: Opts, clock: Clock, env: Env) returns (m: Message)
    requires SolanaRun(msg, sig, opts, clock, env).result.Ok?
    ensures Grammar.Parse(msg, env.reader) == Ok(m)
    ensures var id := SolanaRun(msg, sig, opts, clock, env).result.value;
      && id.account.chainId.ns == "solana" && id.account.chainId.reference == m.chainId && id.account.address == m.address
      && id.domain == opts.expected.domain && id.nonce == opts.expected.nonce
      && id.issuedAt == m.issuedAt && id.expiresAt == m.expirationTime
      && (m.expirationTime.Some? && OnCalendar(clock(2)) && OnCalendar(m.expirationTime.value) ==>
            Nanos(clock(2)) < Nanos(m.expirationTime.value))
  {
    m := AcceptedIsGenuine(msg, sig, opts, clock, env);
    if m.expirationTime.Some? && OnCalendar(clock(2)) && OnCalendar(m.expirationTime.value) {
      BeforeIff(clock(2), m.expirationTime.value);
    }
  }
}
