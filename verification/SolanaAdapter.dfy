/** siwx/solana/adapter.go: the Solana verifier, which repeats the checks of siws one by one to report them. */
module SolanaAdapter {
  import opened Wrappers
  import opened Timestamps
  import opened VerifyOpts
  import opened Caip
  import opened Events
  import opened SiwsMessage
  import opened SiwsVerify
  import Siws = SiwsErrors
  import Grammar = SiwsGrammar

  function ToSiwx(e: Siws.SiwsError): Sentinel {
    match e
    case Malformed => ErrMalformed
    case BadSignature => ErrBadSignature
    case Expired => ErrExpired
    case NotYetValid => ErrNotYetValid
    case DomainMismatch => ErrDomainMismatch
    case NonceMismatch => ErrNonceMismatch
  }

  /** mapErr ranges over a Go map, in any order; wraps is the set of siws sentinels errors.Is finds. */
  method MapErr(wraps: set<Siws.SiwsError>) returns (f: Failure)
    ensures wraps == {} ==> f == {ErrMalformed}
    ensures wraps != {} ==> exists e :: e in wraps && f == {ToSiwx(e)}
  {
    var todo := {Siws.Malformed, Siws.BadSignature, Siws.Expired, Siws.NotYetValid, Siws.DomainMismatch, Siws.NonceMismatch};
    assert wraps <= todo by {
      forall e | e in wraps ensures e in todo { AllSentinels(e); }
    }
    while todo != {}
      invariant wraps <= todo
      decreases todo
    {
      var sentinel :| sentinel in todo;
      if sentinel in wraps {
        return {ToSiwx(sentinel)};
      }
      todo := todo - {sentinel};
    }
    return {ErrMalformed};
  }

  lemma AllSentinels(e: Siws.SiwsError)
    ensures e in {Siws.Malformed, Siws.BadSignature, Siws.Expired, Siws.NotYetValid, Siws.DomainMismatch, Siws.NonceMismatch}
  {
  }

  function Failing(condition: bool, e: Sentinel): Option<Failure> {
    if condition then Some({e}) else None
  }

  function DomainStep(m: Message, opts: Opts): Step {
    Step(CheckDomain, Failing(opts.expected.domain == "" || m.domain != opts.expected.domain, ErrDomainMismatch))
  }

  function NotBeforeStep(m: Message, now: Instant): Step {
    Step(CheckNotBefore, Failing(m.notBefore.Some? && Before(now, m.notBefore.value), ErrNotYetValid))
  }

  function ExpiryStep(m: Message, now: Instant): Step {
    Step(CheckExpiry, Failing(m.expirationTime.Some? && !Before(now, m.expirationTime.value), ErrExpired))
  }

  function NonceStep(m: Message, opts: Opts): Step {
    Step(CheckNonce, Failing(m.nonce != opts.expected.nonce, ErrNonceMismatch))
  }

  /** The signature step is the whole of VerifyRaw again, with its own clock reading. */
  function SignatureStep(msg: string, sig: seq<byte>, opts: Opts, now: Instant, env: Env): Step {
    var r := VerifyRaw(msg, sig, opts.expected, now, env);
    Step(CheckSignature, if r.Ok? then None else Some({ToSiwx(r.error)}))
  }

  function Steps(m: Message, msg: string, sig: seq<byte>, opts: Opts, clock: Clock, env: Env): (s: seq<Step>)
    ensures |s| == 5 && forall i :: 0 <= i < 5 ==> s[i].name == NAMES[i]
  {
    [DomainStep(m, opts), NotBeforeStep(m, clock(0)), ExpiryStep(m, clock(1)), NonceStep(m, opts),
     SignatureStep(msg, sig, opts, clock(2), env)]
  }

  function Identify(m: Message): Identity {
    Identity(CAIP10(CAIP2("solana", m.chainId), m.address), m.domain, m.nonce, m.issuedAt, m.expirationTime)
  }

  /** What one call emits and returns. */
  function SolanaRun(msg: string, sig: seq<byte>, opts: Opts, clock: Clock, env: Env): Run {
    var parsed := Grammar.Parse(msg, env.reader);
    var first := ParsedEvent(opts.attemptId, parsed.Ok?, |msg|);
    if parsed.Err? then Run([first], Err({ToSiwx(parsed.error)}))
    else
      var (events, failed) := RunChecks(opts.attemptId, Steps(parsed.value, msg, sig, opts, clock, env));
      Run([first] + events, if failed.Some? then Err(failed.value) else Ok(Identify(parsed.value)))
  }

  // ----- The adapter as it runs -----

  /** Verify emits its run to every observer and returns its result. */
  method Verify(observers: seq<Observer>, msg: string, sig: seq<byte>, opts: Opts, clock: Clock, env: Env,
                ghost start: map<Observer, seq<Call>>, ghost before: seq<Event>)
    returns (r: Result<Identity, Failure>)
    requires Heard(observers, start, before)
    modifies observers
    ensures r == SolanaRun(msg, sig, opts, clock, env).result
    ensures Heard(observers, start, before + SolanaRun(msg, sig, opts, clock, env).events)
  {
    var parsed := Grammar.Parse(msg, env.reader);
    var first := ParsedEvent(opts.attemptId, parsed.Ok?, |msg|);
    Emit(observers, first, start, before);
    if parsed.Err? {
      r := MapToErr(parsed.error);
      return;
    }
    var m := parsed.value;
    ghost var steps := Steps(m, msg, sig, opts, clock, env);
    ghost var run := before + [first];
    var failed := RunSteps(observers, m, msg, sig, opts, clock, env, start, run);
    assert run + RunChecks(opts.attemptId, steps).0 == before + ([first] + RunChecks(opts.attemptId, steps).0);
    if failed.Some? {
      return Err(failed.value);
    }
    return Ok(Identify(m));
  }

  /** The loop over the four checks, and the signature check after it. */
  method RunSteps(observers: seq<Observer>, m: Message, msg: string, sig: seq<byte>, opts: Opts, clock: Clock, env: Env,
                  ghost start: map<Observer, seq<Call>>, ghost before: seq<Event>)
    returns (failed: Option<Failure>)
    requires Heard(observers, start, before)
    modifies observers
    ensures failed == RunChecks(opts.attemptId, Steps(m, msg, sig, opts, clock, env)).1
    ensures Heard(observers, start, before + RunChecks(opts.attemptId, Steps(m, msg, sig, opts, clock, env)).0)
  {
    ghost var steps := Steps(m, msg, sig, opts, clock, env);
    ghost var passed: seq<Event> := [];
    assert before + passed == before;
    for i := 0 to 4
      invariant PassReports(passed, opts.attemptId, steps, i) && forall k :: 0 <= k < i ==> steps[k].error.None?
      invariant Heard(observers, start, before + passed)
    {
      var step := CheckAt(m, opts, clock, i);
      StepIs(m, msg, sig, opts, clock, env, i);
      ghost var reported := passed;
      passed := Report(observers, opts.attemptId, step, start, before, reported);
      if step.error.Some? {
        RunStops(opts.attemptId, steps, i, reported);
        return step.error;
      }
    }
    var r := VerifyRaw(msg, sig, opts.expected, clock(2), env);
    if r.Err? {
      failed := MapToFailure(r.error);
    } else {
      failed := None;
    }
    StepIs(m, msg, sig, opts, clock, env, 4);
    RunStops(opts.attemptId, steps, 4, passed);
    passed := Report(observers, opts.attemptId, Step(CheckSignature, failed), start, before, passed);
  }

  function CheckAt(m: Message, opts: Opts, clock: Clock, i: nat): Step {
    match i
    case 0 => DomainStep(m, opts)
    case 1 => NotBeforeStep(m, clock(0))
    case 2 => ExpiryStep(m, clock(1))
    case _ => NonceStep(m, opts)
  }

  lemma StepIs(m: Message, msg: string, sig: seq<byte>, opts: Opts, clock: Clock, env: Env, i: nat)
    requires i < 5
    ensures Steps(m, msg, sig, opts, clock, env)[i] ==
      if i < 4 then CheckAt(m, opts, clock, i) else SignatureStep(msg, sig, opts, clock(2), env)
  {
  }

  method MapToFailure(e: Siws.SiwsError) returns (f: Option<Failure>)
    ensures f == Some({ToSiwx(e)})
  {
    var mapped := MapErr({e});
    f := Some(mapped);
  }

  method MapToErr(e: Siws.SiwsError) returns (r: Result<Identity, Failure>)
    ensures r == Err({ToSiwx(e)})
  {
    var f := MapErr({e});
    r := Err(f);
  }
}
