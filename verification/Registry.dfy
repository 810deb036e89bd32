/** siwx/registry.go: dispatch by namespace, and the events around each verification. */
module Registry {
  import opened Wrappers
  import opened VerifyOpts
  import opened Caip
  import opened Events
  import SiwsVerify
  import SolanaAdapter
  import SolanaTheorems
  import EvmAdapter
  import EvmTheorems

  /** The two verifiers of the repository, each with its foreign parts. */
  datatype Verifier = Solana(siws: SiwsVerify.Env) | Evm(evm: EvmAdapter.EvmEnv)

  function Namespace(v: Verifier): string {
    match v
    case Solana(_) => "solana"
    case Evm(_) => "eip155"
  }

  function AdapterRun(v: Verifier, msg: string, sig: seq<byte>, opts: Opts, clock: Clock): Run {
    match v
    case Solana(env) => SolanaAdapter.SolanaRun(msg, sig, opts, clock, env)
    case Evm(env) => EvmAdapter.EvmRun(msg, sig, opts, clock, env)
  }

  const SENTINELS := [ErrMalformed, ErrBadSignature, ErrExpired, ErrNotYetValid, ErrDomainMismatch, ErrNonceMismatch,
                      ErrUnsupportedNamespace, ErrContractValidationFailed, ErrContractWalletUnsupported, ErrRPC]

  /** Where in the list the first sentinel found in f stands. */
  function FirstIn(f: Failure, list: seq<Sentinel>): (k: nat)
    ensures k <= |list| && (forall i :: 0 <= i < k ==> list[i] !in f) && (k < |list| ==> list[k] in f)
  {
    if list == [] || list[0] in f then 0 else 1 + FirstIn(f, list[1..])
  }

  function SentinelFor(r: Result<Identity, Failure>): ErrorIs {
    if r.Ok? then NoError
    else
      var k := FirstIn(r.error, SENTINELS);
      if k < |SENTINELS| then Is(SENTINELS[k]) else Unknown
  }

  /** An empty id is replaced by a fresh one. */
  function WithId(opts: Opts, newId: string): Opts {
    if opts.attemptId == "" then opts.(attemptId := newId) else opts
  }

  function Finish(id: string, r: Result<Identity, Failure>, ns: string): Event {
    Finished(id, r.Ok?, SentinelFor(r), ns)
  }

  type Verifiers = map<string, Verifier>

  /** What a call emits between its first and last event, and returns. */
  function Dispatched(verifiers: Verifiers, ns: string, msg: string, sig: seq<byte>, opts: Opts, clock: Clock): Run {
    if ns in verifiers then AdapterRun(verifiers[ns], msg, sig, opts, clock) else Run([], Err({ErrUnsupportedNamespace}))
  }

  /** What one call emits and returns. */
  function RegistryRun(verifiers: Verifiers, chain: CAIP2, msg: string, sig: seq<byte>, opts: Opts, clock: Clock): Run {
    var inner := Dispatched(verifiers, chain.ns, msg, sig, opts, clock);
    Run([Attempt(opts.attemptId, chain.ns, opts.expected.domain)] + inner.events
        + [Finish(opts.attemptId, inner.result, chain.ns)],
        inner.result)
  }

  ghost predicate WellKeyed(verifiers: Verifiers) {
    forall ns :: ns in verifiers ==> Namespace(verifiers[ns]) == ns
  }

  class Registry {
    var verifiers: Verifiers

    ghost predicate Valid()
      reads this
    {
      WellKeyed(verifiers)
    }

    constructor ()
      ensures Valid() && verifiers == map[]
    {
      verifiers := map[];
    }

    method Register(v: Verifier)
      requires Valid()
      modifies this
      ensures Valid() && verifiers == old(verifiers)[Namespace(v) := v]
    {
      verifiers := verifiers[Namespace(v) := v];
    }

    /**
     * Verify returns the result of its run; every observer is offered the whole run, so one that is listed once and
     * does not panic meanwhile keeps all of it, whatever the other observers do.
     */
    method Verify(observers: seq<Observer>, chain: CAIP2, msg: string, sig: seq<byte>, opts: Opts, newId: string, clock: Clock)
      returns (r: Result<Identity, Failure>)
      modifies observers
      ensures r == RegistryRun(verifiers, chain, msg, sig, WithId(opts, newId), clock).result
      ensures Heard(observers, old(CallsOf(observers)), RegistryRun(verifiers, chain, msg, sig, WithId(opts, newId), clock).events)
      ensures KeptWhole(observers, old(CallsOf(observers)),
                        RegistryRun(verifiers, chain, msg, sig, WithId(opts, newId), clock).events)
    {
      ghost var start := CallsOf(observers);
      var used := WithId(opts, newId);
      var first := Attempt(used.attemptId, chain.ns, used.expected.domain);
      ghost var events := [first];
      StartHeard(observers, start);
      Emit(observers, first, start, []);
      ghost var inner := Dispatched(verifiers, chain.ns, msg, sig, used, clock);
      r := Delegate(observers, chain.ns, msg, sig, used, clock, start, events);
      events := events + inner.events;
      var last := Finish(used.attemptId, r, chain.ns);
      Emit(observers, last, start, events);
      events := events + [last];
      WholeTraces(observers, start, events);
    }

    /** The lookup under the lock, and the call of the verifier found. */
    method Delegate(observers: seq<Observer>, ns: string, msg: string, sig: seq<byte>, opts: Opts, clock: Clock,
                    ghost start: map<Observer, seq<Call>>, ghost before: seq<Event>)
      returns (r: Result<Identity, Failure>)
      requires Heard(observers, start, before)
      modifies observers
      ensures r == Dispatched(verifiers, ns, msg, sig, opts, clock).result
      ensures Heard(observers, start, before + Dispatched(verifiers, ns, msg, sig, opts, clock).events)
    {
      if ns !in verifiers {
        assert before + [] == before;
        return Err({ErrUnsupportedNamespace});
      }
      match verifiers[ns]
      case Solana(env) => r := SolanaAdapter.Verify(observers, msg, sig, opts, clock, env, start, before);
      case Evm(env) => r := EvmAdapter.Verify(observers, msg, sig, opts, clock, env, start, before);
    }
  }

  /** Every observer listed once was offered the events in order, and kept them all unless it panicked itself. */
  ghost predicate KeptWhole(observers: seq<Observer>, start: map<Observer, seq<Call>>, events: seq<Event>)
    reads observers
  {
    forall o :: o in observers && multiset(observers)[o] == 1 ==> o in start && WholeTrace(start[o], o.calls, events)
  }

  ghost predicate WholeTrace(at: seq<Call>, calls: seq<Call>, events: seq<Event>) {
    Got(at, calls, events) && (NoPanic(calls[|at|..]) ==> Kept(calls) == Kept(at) + events)
  }

  lemma StartHeard(observers: seq<Observer>, start: map<Observer, seq<Call>>)
    requires start == CallsOf(observers)
    ensures Heard(observers, start, [])
  {
  }

  lemma WholeTraces(observers: seq<Observer>, start: map<Observer, seq<Call>>, events: seq<Event>)
    requires Heard(observers, start, events)
    ensures KeptWhole(observers, start, events)
  {
    forall o | o in observers && multiset(observers)[o] == 1 ensures o in start && WholeTrace(start[o], o.calls, events) {
      TimesOnce(events);
      if NoPanic(o.calls[|start[o]|..]) {
        KeptAll(start[o], o.calls, events);
      }
    }
  }

  // ----- The language of a registry run -----

  /** The events between the first and the last. */
  function Middle(events: seq<Event>): seq<Event>
    requires |events| >= 2
  {
    events[1..|events| - 1]
  }

  ghost predicate OneId(events: seq<Event>, id: string) {
    forall i :: 0 <= i < |events| ==> events[i].id == id
  }

  /** Attempt, then the adapter's trace when there is an adapter, then Finished; one id throughout. */
  ghost predicate RegistryTrace(run: Run, id: string, ns: string, registered: bool) {
    && |run.events| >= 2 && OneId(run.events, id)
    && run.events[0].Attempt? && run.events[0].ns == ns
    && (if registered then AdapterTrace(Run(Middle(run.events), run.result), id)
        else Middle(run.events) == [] && run.result == Err({ErrUnsupportedNamespace}))
    && run.events[|run.events| - 1] == Finish(id, run.result, ns)
  }

  lemma AdapterRunTrace(v: Verifier, msg: string, sig: seq<byte>, opts: Opts, clock: Clock)
    ensures AdapterTrace(AdapterRun(v, msg, sig, opts, clock), opts.attemptId)
  {
    match v
    case Solana(env) => SolanaTheorems.SolanaTrace(msg, sig, opts, clock, env);
    case Evm(env) => EvmTheorems.EvmTrace(msg, sig, opts, clock, env);
  }

  lemma AdapterOneId(run: Run, id: string)
    requires AdapterTrace(run, id)
    ensures OneId(run.events, id)
  {
    forall i | 0 <= i < |run.events| ensures run.events[i].id == id {
      if i > 0 { assert run.events[i] == run.events[1..][i - 1]; }
    }
  }

  /** Every run, through either adapter or none, is a sentence of that language. */
  lemma RunTrace(verifiers: Verifiers, chain: CAIP2, msg: string, sig: seq<byte>, opts: Opts, clock: Clock)
    ensures RegistryTrace(RegistryRun(verifiers, chain, msg, sig, opts, clock), opts.attemptId, chain.ns, chain.ns in verifiers)
  {
    var run := RegistryRun(verifiers, chain, msg, sig, opts, clock);
    var inner := Dispatched(verifiers, chain.ns, msg, sig, opts, clock);
    assert Middle(run.events) == inner.events;
    if chain.ns in verifiers {
      AdapterRunTrace(verifiers[chain.ns], msg, sig, opts, clock);
      AdapterOneId(inner, opts.attemptId);
    }
  }

  /** An identity is returned exactly when all five checks were reported and true. */
  lemma IdentityIffAllChecks(verifiers: Verifiers, chain: CAIP2, msg: string, sig: seq<byte>, opts: Opts, clock: Clock)
    ensures var run := RegistryRun(verifiers, chain, msg, sig, opts, clock);
      run.result.Ok? <==> |run.events| == 8 && AllPassed(run.events[2..7])
  {
    var run := RegistryRun(verifiers, chain, msg, sig, opts, clock);
    RunTrace(verifiers, chain, msg, sig, opts, clock);
    if chain.ns in verifiers {
      var inner := Run(Middle(run.events), run.result);
      assert AdapterTrace(inner, opts.attemptId);
      if |run.events| == 8 { assert run.events[2..7] == inner.events[1..]; }
    }
  }

  /** The last event tells the outcome: no error, or the first sentinel of the returned error in the fixed order. */
  lemma OutcomeReported(verifiers: Verifiers, chain: CAIP2, msg: string, sig: seq<byte>, opts: Opts, clock: Clock)
    ensures var run := RegistryRun(verifiers, chain, msg, sig, opts, clock);
      var last := run.events[|run.events| - 1];
      && (last.ok <==> run.result.Ok?) && (last.ok <==> last.errorIs == NoError)
      && (last.errorIs.Is? ==> run.result.Err? && last.errorIs.sentinel in run.result.error)
      && (last.errorIs == Unknown <==> run.result == Err({}))
  {
    var run := RegistryRun(verifiers, chain, msg, sig, opts, clock);
    if run.result.Err? {
      EverySentinelListed(run.result.error);
    }
  }

  lemma EverySentinelListed(f: Failure)
    ensures FirstIn(f, SENTINELS) == |SENTINELS| <==> f == {}
  {
    if f != {} {
      var s :| s in f;
      var k := match s
        case ErrMalformed => 0 case ErrBadSignature => 1 case ErrExpired => 2 case ErrNotYetValid => 3
        case ErrDomainMismatch => 4 case ErrNonceMismatch => 5 case ErrUnsupportedNamespace => 6
        case ErrContractValidationFailed => 7 case ErrContractWalletUnsupported => 8 case ErrRPC => 9;
      assert SENTINELS[k] == s;
    }
  }

  // ----- What a run reports, spelled out -----

  /** Of several sentinels in an error the first of this list is reported. */
  function FirstSentinel(r: Result<Identity, Failure>): ErrorIs {
    match r
    case Ok(_) => NoError
    case Err(f) =>
      if ErrMalformed in f then Is(ErrMalformed)
      else if ErrBadSignature in f then Is(ErrBadSignature)
      else if ErrExpired in f then Is(ErrExpired)
      else if ErrNotYetValid in f then Is(ErrNotYetValid)
      else if ErrDomainMismatch in f then Is(ErrDomainMismatch)
      else if ErrNonceMismatch in f then Is(ErrNonceMismatch)
      else if ErrUnsupportedNamespace in f then Is(ErrUnsupportedNamespace)
      else if ErrContractValidationFailed in f then Is(ErrContractValidationFailed)
      else if ErrContractWalletUnsupported in f then Is(ErrContractWalletUnsupported)
      else if ErrRPC in f then Is(ErrRPC)
      else Unknown
  }

  lemma FirstReported(r: Result<Identity, Failure>)
    ensures SentinelFor(r) == FirstSentinel(r)
  {
    if r.Err? {
      var f := r.error;
      var k := if ErrMalformed in f then 0 else if ErrBadSignature in f then 1 else if ErrExpired in f then 2
               else if ErrNotYetValid in f then 3 else if ErrDomainMismatch in f then 4 else if ErrNonceMismatch in f then 5
               else if ErrUnsupportedNamespace in f then 6 else if ErrContractValidationFailed in f then 7
               else if ErrContractWalletUnsupported in f then 8 else if ErrRPC in f then 9 else 10;
      FirstAt(f, SENTINELS, k);
    }
  }

  lemma FirstAt(f: Failure, list: seq<Sentinel>, k: nat)
    requires k <= |list| && (forall i :: 0 <= i < k ==> list[i] !in f) && (k < |list| ==> list[k] in f)
    ensures FirstIn(f, list) == k
  {
  }

  /**
   * A call reports, all under the caller's id or under a new one if the caller gave none: the attempt, what the verifier
   * of the namespace reports, and its outcome. Without such a verifier it fails as unsupported.
   */
  lemma CallReported(verifiers: Verifiers, chain: CAIP2, msg: string, sig: seq<byte>, opts: Opts, newId: string, clock: Clock)
    ensures var (id, run) := (if opts.attemptId == "" then newId else opts.attemptId,
                              RegistryRun(verifiers, chain, msg, sig, WithId(opts, newId), clock));
      && |run.events| >= 2 && OneId(run.events, id)
      && run.events[0] == Attempt(id, chain.ns, opts.expected.domain)
      && run.events[|run.events| - 1] == Finished(id, run.result.Ok?, FirstSentinel(run.result), chain.ns)
      && (chain.ns !in verifiers ==> |run.events| == 2 && run.result == Err({ErrUnsupportedNamespace}))
      && (chain.ns in verifiers ==>
            Run(run.events[1..|run.events| - 1], run.result)
              == AdapterRun(verifiers[chain.ns], msg, sig, Opts(opts.expected, id), clock))
  {
    var used := WithId(opts, newId);
    var run := RegistryRun(verifiers, chain, msg, sig, used, clock);
    RunTrace(verifiers, chain, msg, sig, used, clock);
    FirstReported(run.result);
    assert run.events[1..|run.events| - 1] == Dispatched(verifiers, chain.ns, msg, sig, used, clock).events;
  }
}
