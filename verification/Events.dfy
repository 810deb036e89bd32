/** siwx/observer.go and siwx/errors.go: verification events, the observers they go to, and the language of one run. */
module Events {
  import opened Wrappers
  import opened Timestamps
  import opened Caip

  datatype Sentinel =
    | ErrMalformed | ErrBadSignature | ErrExpired | ErrNotYetValid | ErrDomainMismatch | ErrNonceMismatch
    | ErrUnsupportedNamespace | ErrContractValidationFailed | ErrContractWalletUnsupported | ErrRPC

  /** An error, by the sentinels errors.Is finds in it. */
  type Failure = set<Sentinel>

  /** The ErrorIs of an event: nil, a sentinel, or an error that is none of them. */
  datatype ErrorIs = NoError | Is(sentinel: Sentinel) | Unknown

  datatype CheckName = CheckDomain | CheckNotBefore | CheckExpiry | CheckNonce | CheckSignature

  /** Durations are left out. */
  datatype Event =
    | Attempt(id: string, ns: string, domain: string)
    | Parsed(id: string, ok: bool, errorIs: ErrorIs, msgBytes: nat)
    | Checked(id: string, check: CheckName, ok: bool)
    | Finished(id: string, ok: bool, errorIs: ErrorIs, ns: string)

  datatype Identity = Identity(account: CAIP10, domain: string, nonce: string, issuedAt: Instant, expiresAt: Option<Instant>)

  /** What one call emits, in order, and returns. */
  datatype Run = Run(events: seq<Event>, result: Result<Identity, Failure>)

  // ----- Observers -----

  /** One event offered to an observer, and whether the observer panicked on it. */
  datatype Call = Call(event: Event, panicked: bool)

  function Offered(calls: seq<Call>): (events: seq<Event>)
    ensures |events| == |calls| && forall i :: 0 <= i < |calls| ==> events[i] == calls[i].event
  {
    seq(|calls|, i requires 0 <= i < |calls| => calls[i].event)
  }

  /** What an observer keeps: nothing of an event it panics on. */
  function Kept(calls: seq<Call>): seq<Event> {
    if calls == [] then []
    else
      var last := calls[|calls| - 1];
      Kept(calls[..|calls| - 1]) + if last.panicked then [] else [last.event]
  }

  /** An observer, by the calls it has had. It may panic at any call, on one event at one time and not at another. */
  class Observer {
    var calls: seq<Call>

    constructor ()
      ensures calls == []
    {
      calls := [];
    }

    /** Any of the four On methods; the result says whether it panicked. */
    method On(e: Event) returns (panicked: bool)
      modifies this
      ensures calls == old(calls) + [Call(e, panicked)]
    {
      panicked := *;
      calls := calls + [Call(e, panicked)];
    }
  }

  /** From the calls at to the calls since, exactly these events were offered. */
  ghost predicate Got(at: seq<Call>, calls: seq<Call>, events: seq<Event>) {
    at <= calls && Offered(calls[|at|..]) == events
  }

  lemma GotOne(at: seq<Call>, calls: seq<Call>, events: seq<Event>, c: Call)
    requires Got(at, calls, events)
    ensures Got(at, calls + [c], events + [c.event])
  {
    assert (calls + [c])[|at|..] == calls[|at|..] + [c];
  }

  lemma GotMore(at: seq<Call>, mid: seq<Call>, calls: seq<Call>, first: seq<Event>, second: seq<Event>)
    requires Got(at, mid, first) && Got(mid, calls, second)
    ensures Got(at, calls, first + second)
  {
    assert calls[|at|..] == mid[|at|..] + calls[|mid|..];
  }

  /** The trace of an observer listed n times. */
  function Times(n: nat, events: seq<Event>): seq<Event> {
    if events == [] then [] else Times(n, events[..|events| - 1]) + Repeat(events[|events| - 1], n)
  }

  lemma TimesSnoc(n: nat, events: seq<Event>, e: Event)
    ensures Times(n, events + [e]) == Times(n, events) + Repeat(e, n)
  {
    assert (events + [e])[..|events|] == events;
  }

  lemma {:induction false} TimesOnce(events: seq<Event>)
    ensures Times(1, events) == events
  {
    if events != [] {
      TimesOnce(events[..|events| - 1]);
    }
  }

  /** An observer keeps an event exactly if it was called with it and did not panic. */
  lemma {:induction false} KeptIff(calls: seq<Call>, e: Event)
    ensures e in Kept(calls) <==> Call(e, false) in calls
  {
    if calls != [] {
      var front, last := calls[..|calls| - 1], calls[|calls| - 1];
      KeptIff(front, e);
      assert calls == front + [last];
    }
  }

  predicate NoPanic(calls: seq<Call>) {
    forall i :: 0 <= i < |calls| ==> !calls[i].panicked
  }

  /** An observer that has not panicked since then has kept every event offered since then, in order. */
  lemma {:induction false} KeptAll(at: seq<Call>, calls: seq<Call>, events: seq<Event>)
    requires Got(at, calls, events) && NoPanic(calls[|at|..])
    ensures Kept(calls) == Kept(at) + events
    decreases |calls|
  {
    if |calls| > |at| {
      var init, last := calls[..|calls| - 1], |events| - 1;
      assert init[|at|..] == calls[|at|..][..last];
      assert calls[|at|..][last] == calls[|calls| - 1];
      KeptAll(at, init, events[..last]);
      assert events == events[..last] + [events[last]];
    } else {
      assert calls == at && events == [];
    }
  }

  /** Since start, every observer of the list has been offered the events emitted, each as often as it is listed. */
  ghost predicate Heard(observers: seq<Observer>, start: map<Observer, seq<Call>>, emitted: seq<Event>)
    reads observers
  {
    forall o :: o in observers ==> o in start && Got(start[o], o.calls, Times(multiset(observers)[o], emitted))
  }

  /** The calls had at this point. */
  ghost function CallsOf(observers: seq<Observer>): (start: map<Observer, seq<Call>>)
    reads observers
  {
    map o | o in observers :: o.calls
  }

  /** multiObserver: every observer in order, each behind safeCall. */
  method Emit(observers: seq<Observer>, e: Event, ghost start: map<Observer, seq<Call>>, ghost emitted: seq<Event>)
    requires Heard(observers, start, emitted)
    modifies observers
    ensures Heard(observers, start, emitted + [e])
  {
    ghost var at := CallsOf(observers);
    FanOut(observers, e, at);
    assert observers[..|observers|] == observers;
    forall o | o in observers ensures Got(start[o], o.calls, Times(multiset(observers)[o], emitted + [e])) {
      var n := multiset(observers)[o];
      TimesSnoc(n, emitted, e);
      GotMore(start[o], at[o], o.calls, Times(n, emitted), Repeat(e, n));
    }
  }

  /** The observers before i have been offered e. */
  ghost predicate OfferedUpTo(observers: seq<Observer>, e: Event, at: map<Observer, seq<Call>>, i: nat)
    requires i <= |observers|
    reads observers
  {
    forall o :: o in observers ==> o in at && Got(at[o], o.calls, Repeat(e, multiset(observers[..i])[o]))
  }

  method FanOut(observers: seq<Observer>, e: Event, ghost at: map<Observer, seq<Call>>)
    requires at == CallsOf(observers)
    modifies observers
    ensures OfferedUpTo(observers, e, at, |observers|)
  {
    for i := 0 to |observers|
      invariant OfferedUpTo(observers, e, at, i)
    {
      SafeCall(observers, e, at, i);
    }
  }

  /** safeCall: a panic of one observer goes no further. */
  method SafeCall(observers: seq<Observer>, e: Event, ghost at: map<Observer, seq<Call>>, i: nat)
    requires i < |observers| && OfferedUpTo(observers, e, at, i)
    modifies observers
    ensures OfferedUpTo(observers, e, at, i + 1)
  {
    OneListing(observers, i);
    ghost var o, calls := observers[i], observers[i].calls;
    ghost var n := multiset(observers[..i])[o];
    var panicked := observers[i].On(e);
    GotOne(at[o], calls, Repeat(e, n), Call(e, panicked));
    assert Repeat(e, n + 1) == Repeat(e, n) + [e];
  }

  lemma OneListing(observers: seq<Observer>, i: nat)
    requires i < |observers|
    ensures forall o ::
      multiset(observers[..i + 1])[o] == multiset(observers[..i])[o] + if o == observers[i] then 1 else 0
  {
    assert observers[..i + 1] == observers[..i] + [observers[i]];
  }

  // ----- The language of one run -----

  const NAMES := [CheckDomain, CheckNotBefore, CheckExpiry, CheckNonce, CheckSignature]

  /** A non-empty prefix of the five checks in order, in which only the last may fail. */
  ghost predicate ChecksTrace(events: seq<Event>, id: string) {
    && 1 <= |events| <= 5
    && (forall i :: 0 <= i < |events| ==> events[i].Checked? && events[i].id == id && events[i].check == NAMES[i])
    && (forall i :: 0 <= i < |events| - 1 ==> events[i].ok)
    && (|events| < 5 ==> !events[|events| - 1].ok)
  }

  ghost predicate AllPassed(events: seq<Event>) {
    |events| == 5 && forall i :: 0 <= i < 5 ==> events[i].Checked? && events[i].ok
  }

  /** One adapter call: one parse result, and after a successful parse the checks; accepted iff all five passed. */
  ghost predicate AdapterTrace(run: Run, id: string) {
    && run.events != [] && run.events[0].Parsed? && run.events[0].id == id
    && (run.events[0].ok <==> run.events[0].errorIs == NoError)
    && (if run.events[0].ok then ChecksTrace(run.events[1..], id) else |run.events| == 1)
    && (run.result.Ok? <==> run.events[0].ok && AllPassed(run.events[1..]))
  }

  // ----- Running checks -----

  /** A check's name and the error it would return. */
  datatype Step = Step(name: CheckName, error: Option<Failure>)

  /** Emits one result per check and stops at the first failure. */
  function RunChecks(id: string, steps: seq<Step>): (r: (seq<Event>, Option<Failure>)) {
    if steps == [] then ([], None)
    else
      var s := steps[0];
      var e := Checked(id, s.name, s.error.None?);
      if s.error.Some? then ([e], s.error)
      else
        var (events, failed) := RunChecks(id, steps[1..]);
        ([e] + events, failed)
  }

  /** Passing reports for the checks before k. */
  ghost predicate PassReports(passed: seq<Event>, id: string, steps: seq<Step>, k: nat) {
    |passed| == k <= |steps| && forall i :: 0 <= i < k ==> passed[i] == Checked(id, steps[i].name, true)
  }

  /** When the checks before k passed, they were reported, and the run goes on as from k. */
  lemma {:induction false} RunChecksPassed(id: string, steps: seq<Step>, k: nat, passed: seq<Event>)
    requires PassReports(passed, id, steps, k) && forall i :: 0 <= i < k ==> steps[i].error.None?
    ensures RunChecks(id, steps).0 == passed + RunChecks(id, steps[k..]).0
    ensures RunChecks(id, steps).1 == RunChecks(id, steps[k..]).1
  {
    if k > 0 {
      RunChecksPassed(id, steps[1..], k - 1, passed[1..]);
      assert steps[1..][k - 1..] == steps[k..];
      assert passed == [passed[0]] + passed[1..];
    } else {
      assert steps[0..] == steps && passed == [];
    }
  }

  /** A run stops at its first failure, and after its last check. */
  lemma RunStops(id: string, steps: seq<Step>, k: nat, passed: seq<Event>)
    requires PassReports(passed, id, steps, k) && k < |steps| && forall i :: 0 <= i < k ==> steps[i].error.None?
    requires steps[k].error.Some? || k == |steps| - 1
    ensures RunChecks(id, steps) == (passed + [Checked(id, steps[k].name, steps[k].error.None?)], steps[k].error)
  {
    RunChecksPassed(id, steps, k, passed);
    var rest, e := steps[k..], Checked(id, steps[k].name, steps[k].error.None?);
    assert rest[0] == steps[k];
    if steps[k].error.None? {
      assert rest[1..] == [] && [e] + [] == [e];
    }
  }

  /** The first failing check, or the number of checks. */
  function FirstFailure(steps: seq<Step>): (k: nat)
    ensures k <= |steps| && (forall i :: 0 <= i < k ==> steps[i].error.None?) && (k < |steps| ==> steps[k].error.Some?)
  {
    if steps == [] || steps[0].error.Some? then 0 else 1 + FirstFailure(steps[1..])
  }

  lemma RunChecksTrace(id: string, steps: seq<Step>)
    requires |steps| == 5 && forall i :: 0 <= i < 5 ==> steps[i].name == NAMES[i]
    ensures var (events, failed) := RunChecks(id, steps);
      ChecksTrace(events, id) && (failed.None? <==> AllPassed(events))
      && |events| == (if FirstFailure(steps) < 5 then FirstFailure(steps) + 1 else 5)
      && failed == if FirstFailure(steps) < 5 then steps[FirstFailure(steps)].error else None
  {
    var k := FirstFailure(steps);
    var last := if k < 5 then k else 4;
    var passed := seq(last, i requires 0 <= i < last => Checked(id, steps[i].name, true));
    RunStops(id, steps, last, passed);
  }

  /** The first step that objects decides. */
  lemma FirstOf(steps: seq<Step>, k: nat)
    requires |steps| == 5 && k <= 5 && forall i :: 0 <= i < k ==> steps[i].error.None?
    requires k < 5 ==> steps[k].error.Some?
    ensures FirstFailure(steps) == k
  {
  }

  lemma AllPass(steps: seq<Step>)
    requires |steps| == 5
    ensures FirstFailure(steps) == 5 <==>
      steps[0].error.None? && steps[1].error.None? && steps[2].error.None? && steps[3].error.None? && steps[4].error.None?
  {
    var f := FirstFailure(steps);
    if f < 5 { assert steps[f].error.Some?; }
  }

  function ParsedEvent(id: string, ok: bool, bytes: nat): Event {
    Parsed(id, ok, if ok then NoError else Is(ErrMalformed), bytes)
  }

  /** Emits the result of one check. */
  method Report(observers: seq<Observer>, id: string, step: Step,
                ghost start: map<Observer, seq<Call>>, ghost before: seq<Event>, ghost reported: seq<Event>)
    returns (ghost all: seq<Event>)
    requires Heard(observers, start, before + reported)
    modifies observers
    ensures all == reported + [Checked(id, step.name, step.error.None?)] && Heard(observers, start, before + all)
  {
    var e := Checked(id, step.name, step.error.None?);
    Emit(observers, e, start, before + reported);
    all := reported + [e];
    assert before + all == before + reported + [e];
  }
}
