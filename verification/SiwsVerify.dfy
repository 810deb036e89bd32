/** siws/verify.go: the ordered checks, with Ed25519 left open. */
module SiwsVerify {
  import opened Wrappers
  import opened Timestamps
  import opened Calendar
  import opened VerifyOpts
  import opened SiwsMessage
  import opened SiwsGrammar
  import opened SiwsErrors
  import opened SiwsTheorems
  import Base58

  /** ed25519.Verify(key, message, signature), and the timestamp reader of the parser. */
  datatype Env = Env(reader: TimeReader, ed25519: (seq<byte>, string, seq<byte>) -> bool)

  const SIGNATURE_SIZE := 64
  const KEY_SIZE := 32

  // ----- The checks; None is a pass -----

  function CheckDomain(m: Message, expected: string): Option<SiwsError> {
    if expected == "" || m.domain != expected then Some(DomainMismatch) else None
  }

  function CheckNotBefore(m: Message, now: Instant): Option<SiwsError> {
    if m.notBefore.Some? && Before(now, m.notBefore.value) then Some(NotYetValid) else None
  }

  function CheckExpiry(m: Message, now: Instant): Option<SiwsError> {
    if m.expirationTime.Some? && !Before(now, m.expirationTime.value) then Some(Expired) else None
  }

  function CheckNonce(m: Message, expected: string): Option<SiwsError> {
    if m.nonce != expected then Some(NonceMismatch) else None
  }

  function CheckSig(address: string, msg: string, sig: seq<byte>, env: Env): Option<SiwsError> {
    if |sig| != SIGNATURE_SIZE then Some(BadSignature)
    else
      var key := Base58.Decode(address);
      if key.Err? || |key.value| != KEY_SIZE then Some(BadSignature)
      else if !env.ed25519(key.value, msg, sig) then Some(BadSignature)
      else None
  }

  /** The checks on a parsed message, over the bytes that were signed. */
  function CheckAll(m: Message, signed: string, sig: seq<byte>, expected: Expected, now: Instant, env: Env): Option<SiwsError> {
    if CheckDomain(m, expected.domain).Some? then CheckDomain(m, expected.domain)
    else if CheckNotBefore(m, now).Some? then CheckNotBefore(m, now)
    else if CheckExpiry(m, now).Some? then CheckExpiry(m, now)
    else if CheckNonce(m, expected.nonce).Some? then CheckNonce(m, expected.nonce)
    else CheckSig(m.address, signed, sig, env)
  }

  /** VerifyRaw; now is the one clock reading it makes, after the domain check. */
  function VerifyRaw(msg: string, sig: seq<byte>, expected: Expected, now: Instant, env: Env): Result<Message, SiwsError> {
    if expected.domain == "" || expected.nonce == "" then Err(Malformed)
    else
      var parsed := Parse(msg, env.reader);
      if parsed.Err? then parsed
      else
        var failed := CheckAll(parsed.value, msg, sig, expected, now, env);
        if failed.Some? then Err(failed.value) else parsed
  }

  /** Message.Verify, over the re-serialised text. */
  function VerifyMessage(m: Message, sig: seq<byte>, expected: Expected, now: Instant, env: Env): Option<SiwsError>
    requires TimesOnCalendar(m)
  {
    if expected.domain == "" || expected.nonce == "" then Some(Malformed)
    else CheckAll(m, Printed(m), sig, expected, now, env)
  }

  // ----- What acceptance and each failure mean -----

  predicate Signed(address: string, msg: string, sig: seq<byte>, env: Env) {
    |sig| == SIGNATURE_SIZE && Base58.Decode(address).Ok? && env.ed25519(Base58.Decode(address).value, msg, sig)
  }

  /** What a relying party relies on, apart from the parse, without an order. */
  predicate Trustworthy(m: Message, msg: string, sig: seq<byte>, expected: Expected, now: Instant, env: Env) {
    && m.domain == expected.domain != "" && m.nonce == expected.nonce != ""
    && (m.notBefore.Some? ==> !Before(now, m.notBefore.value))
    && (m.expirationTime.Some? ==> Before(now, m.expirationTime.value))
    && Signed(m.address, msg, sig, env)
  }

  ghost predicate Genuine(m: Message, msg: string, sig: seq<byte>, expected: Expected, now: Instant, env: Env) {
    Parse(msg, env.reader) == Ok(m) && Trustworthy(m, msg, sig, expected, now, env)
  }

  datatype Stage = Preconditions | Parsing | Domain | NotBeforeStage | ExpiryStage | NonceStage | SignatureStage

  /** The order of the checks. */
  function Position(stage: Stage): nat {
    match stage
    case Preconditions => 0
    case Parsing => 1
    case Domain => 2
    case NotBeforeStage => 3
    case ExpiryStage => 4
    case NonceStage => 5
    case SignatureStage => 6
  }

  function StageError(stage: Stage): SiwsError {
    match stage
    case Preconditions => Malformed
    case Parsing => Malformed
    case Domain => DomainMismatch
    case NotBeforeStage => NotYetValid
    case ExpiryStage => Expired
    case NonceStage => NonceMismatch
    case SignatureStage => BadSignature
  }

  /** Whether a stage, looked at alone, objects; stages after parsing look at the parsed message. */
  ghost predicate Objects(stage: Stage, msg: string, sig: seq<byte>, expected: Expected, now: Instant, env: Env) {
    ObjectsTo(stage, Parse(msg, env.reader), msg, sig, expected, now, env)
  }

  predicate ObjectsTo(stage: Stage, parsed: Result<Message, SiwsError>, msg: string, sig: seq<byte>, expected: Expected,
                      now: Instant, env: Env)
  {
    match stage
    case Preconditions => expected.domain == "" || expected.nonce == ""
    case Parsing => parsed.Err?
    case Domain => parsed.Ok? && parsed.value.domain != expected.domain
    case NotBeforeStage => parsed.Ok? && parsed.value.notBefore.Some? && Before(now, parsed.value.notBefore.value)
    case ExpiryStage => parsed.Ok? && parsed.value.expirationTime.Some? && !Before(now, parsed.value.expirationTime.value)
    case NonceStage => parsed.Ok? && parsed.value.nonce != expected.nonce
    case SignatureStage => parsed.Ok? && !Signed(parsed.value.address, msg, sig, env)
  }

  lemma ParsedKey(msg: string, env: Env)
    requires Parse(msg, env.reader).Ok?
    ensures ValidAddress(Parse(msg, env.reader).value.address)
  {
    ParsedIsWellFormed(msg, Parse(msg, env.reader).value, env.reader);
  }

  lemma RawOfParsed(msg: string, m: Message, sig: seq<byte>, expected: Expected, now: Instant, env: Env)
    requires Parse(msg, env.reader) == Ok(m)
    ensures VerifyRaw(msg, sig, expected, now, env) ==
      if expected.domain == "" || expected.nonce == "" then Err(Malformed)
      else match CheckAll(m, msg, sig, expected, now, env) case None => Ok(m) case Some(e) => Err(e)
  {
  }

  lemma ChecksPass(m: Message, msg: string, sig: seq<byte>, expected: Expected, now: Instant, env: Env)
    requires ValidAddress(m.address)
    ensures expected.domain != "" && expected.nonce != "" && CheckAll(m, msg, sig, expected, now, env).None? <==>
      Trustworthy(m, msg, sig, expected, now, env)
  {
  }

  /** VerifyRaw accepts exactly the genuine sign-ins, and returns what was parsed. */
  lemma AcceptsGenuine(msg: string, sig: seq<byte>, expected: Expected, now: Instant, env: Env, m: Message)
    ensures VerifyRaw(msg, sig, expected, now, env) == Ok(m) <==> Genuine(m, msg, sig, expected, now, env)
  {
    var parsed := Parse(msg, env.reader);
    if parsed.Ok? {
      ParsedKey(msg, env);
      RawOfParsed(msg, parsed.value, sig, expected, now, env);
      ChecksPass(parsed.value, msg, sig, expected, now, env);
    }
  }

  /** A refusal carries the error of the first stage that objects, and only that. */
  lemma FirstObjection(msg: string, sig: seq<byte>, expected: Expected, now: Instant, env: Env, stage: Stage)
    requires Objects(stage, msg, sig, expected, now, env)
    requires forall earlier :: Position(earlier) < Position(stage) ==> !Objects(earlier, msg, sig, expected, now, env)
    ensures VerifyRaw(msg, sig, expected, now, env) == Err(StageError(stage))
  {
    if Parse(msg, env.reader).Ok? {
      ParsedKey(msg, env);
      assert stage != Preconditions ==> !Objects(Preconditions, msg, sig, expected, now, env);
      if Position(stage) >= 2 {
        FirstCheck(Parse(msg, env.reader).value, msg, sig, expected, now, env, stage);
      }
    } else {
      assert stage == Preconditions || !Objects(Preconditions, msg, sig, expected, now, env);
    }
  }

  /** The stage's error, if its check on the parsed message fails. */
  function CheckOf(stage: Stage, m: Message, msg: string, sig: seq<byte>, expected: Expected, now: Instant, env: Env): Option<SiwsError> {
    match stage
    case Domain => CheckDomain(m, expected.domain)
    case NotBeforeStage => CheckNotBefore(m, now)
    case ExpiryStage => CheckExpiry(m, now)
    case NonceStage => CheckNonce(m, expected.nonce)
    case SignatureStage => CheckSig(m.address, msg, sig, env)
    case _ => None
  }

  lemma ObjectsIsCheck(stage: Stage, m: Message, msg: string, sig: seq<byte>, expected: Expected, now: Instant, env: Env)
    requires Parse(msg, env.reader) == Ok(m) && ValidAddress(m.address) && expected.domain != "" && Position(stage) >= 2
    ensures CheckOf(stage, m, msg, sig, expected, now, env) ==
      if Objects(stage, msg, sig, expected, now, env) then Some(StageError(stage)) else None
  {
  }

  lemma FirstCheck(m: Message, msg: string, sig: seq<byte>, expected: Expected, now: Instant, env: Env, stage: Stage)
    requires Parse(msg, env.reader) == Ok(m) && ValidAddress(m.address) && expected.domain != "" && Position(stage) >= 2
    requires Objects(stage, msg, sig, expected, now, env)
    requires forall earlier :: Position(earlier) < Position(stage) ==> !Objects(earlier, msg, sig, expected, now, env)
    ensures CheckAll(m, msg, sig, expected, now, env) == Some(StageError(stage))
  {
    forall s | 2 <= Position(s) <= Position(stage)
      ensures CheckOf(s, m, msg, sig, expected, now, env) == if s == stage then Some(StageError(stage)) else None
    {
      ObjectsIsCheck(s, m, msg, sig, expected, now, env);
      SamePosition(s, stage);
    }
    CheckOrder(m, msg, sig, expected, now, env, stage);
  }

  lemma SamePosition(s: Stage, stage: Stage)
    ensures Position(s) == Position(stage) <==> s == stage
  {
  }

  lemma CheckOrder(m: Message, msg: string, sig: seq<byte>, expected: Expected, now: Instant, env: Env, stage: Stage)
    requires Position(stage) >= 2
    requires forall s :: 2 <= Position(s) <= Position(stage) ==>
      CheckOf(s, m, msg, sig, expected, now, env) == if s == stage then Some(StageError(stage)) else None
    ensures CheckAll(m, msg, sig, expected, now, env) == Some(StageError(stage))
  {
    var check := s => CheckOf(s, m, msg, sig, expected, now, env);
    assert check(Domain) == CheckDomain(m, expected.domain) && check(NotBeforeStage) == CheckNotBefore(m, now);
    assert check(ExpiryStage) == CheckExpiry(m, now) && check(NonceStage) == CheckNonce(m, expected.nonce);
    assert check(SignatureStage) == CheckSig(m.address, msg, sig, env);
    assert 2 <= Position(Domain) <= Position(stage);
  }

  ghost predicate NoneObjects(parsed: Result<Message, SiwsError>, msg: string, sig: seq<byte>, expected: Expected, now: Instant,
                              env: Env)
  {
    forall stage :: !ObjectsTo(stage, parsed, msg, sig, expected, now, env)
  }

  lemma TrustworthyIff(m: Message, msg: string, sig: seq<byte>, expected: Expected, now: Instant, env: Env)
    ensures Trustworthy(m, msg, sig, expected, now, env) <==> NoneObjects(Ok(m), msg, sig, expected, now, env)
  {
    if NoneObjects(Ok(m), msg, sig, expected, now, env) {
      assert !ObjectsTo(Preconditions, Ok(m), msg, sig, expected, now, env);
      assert !ObjectsTo(Domain, Ok(m), msg, sig, expected, now, env);
      assert !ObjectsTo(NotBeforeStage, Ok(m), msg, sig, expected, now, env);
      assert !ObjectsTo(ExpiryStage, Ok(m), msg, sig, expected, now, env);
      assert !ObjectsTo(NonceStage, Ok(m), msg, sig, expected, now, env);
      assert !ObjectsTo(SignatureStage, Ok(m), msg, sig, expected, now, env);
    }
  }

  /** VerifyRaw refuses exactly when some stage, looked at alone, objects. */
  lemma RefusalHasObjection(msg: string, sig: seq<byte>, expected: Expected, now: Instant, env: Env)
    ensures VerifyRaw(msg, sig, expected, now, env).Err? <==> exists stage :: Objects(stage, msg, sig, expected, now, env)
  {
    var parsed := Parse(msg, env.reader);
    if parsed.Ok? {
      AcceptsGenuine(msg, sig, expected, now, env, parsed.value);
      TrustworthyIff(parsed.value, msg, sig, expected, now, env);
      OnlyParsed(msg, sig, expected, now, env);
      AsObjections(msg, sig, expected, now, env, parsed);
    } else {
      assert Objects(Parsing, msg, sig, expected, now, env);
    }
  }

  lemma AsObjections(msg: string, sig: seq<byte>, expected: Expected, now: Instant, env: Env, parsed: Result<Message, SiwsError>)
    requires parsed == Parse(msg, env.reader)
    ensures NoneObjects(parsed, msg, sig, expected, now, env) <==> forall stage :: !Objects(stage, msg, sig, expected, now, env)
  {
    if !NoneObjects(parsed, msg, sig, expected, now, env) {
      var stage :| ObjectsTo(stage, parsed, msg, sig, expected, now, env);
      assert Objects(stage, msg, sig, expected, now, env);
    } else {
      forall stage ensures !Objects(stage, msg, sig, expected, now, env) {
        assert !ObjectsTo(stage, parsed, msg, sig, expected, now, env);
      }
    }
  }

  lemma OnlyParsed(msg: string, sig: seq<byte>, expected: Expected, now: Instant, env: Env)
    ensures var r := VerifyRaw(msg, sig, expected, now, env); r.Ok? ==> r == Parse(msg, env.reader)
  {
  }

  /** On a message's own canonical text VerifyRaw and the deprecated Message.Verify agree. */
  lemma CanonicalAgreement(m: Message, sig: seq<byte>, expected: Expected, now: Instant, env: Env)
    requires TimesValid(m) && WellFormed(m) && InMillis(m) && |Printed(m)| <= MAX_MESSAGE && ReadsCanonical(env.reader)
    ensures VerifyRaw(Printed(m), sig, expected, now, env) ==
      match VerifyMessage(m, sig, expected, now, env) case None => Ok(m) case Some(e) => Err(e)
  {
    RoundTrip(m, env.reader);
    RawOfParsed(Printed(m), m, sig, expected, now, env);
  }

  // ----- The verdict by the count of nanoseconds -----

  predicate NotTooEarly(m: Message, now: Instant)
    requires OnCalendar(now) && TimesOnCalendar(m)
  {
    m.notBefore.Some? ==> Nanos(m.notBefore.value) <= Nanos(now)
  }

  predicate NotTooLate(m: Message, now: Instant)
    requires OnCalendar(now) && TimesOnCalendar(m)
  {
    m.expirationTime.Some? ==> Nanos(now) < Nanos(m.expirationTime.value)
  }

  /** A signature of 64 bytes by the key of 32 bytes that the address is the text of. */
  predicate SignedBy(address: string, msg: string, sig: seq<byte>, env: Env) {
    |sig| == 64 && Base58.Decode(address).Ok? && |Base58.Decode(address).value| == 32
    && env.ed25519(Base58.Decode(address).value, msg, sig)
  }

  lemma LimitsByCount(m: Message, now: Instant)
    requires OnCalendar(now) && TimesOnCalendar(m)
    ensures CheckNotBefore(m, now).None? <==> NotTooEarly(m, now)
    ensures CheckExpiry(m, now).None? <==> NotTooLate(m, now)
  {
    if m.notBefore.Some? { BeforeIff(now, m.notBefore.value); }
    if m.expirationTime.Some? { BeforeIff(now, m.expirationTime.value); }
  }

  /** The error of the first condition that fails. */
  function ErrorInTime(m: Message, msg: string, sig: seq<byte>, expected: Expected, now: Instant, env: Env): Option<SiwsError>
    requires OnCalendar(now) && TimesOnCalendar(m)
  {
    if expected.domain == "" || expected.nonce == "" then Some(Malformed)
    else if m.domain != expected.domain then Some(DomainMismatch)
    else if !NotTooEarly(m, now) then Some(NotYetValid)
    else if !NotTooLate(m, now) then Some(Expired)
    else if m.nonce != expected.nonce then Some(NonceMismatch)
    else if !SignedBy(m.address, msg, sig, env) then Some(BadSignature)
    else None
  }

  /**
   * The verdict on any text that parses, whatever the time: nothing is accepted before its Not Before, at its Expiration
   * Time or after it, and everything else that holds is.
   */
  lemma VerdictInTime(msg: string, m: Message, sig: seq<byte>, expected: Expected, now: Instant, env: Env)
    requires Parse(msg, env.reader) == Ok(m) && OnCalendar(now) && TimesOnCalendar(m)
    ensures VerifyRaw(msg, sig, expected, now, env) ==
      var e := ErrorInTime(m, msg, sig, expected, now, env); if e.Some? then Err(e.value) else Ok(m)
  {
    LimitsByCount(m, now);
  }
}
