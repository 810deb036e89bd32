/** A whole sign-in through the hub, and where its Chain ID leads it. */
module HubWitness {
  import opened Wrappers
  import opened Timestamps
  import opened VerifyOpts
  import opened Caip
  import opened HubMachine
  import Base58
  import RegistryTheorems
  import SiwsGrammar
  import SiwsMessage
  import SiwsTheorems
  import SiwsVerify
  import SolanaAdapter
  import SolanaTheorems
  import Text
  import Histories
  import N = NonceStore
  import I = IdentityStore
  import R = Recorder

  /** A key, its signature, the Chain ID it signs, the nonce it was given, and the time of day. */
  datatype Scene = Scene(key: seq<byte>, sig: seq<byte>, chainId: string, nonce: string, t: Instant)

  const CHAIN := CAIP2("solana", "mainnet")

  function MessageOf(c: Config, s: Scene): SiwsMessage.Message {
    SiwsMessage.Message(c.domain, Base58.Encode(s.key), "", "b", "1", s.chainId, s.nonce, s.t, None, None, "", [])
  }

  /** A request body may have 8 KiB: three strings in JSON, message and signature in base64. */
  const MAX_BODY := 8192

  const ENVELOPE := "{\"message\":\"\",\"signature\":\"\",\"chainId\":\"\"}"

  function BodySize(request: Request): nat {
    |ENVELOPE| + Base64Size(|request.msg|) + Base64Size(|request.sig|) + |request.chain|
  }

  function Base64Size(n: nat): nat {
    (n + 2) / 3 * 4
  }

  /** The request fits its limit, times are readable, and the wallet has signed the text. */
  ghost predicate Playable(c: Config, s: Scene) {
    && |s.key| == 32 && Valid(s.t) && WholeMillis(s.t) && ReadsCanonical(c.siws.reader)
    && SiwsTheorems.Plain(c.domain) && c.domain != "" && SiwsTheorems.Plain(s.chainId) && s.chainId != ""
    && SiwsGrammar.ValidNonce(s.nonce) && BodySize(RequestOf(c, s)) <= MAX_BODY
    && |s.sig| == SiwsVerify.SIGNATURE_SIZE && c.siws.ed25519(s.key, SiwsMessage.Printed(MessageOf(c, s)), s.sig)
  }

  function RequestOf(c: Config, s: Scene): Request
    requires Valid(s.t)
  {
    Request(SignIn, ChainString(CHAIN), SiwsMessage.Printed(MessageOf(c, s)), s.sig, s.nonce)
  }

  // ----- The message verifies -----

  /** A body within its limit holds a message within the parser's cap. */
  lemma BodyHolds(request: Request)
    requires BodySize(request) <= MAX_BODY
    ensures |request.msg| <= SiwsGrammar.MAX_MESSAGE
  {
  }

  lemma MessageParses(m: SiwsMessage.Message, c: Config, s: Scene)
    requires Playable(c, s) && m == MessageOf(c, s)
    ensures SiwsGrammar.Parse(SiwsMessage.Printed(m), c.siws.reader) == Ok(m)
    ensures Base58.Decode(m.address) == Ok(s.key)
  {
    Base58.KeyLength(s.key);
    SiwsTheorems.AddressPlain(m.address);
    assert SiwsTheorems.WellFormed(m);
    BodyHolds(RequestOf(c, s));
    SiwsTheorems.RoundTrip(m, c.siws.reader);
  }

  lemma MessageVerifies(m: SiwsMessage.Message, c: Config, s: Scene, attempt: string, clock: Clock)
    requires Playable(c, s) && m == MessageOf(c, s) && forall i :: clock(i) == s.t
    ensures SolanaAdapter.SolanaRun(SiwsMessage.Printed(m), s.sig, Opts(Expected(c.domain, s.nonce), attempt), clock, c.siws).result
         == Ok(SolanaAdapter.Identify(m))
  {
    var text, expected := SiwsMessage.Printed(m), Expected(c.domain, s.nonce);
    MessageParses(m, c, s);
    SiwsVerify.AcceptsGenuine(text, s.sig, expected, s.t, c.siws, m);
    SolanaTheorems.FixedClock(text, s.sig, Opts(expected, attempt), clock, c.siws, s.t);
  }

  lemma SceneVerifies(c: Config, s: Scene, h: Hub, attempt: string, clock: Clock)
    requires Playable(c, s) && forall i :: clock(i) == s.t
    ensures RunOf(c, h.owners, RequestOf(c, s), CHAIN, attempt, clock).result == Ok(SolanaAdapter.Identify(MessageOf(c, s)))
  {
    MessageVerifies(MessageOf(c, s), c, s, attempt, clock);
  }

  // ----- The run, step by step -----

  lemma Started(c: Config)
    ensures Reachable(c, START)
  {
    assert IsRun(c, [START], []);
  }

  lemma FirstIssue(nonce: string)
    ensures NonceOpAllowed(START, N.Issue(nonce, 0, 0, NONCE_TTL))
  {
  }

  /** A nonce has been issued. */
  lemma SceneIssues(c: Config, s: Scene) returns (h: Hub)
    ensures Reachable(c, h) && h == START.(nonceLog := [N.Issue(s.nonce, 0, 0, NONCE_TTL)])
  {
    Started(c);
    FirstIssue(s.nonce);
    ReachableOn(c, START, Issue(s.nonce, 0, 0));
    h := Next(c, START, Issue(s.nonce, 0, 0));
  }

  lemma ChainValid(chain: CAIP2)
    requires chain == CHAIN
    ensures ParseCAIP2(ChainString(chain)) == Ok(chain)
  {
    CAIP2Exactly(ChainString(chain), chain);
  }

  lemma SceneEntry(c: Config, s: Scene)
    requires Playable(c, s)
    ensures Entry(RequestOf(c, s)) == Arrived(CHAIN)
  {
    ChainValid(CHAIN);
    assert RequestOf(c, s).cookie == s.nonce != "";
  }

  /** Nothing has been verified yet. */
  predicate Fresh(h: Hub) {
    h.idLog == [] && h.attempts == map[] && h.trailLog == []
  }

  /** Request 0 has arrived with it. */
  lemma SceneArrives(c: Config, s: Scene, h0: Hub) returns (h: Hub)
    requires Playable(c, s) && Reachable(c, h0) && h0 == START.(nonceLog := [N.Issue(s.nonce, 0, 0, NONCE_TTL)])
    ensures Reachable(c, h) && Fresh(h)
    ensures h.nonceLog == [N.Issue(s.nonce, 0, 0, NONCE_TTL)]
    ensures In(h, 0) && h.requests[0] == Progress(RequestOf(c, s), Arrived(CHAIN), None)
  {
    SceneEntry(c, s);
    ReachableOn(c, h0, Arrive(0, RequestOf(c, s)));
    h := Next(c, h0, Arrive(0, RequestOf(c, s)));
  }

  lemma IssuedIsLive(h: Hub, nonce: string)
    requires h.nonceLog == [N.Issue(nonce, 0, 0, NONCE_TTL)]
    ensures N.Live(Nonces(h), nonce, 0) && NonceOpAllowed(h, N.Burn(nonce, 0))
  {
    assert N.StateAt(h.nonceLog, 0) == map[];
    assert Nonces(h) == N.Apply(map[], h.nonceLog[0]);
  }

  lemma SceneBurns(c: Config, s: Scene, h0: Hub) returns (h: Hub)
    requires Playable(c, s) && Reachable(c, h0) && Fresh(h0)
    requires h0.nonceLog == [N.Issue(s.nonce, 0, 0, NONCE_TTL)]
    requires In(h0, 0) && h0.requests[0] == Progress(RequestOf(c, s), Arrived(CHAIN), None)
    ensures Reachable(c, h) && Fresh(h) && In(h, 0)
    ensures h.requests[0].request == RequestOf(c, s) && PhaseOf(h, 0) == Burnt(CHAIN)
  {
    IssuedIsLive(h0, s.nonce);
    ReachableOn(c, h0, Burn(0, 0));
    h := AfterBurn(h0, 0, 0);
  }

  lemma SceneReports(c: Config, s: Scene, h0: Hub) returns (h: Hub)
    requires Playable(c, s) && Reachable(c, h0) && Fresh(h0) && In(h0, 0)
    requires h0.requests[0].request == RequestOf(c, s) && PhaseOf(h0, 0) == Burnt(CHAIN)
    ensures Reachable(c, h) && h.idLog == [] && Alone(h, 0) && h.requests[0].request == RequestOf(c, s)
    ensures Reported(PhaseOf(h, 0)) && PhaseOf(h, 0).result == Ok(SolanaAdapter.Identify(MessageOf(c, s)))
  {
    var clock: Clock := _ => s.t;
    SceneVerifies(c, s, h0, "x", clock);
    ReachableOn(c, h0, Verify(0, "x", clock));
    h := ReportsOut(c, Next(c, h0, Verify(0, "x", clock)), 0);
  }

  /** Request r is under report, and nothing else is buffered. */
  ghost predicate Alone(h: Hub, r: nat) {
    In(h, r) && PhaseOf(h, r).Reporting? && Trail(h).Keys <= {PhaseOf(h, r).attempt}
  }

  lemma AloneOn(h: Hub, r: nat)
    requires Alone(h, r) && PhaseOf(h, r).sent < |PhaseOf(h, r).trail|
    ensures Alone(AfterRecord(h, r), r)
  {
    var phase := PhaseOf(h, r);
    Histories.OneMore(R.Apply, map[], h.trailLog, R.Check(phase.attempt, phase.trail[phase.sent]));
  }

  lemma AloneDrained(h: Hub, r: nat)
    requires Alone(h, r)
    ensures Trail(AfterDrain(h, r)) == map[]
  {
    Histories.OneMore(R.Apply, map[], h.trailLog, R.Drain(PhaseOf(h, r).attempt));
  }

  /** A request under report gets to the end of its trail. */
  lemma {:induction false} ReportsOut(c: Config, h: Hub, r: nat) returns (h': Hub)
    requires Reachable(c, h) && Alone(h, r)
    ensures Reachable(c, h') && h'.idLog == h.idLog && Alone(h', r) && h'.requests[r].request == h.requests[r].request
    ensures Reported(PhaseOf(h', r)) && PhaseOf(h', r).result == PhaseOf(h, r).result
    decreases |PhaseOf(h, r).trail| - PhaseOf(h, r).sent
  {
    if Reported(PhaseOf(h, r)) {
      h' := h;
    } else {
      ReachableOn(c, h, Record(r));
      AloneOn(h, r);
      h' := ReportsOut(c, AfterRecord(h, r), r);
    }
  }

  lemma SceneUpserts(c: Config, s: Scene, h0: Hub) returns (h: Hub)
    requires Reachable(c, h0) && h0.idLog == [] && Alone(h0, 0) && h0.requests[0].request.kind.SignIn?
    requires Reported(PhaseOf(h0, 0)) && PhaseOf(h0, 0).result == Ok(SolanaAdapter.Identify(MessageOf(c, s)))
    ensures Reachable(c, h) && In(h, 0) && PhaseOf(h, 0).Upserted? && PhaseOf(h, 0).identity == "i"
    ensures h.idLog == [I.Upsert(SolanaAdapter.Identify(MessageOf(c, s)).account, "i")] && Trail(h) == map[]
  {
    ReachableOn(c, h0, Drain(0));
    AloneDrained(h0, 0);
    var h1 := AfterDrain(h0, 0);
    assert Ids(h1) == I.EMPTY;
    ReachableOn(c, h1, Upsert(0, "i"));
    h := AfterUpsert(h1, 0, "i");
  }

  /** The wallets of the new identity can be read exactly when the Chain ID is a valid reference. */
  lemma SceneReads(c: Config, s: Scene, h: Hub)
    requires Playable(c, s) && h.idLog == [I.Upsert(SolanaAdapter.Identify(MessageOf(c, s)).account, "i")]
    ensures I.ParseAll(I.Listed(Ids(h), "i")).Ok? <==> ValidReference(s.chainId)
  {
    var m := MessageOf(c, s);
    var account := SolanaAdapter.Identify(m).account;
    Base58.KeyLength(s.key);
    RegistryTheorems.SolanaKeyParses(m);
    assert I.StateAt(h.idLog, 0) == I.EMPTY;
    assert Ids(h) == I.Apply(I.EMPTY, I.Upsert(account, "i"));
    var keys := I.Listed(Ids(h), "i");
    assert keys == [String(account)];
    I.ParsesAll(keys);
    assert keys[0] == String(account);
  }

  lemma SceneEnds(c: Config, s: Scene, h0: Hub) returns (h: Hub)
    requires Playable(c, s) && Reachable(c, h0) && In(h0, 0) && PhaseOf(h0, 0).Upserted? && PhaseOf(h0, 0).identity == "i"
    requires I.ParseAll(I.Listed(Ids(h0), "i")).Ok? <==> ValidReference(s.chainId)
    ensures Reachable(c, h) && In(h, 0) && PhaseOf(h, 0).Done? && Trail(h) == Trail(h0)
    ensures if ValidReference(s.chainId) then PhaseOf(h, 0).response.Token? && Authenticated(h, LinkTo("i"))
            else PhaseOf(h, 0).response == Broken
  {
    ReachableOn(c, h0, ReadWallets(0));
    h := AfterRead(h0, 0);
    if ValidReference(s.chainId) {
      var phase, before := PhaseOf(h, 0), |h.completed|;
      ReachableOn(c, h, Mint(0));
      h := AfterMint(h, 0);
      assert h.completed[before] == Minted(0, phase.identity, phase.account, phase.wallets);
    }
  }

  lemma SceneVerified(c: Config, s: Scene) returns (h: Hub)
    requires Playable(c, s)
    ensures Reachable(c, h) && In(h, 0) && PhaseOf(h, 0).Upserted? && PhaseOf(h, 0).identity == "i"
    ensures h.idLog == [I.Upsert(SolanaAdapter.Identify(MessageOf(c, s)).account, "i")] && Trail(h) == map[]
  {
    h := SceneIssues(c, s);
    h := SceneArrives(c, s, h);
    h := SceneBurns(c, s, h);
    h := SceneReports(c, s, h);
    h := SceneUpserts(c, s, h);
  }

  /**
   * Whatever the key and the one-line Chain ID, there is a run in which the sign-in verifies; it gets a token if the Chain
   * ID is a reference that CAIP-2 allows, and ends in "wallets lookup failed" if it is not. Its trail has been drained.
   */
  lemma ChainIdDecides(c: Config, s: Scene) returns (h: Hub)
    requires Playable(c, s)
    ensures Reachable(c, h) && In(h, 0) && PhaseOf(h, 0).Done? && Trail(h) == map[]
    ensures if ValidReference(s.chainId) then PhaseOf(h, 0).response.Token? && Authenticated(h, LinkTo("i"))
            else PhaseOf(h, 0).response == Broken
  {
    h := SceneVerified(c, s);
    SceneReads(c, s, h);
    h := SceneEnds(c, s, h);
  }

  /** A Chain ID with a space in it is accepted by the parser and is no reference. */
  lemma SpacedChainId(c: Config, s: Scene) returns (h: Hub)
    requires Playable(c, s) && s.chainId == "a b"
    ensures Reachable(c, h) && In(h, 0) && PhaseOf(h, 0) == Done(Broken)
  {
    assert s.chainId[1] == ' ';
    h := ChainIdDecides(c, s);
  }

  /** Such a sign-in exists: any 32 bytes for a key and any 64 for a signature, under a check that takes them. */
  lemma SceneExists(c: Config, key: seq<byte>, sig: seq<byte>, chainId: string) returns (c': Config, s: Scene)
    requires |key| == 32 && |sig| == SiwsVerify.SIGNATURE_SIZE && 0 < |chainId| <= 3 && SiwsTheorems.Plain(chainId)
    ensures Playable(c', s) && s.chainId == chainId && s.key == key && c'.evm == c.evm
  {
    c' := c.(domain := "a", siws := SiwsVerify.Env(CanonicalReader(), (_, _, _) => true));
    s := Scene(key, sig, chainId, Repeat('a', 8), Instant(2026, 1, 1, 0, 0, 0, 0));
    CanonicalReaderQualifies();
    NewYear(s.t);
    SomeNonce(s.nonce, 8);
    SceneFits(c', s);
  }

  lemma SceneFits(c: Config, s: Scene)
    requires |s.key| == 32 && |s.sig| == SiwsVerify.SIGNATURE_SIZE && Valid(s.t) && WholeMillis(s.t)
    requires c.domain == "a" && 0 < |s.chainId| <= 3 && SiwsTheorems.Plain(s.chainId) && SiwsGrammar.ValidNonce(s.nonce) && |s.nonce| <= 8
    requires ReadsCanonical(c.siws.reader) && forall k, text, sig :: c.siws.ed25519(k, text, sig)
    ensures Playable(c, s)
  {
    OneLetter(c.domain);
    TextSize(MessageOf(c, s), c, s);
    SmallBody(RequestOf(c, s));
  }

  lemma LinesFit(l: SiwsMessage.Layout)
    requires |l.domain| <= 3 && |l.address| <= 44 && l.statement == None && |l.uri| == 1 && |l.version| == 1
    requires l.chainId.Some? && |l.chainId.value| <= 3 && |l.nonce| <= 8 && |l.issuedAt| == LAYOUT_LEN
    requires l.trailer == SiwsMessage.Trailer(None, None, None, None)
    ensures Text.Size(SiwsMessage.Lines(l)) <= 4000
  {
    SiwsTheorems.HeadSize(l);
    SiwsTheorems.HeaderLength();
    SiwsTheorems.FieldsSize(l);
    SiwsTheorems.TrailerSize(l.trailer);
    SiwsTheorems.LinesSize(l);
  }

  lemma TextSize(m: SiwsMessage.Message, c: Config, s: Scene)
    requires |s.key| == 32 && Valid(s.t) && m == MessageOf(c, s)
    requires |c.domain| <= 3 && 0 < |s.chainId| <= 3 && |s.nonce| <= 8
    ensures |SiwsMessage.Printed(m)| <= 4000
  {
    Base58.KeyLength(s.key);
    SiwsTheorems.PrintedIsSize(m);
    LinesFit(SiwsMessage.CanonicalLayout(m));
  }

  lemma SmallBody(request: Request)
    requires |request.msg| <= 4000 && |request.sig| == SiwsVerify.SIGNATURE_SIZE && request.chain == ChainString(CHAIN)
    ensures BodySize(request) <= MAX_BODY
  {
    assert |ENVELOPE| == 42 && |ChainString(CHAIN)| == 14;
  }

  lemma SomeNonce(nonce: string, n: nat)
    requires n >= 8 && nonce == Repeat('a', n)
    ensures SiwsGrammar.ValidNonce(nonce)
  {
  }

  lemma NewYear(t: Instant)
    requires t == Instant(2026, 1, 1, 0, 0, 0, 0)
    ensures Valid(t) && WholeMillis(t)
  {
  }

  lemma OneLetter(text: string)
    requires text == "a"
    ensures SiwsTheorems.Plain(text)
  {
  }
}
