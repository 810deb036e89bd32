/** What the hub guarantees in every reachable state, however its requests interleave. */
module HubTheorems {
  import opened Caip
  import opened Events
  import opened HubMachine
  import opened HubInvariants
  import opened HubAccounts
  import Histories
  import N = NonceStore
  import I = IdentityStore
  import R = Recorder

  // ----- Single use -----

  /** Where in the nonce log the burn behind a completion stands. */
  function BurnOf(h: Hub, done: Completion): nat
    requires In(h, done.r) && h.requests[done.r].burn.Some?
  {
    h.requests[done.r].burn.value
  }

  lemma BurnBehind(c: Config, h: Hub, i: nat)
    requires Inv(c, h) && i < |h.completed|
    ensures var done := h.completed[i];
      In(h, done.r) && Holds(h.nonceLog, h.requests[done.r]) && Accepted(c, h.requests[done.r].request)
  {
    assert CompletedBy(h, h.completed[i]);
    assert AcceptProgress(c, h.requests[h.completed[i].r].request, PhaseOf(h, h.completed[i].r));
  }

  /** Each minted token and each completed link has a successful burn of its own, of a nonce no other completion used. */
  lemma CompletionsBurnApart(c: Config, h: Hub, i: nat, j: nat)
    requires Reachable(c, h) && i < |h.completed| && j < |h.completed| && i != j
    ensures var (a, b) := (h.completed[i], h.completed[j]);
      && In(h, a.r) && In(h, b.r) && h.requests[a.r].burn.Some? && h.requests[b.r].burn.Some?
      && BurnOf(h, a) < |h.nonceLog| && BurnOf(h, b) < |h.nonceLog| && BurnOf(h, a) != BurnOf(h, b)
      && N.Spends(h.nonceLog, BurnOf(h, a)) && N.Spends(h.nonceLog, BurnOf(h, b))
      && h.nonceLog[BurnOf(h, a)].nonce != h.nonceLog[BurnOf(h, b)].nonce
  {
    InvReachable(c, h);
    BurnBehind(c, h, i);
    BurnBehind(c, h, j);
    var (a, b) := (h.completed[i], h.completed[j]);
    assert a.r != b.r;
    NoncesApart(h.nonceLog, BurnOf(h, a), BurnOf(h, b));
  }

  lemma NoncesApart(log: seq<N.Op>, j: nat, k: nat)
    requires N.FreshNonces(log) && N.ClockMovesOn(log) && j < |log| && k < |log| && j != k && N.Spends(log, j) && N.Spends(log, k)
    ensures log[j].nonce != log[k].nonce
  {
    if j < k {
      N.SpentOnce(log, j, k);
    } else {
      N.SpentOnce(log, k, j);
    }
  }

  /** Every issued nonce is spent by at most one request, whatever becomes of the request afterwards. */
  lemma RequestsBurnApart(c: Config, h: Hub, r: nat, r': nat)
    requires Reachable(c, h) && In(h, r) && In(h, r') && r != r'
    requires h.requests[r].burn.Some? && h.requests[r'].burn.Some?
    ensures Holds(h.nonceLog, h.requests[r]) && Holds(h.nonceLog, h.requests[r'])
    ensures h.requests[r].burn.value != h.requests[r'].burn.value
    ensures h.requests[r].request.cookie != h.requests[r'].request.cookie
  {
    InvReachable(c, h);
    NoncesApart(h.nonceLog, h.requests[r].burn.value, h.requests[r'].burn.value);
  }

  /** A signed message is good for one completion: not for two tokens, two links, or one of each. */
  lemma MessageUsedOnce(c: Config, h: Hub, i: nat, j: nat)
    requires Reachable(c, h) && i < |h.completed| && j < |h.completed| && i != j
    ensures var (a, b) := (h.completed[i].r, h.completed[j].r);
      In(h, a) && In(h, b) && ParseCAIP2(h.requests[a].request.chain).Ok? && ParseCAIP2(h.requests[b].request.chain).Ok?
      && (h.requests[a].request.msg != h.requests[b].request.msg
          || ParseCAIP2(h.requests[a].request.chain).value.ns != ParseCAIP2(h.requests[b].request.chain).value.ns)
  {
    InvReachable(c, h);
    BurnBehind(c, h, i);
    BurnBehind(c, h, j);
    CompletionsBurnApart(c, h, i, j);
  }

  // ----- Counting -----

  function Burns(log: seq<N.Op>): set<nat> {
    set k: nat | k < |log| && N.Spends(log, k)
  }

  function Issues(log: seq<N.Op>): set<nat> {
    set k: nat | k < |log| && log[k].Issue?
  }

  lemma {:induction false} InjectionCounts(a: set<nat>, b: set<nat>, f: map<nat, nat>)
    requires f.Keys == a && forall x :: x in a ==> f[x] in b
    requires forall x, y :: x in a && y in a && f[x] == f[y] ==> x == y
    ensures |a| <= |b|
  {
    if x :| x in a {
      InjectionCounts(a - {x}, b - {f[x]}, f - {x});
    }
  }

  /** The issue a successful burn honours. */
  ghost function IssueOf(log: seq<N.Op>, k: nat): (i: nat)
    requires k < |log| && N.Spends(log, k) && N.FreshNonces(log) && N.ClockMovesOn(log)
    ensures i < k && log[i].Issue? && log[i].nonce == log[k].nonce
  {
    N.BurnExactly(log, k);
    var i :| N.Honours(log, k, log[k].nonce, log[k].now, i);
    i
  }

  /** Distinct successful burns honour distinct issues, each before its burn and of the burn's nonce. */
  lemma IssuesApart(log: seq<N.Op>, j: nat, k: nat)
    requires N.FreshNonces(log) && N.ClockMovesOn(log) && j < |log| && k < |log| && N.Spends(log, j) && N.Spends(log, k)
    ensures IssueOf(log, j) == IssueOf(log, k) <==> j == k
  {
    if j != k { NoncesApart(log, j, k); }
  }

  lemma BurnsWithinIssues(log: seq<N.Op>)
    requires N.FreshNonces(log) && N.ClockMovesOn(log)
    ensures |Burns(log)| <= |Issues(log)|
  {
    var f := map k | k in Burns(log) :: IssueOf(log, k);
    forall x, y | x in Burns(log) && y in Burns(log) && f[x] == f[y] ensures x == y {
      IssuesApart(log, x, y);
    }
    InjectionCounts(Burns(log), Issues(log), f);
  }

  lemma {:induction false} UpTo(n: nat) returns (s: set<nat>)
    ensures |s| == n && forall k: nat :: k in s <==> k < n
  {
    s := {};
    if n > 0 {
      s := UpTo(n - 1);
      s := s + {n - 1};
    }
  }

  lemma CompletionBurns(c: Config, h: Hub, i: nat)
    requires Reachable(c, h) && i < |h.completed|
    ensures In(h, h.completed[i].r) && h.requests[h.completed[i].r].burn.Some? && BurnOf(h, h.completed[i]) in Burns(h.nonceLog)
  {
    InvReachable(c, h);
    BurnBehind(c, h, i);
  }

  lemma CompletionsDistinct(c: Config, h: Hub, f: map<nat, nat>)
    requires Reachable(c, h)
    requires forall i :: i in f ==> i < |h.completed| && In(h, h.completed[i].r) && h.requests[h.completed[i].r].burn.Some?
    requires forall i :: i in f ==> f[i] == BurnOf(h, h.completed[i])
    ensures forall x, y :: x in f && y in f && f[x] == f[y] ==> x == y
  {
    forall x, y | x in f && y in f && f[x] == f[y] ensures x == y {
      if x != y { CompletionsBurnApart(c, h, x, y); }
    }
  }

  lemma CompletionsInject(c: Config, h: Hub)
    requires Reachable(c, h)
    ensures |h.completed| <= |Burns(h.nonceLog)|
  {
    var indices := UpTo(|h.completed|);
    forall i | i in indices
      ensures In(h, h.completed[i].r) && h.requests[h.completed[i].r].burn.Some? && BurnOf(h, h.completed[i]) in Burns(h.nonceLog)
    {
      CompletionBurns(c, h, i);
    }
    var f := map i | i in indices :: BurnOf(h, h.completed[i]);
    CompletionsDistinct(c, h, f);
    InjectionCounts(indices, Burns(h.nonceLog), f);
  }

  /** There are at most as many tokens and links as successful burns, and at most as many of those as nonces issued. */
  lemma CompletionsWithinBurns(c: Config, h: Hub)
    requires Reachable(c, h)
    ensures |h.completed| <= |Burns(h.nonceLog)| <= |Issues(h.nonceLog)|
  {
    InvReachable(c, h);
    CompletionsInject(c, h);
    BurnsWithinIssues(h.nonceLog);
  }

  // ----- How long a nonce lasts -----

  /** Every nonce was issued for ten minutes. */
  ghost predicate TenMinutes(h: Hub) {
    forall i :: 0 <= i < |h.nonceLog| && h.nonceLog[i].Issue? ==> h.nonceLog[i].ttl == 600_000_000_000
  }

  lemma TenMinutesNext(c: Config, h: Hub, move: Move)
    requires TenMinutes(h) && Enabled(c, h, move)
    ensures TenMinutes(Next(c, h, move))
  {
    if !move.Issue? && !move.RegisterWallet? && !move.Arrive? && !move.Burn? {
      LaterKeeps(c, h, move);
    }
  }

  lemma {:induction false} TenMinutesRun(c: Config, states: seq<Hub>, moves: seq<Move>, k: nat)
    requires IsRun(c, states, moves) && k <= |moves|
    ensures TenMinutes(states[k])
  {
    if k > 0 {
      TenMinutesRun(c, states, moves, k - 1);
      TenMinutesNext(c, states[k - 1], moves[k - 1]);
    }
  }

  /** At time u this nonce has been issued no more than ten minutes ago, and not been spent. */
  ghost predicate Honoured(log: seq<N.Op>, nonce: string, u: N.Time) {
    && (exists i :: 0 <= i < |log| && log[i].Issue? && log[i].nonce == nonce && u <= log[i].storeAt + 600_000_000_000)
    && (forall j :: 0 <= j < |log| && log[j].nonce == nonce ==> !N.Spends(log, j))
  }

  /**
   * A request that has arrived gets past its burn exactly if its cookie's nonce was issued no more than ten minutes ago and
   * has not been spent; else it is refused for its nonce.
   */
  lemma BurnInTime(c: Config, h: Hub, r: nat, u: N.Time)
    requires Reachable(c, h) && In(h, r) && PhaseOf(h, r).Arrived? && Enabled(c, h, Burn(r, u))
    ensures PhaseOf(Next(c, h, Burn(r, u)), r) ==
      if Honoured(h.nonceLog, h.requests[r].request.cookie, u) then Burnt(PhaseOf(h, r).chain) else Done(Refused({ErrNonceMismatch}))
  {
    var states, moves :| IsRun(c, states, moves) && states[|moves|] == h;
    TenMinutesRun(c, states, moves, |moves|);
    InvReachable(c, h);
    var n := h.requests[r].request.cookie;
    LiveIff(h, n, u);
    assert Next(c, h, Burn(r, u)) == AfterBurn(h, r, u);
  }

  lemma LiveIff(h: Hub, n: string, u: N.Time)
    requires TenMinutes(h) && NonceOpAllowed(h, N.Burn(n, u))
    ensures N.Live(Nonces(h), n, u) <==> Honoured(h.nonceLog, n, u)
  {
    var log, k := h.nonceLog + [N.Burn(n, u)], |h.nonceLog|;
    Histories.SamePrefix(N.Apply, map[], h.nonceLog, log, k);
    N.BurnExactly(log, k);
    forall j | 0 <= j < k ensures N.Spends(log, j) <==> N.Spends(h.nonceLog, j) {
      Histories.SamePrefix(N.Apply, map[], h.nonceLog, log, j);
    }
    if i :| N.Honours(log, k, n, u, i) {
      assert log[i] == h.nonceLog[i];
    }
    if Honoured(h.nonceLog, n, u) {
      var i :| 0 <= i < k && h.nonceLog[i].Issue? && h.nonceLog[i].nonce == n && u <= h.nonceLog[i].storeAt + 600_000_000_000;
      assert log[i] == h.nonceLog[i] && N.IssuedAt(log, k, n, i);
      assert N.Honours(log, k, n, u, i);
    }
  }

  // ----- What a token says -----

  /** Whatever other requests did between the upsert and the reading, a token's wallets include the account signed in with. */
  lemma TokenListsAccount(c: Config, h: Hub, i: nat)
    requires PlainHex(c) && Reachable(c, h) && i < |h.completed| && h.completed[i].Minted?
    ensures h.completed[i].account in h.completed[i].wallets
  {
    var states, moves :| IsRun(c, states, moves) && states[|moves|] == h;
    TokenRun(c, states, moves, |moves|);
  }

  /** The two maps of the identity store, in every reachable state. */
  lemma IdentityMaps(c: Config, h: Hub)
    requires Reachable(c, h)
    ensures I.Sound(Ids(h))
    ensures I.Inverse(Ids(h)) <==> forall i :: 0 <= i < |h.idLog| ==> !I.StealsAt(h.idLog, i)
  {
    I.NeverStealsMeans(h.idLog, |h.idLog|);
    InvReachable(c, h);
    I.RunSound(h.idLog, |h.idLog|);
    I.InverseIffNoSteal(h.idLog, |h.idLog|);
  }

  /** The identity of a bearer token is always found: a link request never ends in "link failed". */
  lemma LinkFindsIdentity(c: Config, h: Hub, r: nat)
    requires Reachable(c, h) && Enabled(c, h, Attach(r))
    ensures PhaseOf(Next(c, h, Attach(r)), r) ==
      var result := PhaseOf(h, r).result; if result.Ok? then Done(Linked(result.value.account)) else Done(Refused(result.error))
  {
    InvReachable(c, h);
    IdAttach(h, r);
  }

  /**
   * What a verify request drains is its whole trail exactly when the buffer had room at each of its reports; for an
   * accepted sign-in that is the five checks, all true.
   */
  lemma DrainedTrail(c: Config, h: Hub, r: nat)
    requires Reachable(c, h) && Enabled(c, h, Drain(r))
    ensures var phase := PhaseOf(h, r);
      R.At(Trail(h), phase.attempt) == phase.trail <==> R.HadRoom(h.trailLog, |h.trailLog|, phase.attempt)
    ensures var phase := PhaseOf(h, r);
      phase.result.Ok? ==> phase.trail == AllChecks() && PhaseOf(Next(c, h, Drain(r)), r).Verified?
    ensures var after := PhaseOf(Next(c, h, Drain(r)), r);
      after.Verified? ==> after.checks == R.At(Trail(h), PhaseOf(h, r).attempt)
  {
    InvReachable(c, h);
    var phase := PhaseOf(h, r);
    assert AcceptProgress(c, h.requests[r].request, phase) && TrailProgress(h, r);
    assert phase.trail[..phase.sent] == phase.trail;
    R.BufferedTrail(h.trailLog, |h.trailLog|, phase.attempt);
  }

  // ----- What lasts over a run -----

  lemma StepLasts(c: Config, h: Hub, move: Move)
    requires Enabled(c, h, move)
    ensures Lasts(h, Next(c, h, move))
  {
    if MoveOf(move, if move.Issue? || move.RegisterWallet? then 0 else move.r) {
      MovesOne(c, h, move.r, move);
      AttemptsStay(c, h, move);
    }
  }

  lemma AttemptsStay(c: Config, h: Hub, move: Move)
    requires Enabled(c, h, move)
    ensures forall id :: id in h.attempts ==> id in Next(c, h, move).attempts && Next(c, h, move).attempts[id] == h.attempts[id]
  {
  }

  lemma LogsGrow(c: Config, h: Hub, move: Move)
    requires Enabled(c, h, move)
    ensures h.trailLog <= Next(c, h, move).trailLog && h.idLog <= Next(c, h, move).idLog
  {
  }

  ghost predicate Continues(h: Hub, h': Hub) {
    Lasts(h, h') && h.trailLog <= h'.trailLog && h.idLog <= h'.idLog
  }

  lemma ContinuesOn(h: Hub, h': Hub, h'': Hub)
    requires Continues(h, h') && Continues(h', h'')
    ensures Continues(h, h'')
  {
  }

  lemma RunStep(c: Config, states: seq<Hub>, moves: seq<Move>, i: nat)
    requires IsRun(c, states, moves) && i < |moves|
    ensures Continues(states[i], states[i + 1])
  {
    StepLasts(c, states[i], moves[i]);
    LogsGrow(c, states[i], moves[i]);
  }

  lemma {:induction false} ChainLasts(states: seq<Hub>, i: nat, j: nat)
    requires i <= j < |states| && forall k :: i <= k < j ==> Continues(states[k], states[k + 1])
    ensures Continues(states[i], states[j])
  {
    if i < j {
      ChainLasts(states, i, j - 1);
      ContinuesOn(states[i], states[j - 1], states[j]);
    }
  }

  lemma RunLasts(c: Config, states: seq<Hub>, moves: seq<Move>, i: nat, j: nat)
    requires IsRun(c, states, moves) && i <= j <= |moves|
    ensures Continues(states[i], states[j])
  {
    forall k | i <= k < j ensures Continues(states[k], states[k + 1]) { RunStep(c, states, moves, k); }
    ChainLasts(states, i, j);
  }

  /**
   * Once a list holds a key that is no valid account, as a Solana Chain ID of arbitrary text can make it, no later
   * sign-in under that identity gets a token.
   */
  lemma InvalidKeyEndsTokens(c: Config, states: seq<Hub>, moves: seq<Move>, i: nat, j: nat, identity: string, key: string)
    requires IsRun(c, states, moves) && i <= j < |moves|
    requires key in I.Listed(Ids(states[i]), identity) && ParseCAIP10(key).Err?
    requires moves[j].ReadWallets? && In(states[j], moves[j].r)
    requires PhaseOf(states[j], moves[j].r).Upserted? && PhaseOf(states[j], moves[j].r).identity == identity
    ensures In(states[j + 1], moves[j].r) && PhaseOf(states[j + 1], moves[j].r) == Done(Broken)
  {
    InvRun(c, states, moves, j);
    RunLasts(c, states, moves, i, j);
    var log, k := states[j].idLog, |states[i].idLog|;
    Histories.SamePrefix(I.Apply, I.EMPTY, states[i].idLog, log, k);
    I.InvalidForGood(log, k, |log|, identity, key);
    assert states[j + 1] == Next(c, states[j], moves[j]);
  }

  // ----- Which sign-ins get a token -----

  /** Every account that was upserted or linked under this identity has a valid reference. */
  ghost predicate ReferencesValid(h: Hub, identity: string) {
    forall i :: 0 <= i < |h.idLog| && I.PlacedAt(h.idLog, identity, i) ==> ValidReference(h.idLog[i].w.chainId.reference)
  }

  /**
   * A verified sign-in gets its token if and only if every account upserted or linked under its identity, its own
   * among them, has a reference that CAIP-2 allows; else it ends in "wallets lookup failed".
   */
  lemma TokenIffReferencesValid(c: Config, h: Hub, r: nat)
    requires ProperHex(c) && Reachable(c, h) && Enabled(c, h, ReadWallets(r))
    ensures var after := PhaseOf(Next(c, h, ReadWallets(r)), r);
      if ReferencesValid(h, PhaseOf(h, r).identity) then after.Read? && Enabled(c, Next(c, h, ReadWallets(r)), Mint(r))
      else after == Done(Broken)
  {
    InvReachable(c, h);
    RegularVerified(c);
    AccountsReachable(c, h, RegularAccount);
    var identity := PhaseOf(h, r).identity;
    I.ReadableIff(h.idLog, |h.idLog|, identity);
    AllParseIffValid(h, identity);
  }

  lemma AllParseIffValid(h: Hub, identity: string)
    requires AccountsAre(h, Any(RegularAccount))
    ensures I.AllParse(h.idLog, |h.idLog|, identity) <==> ReferencesValid(h, identity)
  {
    forall i | 0 <= i < |h.idLog|
      ensures ParseCAIP10(String(h.idLog[i].w)).Ok? <==> ValidReference(h.idLog[i].w.chainId.reference)
    {
      assert ForSome(Any(RegularAccount), h.idLog[i].w);
      RegularParses(h.idLog[i].w);
    }
  }

  // ----- Link attempts in the trail buffer -----

  ghost predicate LinkAttempt(h: Hub, id: string) {
    id in h.attempts && In(h, h.attempts[id]) && h.requests[h.attempts[id]].request.kind.LinkTo?
  }

  /** No drain in the log of a reachable state is of a link attempt. */
  lemma LinkNeverDrained(h: Hub, id: string, i: nat)
    requires TrailInv(h) && LinkAttempt(h, id) && i <= |h.trailLog|
    ensures R.NotDrained(h.trailLog, i, |h.trailLog|, id)
  {
    forall k | i <= k < |h.trailLog| && h.trailLog[k].Drain? ensures h.trailLog[k].id != id {
      assert Owned(h, h.trailLog[k]);
    }
  }

  /** A link attempt that is buffered stays buffered for good. */
  lemma LinkStaysBuffered(c: Config, states: seq<Hub>, moves: seq<Move>, i: nat, j: nat, id: string)
    requires IsRun(c, states, moves) && i <= j <= |moves| && LinkAttempt(states[i], id) && id in Trail(states[i])
    ensures LinkAttempt(states[j], id) && id in Trail(states[j])
  {
    RunLasts(c, states, moves, i, j);
    InvRun(c, states, moves, j);
    var log, k := states[j].trailLog, |states[i].trailLog|;
    Histories.SamePrefix(R.Apply, map[], states[i].trailLog, log, k);
    LinkNeverDrained(states[j], id, k);
    R.Stays(log, k, |log|, id);
  }

  /** Once 1024 link attempts are buffered, every later sign-in drains an empty trail. */
  lemma LinksEndTrails(c: Config, states: seq<Hub>, moves: seq<Move>, i: nat, j: nat, links: set<string>)
    requires IsRun(c, states, moves) && i <= j < |moves| && |links| == 1024
    requires forall id :: id in links ==> LinkAttempt(states[i], id) && id in Trail(states[i])
    requires moves[j].Drain? && In(states[j], moves[j].r) && PhaseOf(states[j], moves[j].r).Reporting?
    ensures R.At(Trail(states[j]), PhaseOf(states[j], moves[j].r).attempt) == []
    ensures In(states[j + 1], moves[j].r)
      && (PhaseOf(states[j + 1], moves[j].r).Verified? ==> PhaseOf(states[j + 1], moves[j].r).checks == [])
  {
    var h, r := states[j], moves[j].r;
    forall id | id in links ensures LinkAttempt(h, id) && id in Trail(h) {
      LinkStaysBuffered(c, states, moves, i, j, id);
    }
    InvRun(c, states, moves, j);
    assert TrailProgress(h, r);
    assert Enabled(c, h, moves[j]) && states[j + 1] == Next(c, h, moves[j]);
    R.FullForGood(h.trailLog, |h.trailLog|, |h.trailLog|, links, PhaseOf(h, r).attempt);
  }
}
