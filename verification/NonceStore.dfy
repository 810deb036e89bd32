/** The nonce store of examples/hub/stores.go: lazy sweeping against the history of its calls. */
module NonceStore {
  import Histories

  /** Nanoseconds, for instants and durations alike. */
  type Time = int

  type Entries = map<string, Time>

  /** What a sweep at now leaves. */
  function Swept(entries: Entries, now: Time): Entries {
    map n | n in entries && now <= entries[n] :: entries[n]
  }

  predicate Live(entries: Entries, nonce: string, now: Time) {
    nonce in entries && now <= entries[nonce]
  }

  ghost predicate AllUnexpired(entries: Entries, now: Time) {
    forall n :: n in entries ==> now <= entries[n]
  }

  /** The critical sections of a run, with the clock readings each made. */
  datatype Op = Issue(nonce: string, sweepAt: Time, storeAt: Time, ttl: Time) | Burn(nonce: string, now: Time)

  /** What one critical section does to the map. */
  function Apply(entries: Entries, op: Op): Entries {
    match op
    case Issue(nonce, sweepAt, storeAt, ttl) => Swept(entries, sweepAt)[nonce := storeAt + ttl]
    case Burn(nonce, _) => entries - {nonce}
  }

  class NonceStore {
    var entries: Entries

    constructor ()
      ensures entries == map[]
    {
      entries := map[];
    }

    /** One critical section; the nonce is fresh random text, and the clock is read by the sweep and again for the expiry. */
    method Issue(nonce: string, sweepAt: Time, storeAt: Time, ttl: Time)
      modifies this
      ensures entries == Apply(old(entries), Op.Issue(nonce, sweepAt, storeAt, ttl))
    {
      Sweep(sweepAt);
      entries := entries[nonce := storeAt + ttl];
    }

    /** One critical section. */
    method Burn(nonce: string, now: Time) returns (ok: bool)
      modifies this
      ensures entries == Apply(old(entries), Op.Burn(nonce, now))
      ensures ok <==> Live(old(entries), nonce, now)
    {
      if nonce !in entries {
        return false;
      }
      var expires := entries[nonce];
      entries := entries - {nonce};
      return !(now > expires);
    }

    /** Deletes while iterating, in whatever order the map is visited. */
    method Sweep(now: Time)
      modifies this
      ensures entries == Swept(old(entries), now)
    {
      ghost var before := entries;
      var todo := entries.Keys;
      while todo != {}
        invariant todo <= entries.Keys <= before.Keys
        invariant forall n :: n in entries ==> entries[n] == before[n] && (n !in todo ==> now <= entries[n])
        invariant forall n :: n in before && now <= before[n] ==> n in entries
        decreases todo
      {
        var n :| n in todo;
        todo := todo - {n};
        if now > entries[n] {
          entries := entries - {n};
        }
      }
    }
  }

  // ----- Runs -----

  function First(op: Op): Time {
    if op.Issue? then op.sweepAt else op.now
  }

  function Last(op: Op): Time {
    if op.Issue? then op.storeAt else op.now
  }

  /** The clock never goes back from one reading to the next. */
  ghost predicate ClockMovesOn(ops: seq<Op>) {
    && (forall i :: 0 <= i < |ops| ==> First(ops[i]) <= Last(ops[i]))
    && (forall i, j :: 0 <= i < j < |ops| ==> Last(ops[i]) <= First(ops[j]))
  }

  /** No nonce is drawn twice. */
  ghost predicate FreshNonces(ops: seq<Op>) {
    forall i, j :: 0 <= i < j < |ops| && ops[i].Issue? && ops[j].Issue? ==> ops[i].nonce != ops[j].nonce
  }

  /** The store's map after the first k operations. */
  function StateAt(ops: seq<Op>, k: nat): Entries
    requires k <= |ops|
  {
    Histories.After(Apply, map[], ops, k)
  }

  /** The k-th operation is a burn that returned no error. */
  predicate Spends(ops: seq<Op>, k: nat)
    requires k < |ops|
  {
    ops[k].Burn? && Live(StateAt(ops, k), ops[k].nonce, ops[k].now)
  }

  function Expiry(op: Op): Time
    requires op.Issue?
  {
    op.storeAt + op.ttl
  }

  // ----- The history -----

  ghost predicate IssuedAt(ops: seq<Op>, k: nat, nonce: string, i: int) {
    0 <= i < k <= |ops| && ops[i].Issue? && ops[i].nonce == nonce
  }

  ghost predicate Unspent(ops: seq<Op>, k: nat, nonce: string)
    requires k <= |ops|
  {
    forall j :: 0 <= j < k && ops[j].nonce == nonce ==> !Spends(ops, j)
  }

  /** Every entry is an unspent issue ... */
  ghost predicate EntriesAreIssues(ops: seq<Op>, k: nat)
    requires k <= |ops|
  {
    forall n :: n in StateAt(ops, k) ==>
      Unspent(ops, k, n) && exists i :: IssuedAt(ops, k, n, i) && Expiry(ops[i]) == StateAt(ops, k)[n]
  }

  /** ... and every unspent issue is an entry or had expired by the latest clock reading. */
  ghost predicate IssuesAreEntries(ops: seq<Op>, k: nat)
    requires k <= |ops|
  {
    forall i :: 0 <= i < k && ops[i].Issue? && Unspent(ops, k, ops[i].nonce) ==>
      if ops[i].nonce in StateAt(ops, k) then StateAt(ops, k)[ops[i].nonce] == Expiry(ops[i])
      else Expiry(ops[i]) < Last(ops[k - 1])
  }

  lemma {:induction false} EntriesTraced(ops: seq<Op>, k: nat)
    requires k <= |ops| && FreshNonces(ops)
    ensures EntriesAreIssues(ops, k)
  {
    if k > 0 {
      EntriesTraced(ops, k - 1);
      var before, after, op := StateAt(ops, k - 1), StateAt(ops, k), ops[k - 1];
      forall n | n in after
        ensures Unspent(ops, k, n) && exists i :: IssuedAt(ops, k, n, i) && Expiry(ops[i]) == after[n]
      {
        if op.Issue? && n == op.nonce {
          FreshIsUnspent(ops, k - 1);
          assert IssuedAt(ops, k, n, k - 1) && Expiry(ops[k - 1]) == after[n];
        } else {
          assert n in before && after[n] == before[n];
          var i :| IssuedAt(ops, k - 1, n, i) && Expiry(ops[i]) == before[n];
          assert IssuedAt(ops, k, n, i) && Expiry(ops[i]) == after[n];
        }
      }
    }
  }

  /** A nonce that has not been issued yet has not been spent. */
  lemma {:induction false} FreshIsUnspent(ops: seq<Op>, k: nat)
    requires k < |ops| && ops[k].Issue? && FreshNonces(ops)
    ensures Unspent(ops, k + 1, ops[k].nonce)
  {
    forall j | 0 <= j < k && ops[j].nonce == ops[k].nonce ensures !Spends(ops, j) {
      if Spends(ops, j) {
        NotYetIssued(ops, j, ops[j].nonce);
        assert false;
      }
    }
  }

  lemma {:induction false} NotYetIssued(ops: seq<Op>, k: nat, nonce: string)
    requires k <= |ops| && forall i :: 0 <= i < k && ops[i].Issue? ==> ops[i].nonce != nonce
    ensures nonce !in StateAt(ops, k)
  {
    if k > 0 {
      NotYetIssued(ops, k - 1, nonce);
    }
  }

  lemma {:induction false} IssuesTraced(ops: seq<Op>, k: nat)
    requires k <= |ops| && FreshNonces(ops) && ClockMovesOn(ops)
    ensures IssuesAreEntries(ops, k)
  {
    if k > 0 {
      IssuesTraced(ops, k - 1);
      forall i | 0 <= i < k && ops[i].Issue? && Unspent(ops, k, ops[i].nonce)
        ensures if ops[i].nonce in StateAt(ops, k) then StateAt(ops, k)[ops[i].nonce] == Expiry(ops[i])
                else Expiry(ops[i]) < Last(ops[k - 1])
      {
        if i < k - 1 {
          assert Unspent(ops, k - 1, ops[i].nonce);
          IssueStep(ops, k - 1, i);
        }
      }
    }
  }

  lemma IssueStep(ops: seq<Op>, k: nat, i: nat)
    requires i < k < |ops| && FreshNonces(ops) && ClockMovesOn(ops) && ops[i].Issue? && Unspent(ops, k + 1, ops[i].nonce)
    requires if ops[i].nonce in StateAt(ops, k) then StateAt(ops, k)[ops[i].nonce] == Expiry(ops[i])
             else Expiry(ops[i]) < Last(ops[k - 1])
    ensures if ops[i].nonce in StateAt(ops, k + 1) then StateAt(ops, k + 1)[ops[i].nonce] == Expiry(ops[i])
            else Expiry(ops[i]) < Last(ops[k])
  {
    var n, op := ops[i].nonce, ops[k];
    assert Last(ops[k - 1]) <= First(op) <= Last(op);
    assert op.Issue? ==> op.nonce != n;
    assert op.Burn? && op.nonce == n ==> !Spends(ops, k);
  }

  /** The issues before k that a burn at time now can still honour. */
  ghost predicate Honours(ops: seq<Op>, k: nat, nonce: string, now: Time, i: int)
    requires k <= |ops|
  {
    IssuedAt(ops, k, nonce, i) && now <= Expiry(ops[i]) && Unspent(ops, k, nonce)
  }

  /**
   * However the store sweeps, a burn succeeds exactly when the nonce was issued before, the expiry it was given has not
   * passed, and no earlier burn of it succeeded.
   */
  lemma BurnExactly(ops: seq<Op>, k: nat)
    requires k < |ops| && ops[k].Burn? && FreshNonces(ops) && ClockMovesOn(ops)
    ensures Spends(ops, k) <==> exists i :: Honours(ops, k, ops[k].nonce, ops[k].now, i)
  {
    var n, now := ops[k].nonce, ops[k].now;
    EntriesTraced(ops, k);
    IssuesTraced(ops, k);
    if Spends(ops, k) {
      var i :| IssuedAt(ops, k, n, i) && Expiry(ops[i]) == StateAt(ops, k)[n];
      assert Honours(ops, k, n, now, i);
    }
    if i :| Honours(ops, k, n, now, i) {
      assert ops[i].nonce == n && Last(ops[k - 1]) <= First(ops[k]) == now;
    }
  }

  /** The specification: a log that forgets nothing and never sweeps. */
  ghost predicate LogSpends(ops: seq<Op>, k: nat)
    requires k < |ops|
    decreases k
  {
    && ops[k].Burn?
    && (exists i :: IssuedAt(ops, k, ops[k].nonce, i) && ops[k].now <= Expiry(ops[i]))
    && forall j :: 0 <= j < k && ops[j].nonce == ops[k].nonce ==> !LogSpends(ops, j)
  }

  /** The sweeping store answers every burn of every run as the log does. */
  lemma {:induction false} SameAsLog(ops: seq<Op>, k: nat)
    requires k < |ops| && FreshNonces(ops) && ClockMovesOn(ops)
    ensures Spends(ops, k) <==> LogSpends(ops, k)
    decreases k
  {
    forall j | 0 <= j < k ensures Spends(ops, j) <==> LogSpends(ops, j) {
      SameAsLog(ops, j);
    }
    if ops[k].Burn? {
      BurnExactly(ops, k);
      if LogSpends(ops, k) {
        var i :| IssuedAt(ops, k, ops[k].nonce, i) && ops[k].now <= Expiry(ops[i]);
        assert Honours(ops, k, ops[k].nonce, ops[k].now, i);
      }
    }
  }

  /** No nonce is spent twice, and what is spent was issued before. */
  lemma SpentOnce(ops: seq<Op>, j: nat, k: nat)
    requires j < k < |ops| && FreshNonces(ops) && ClockMovesOn(ops) && Spends(ops, j) && Spends(ops, k)
    ensures ops[j].nonce != ops[k].nonce
  {
    BurnExactly(ops, k);
    var i :| Honours(ops, k, ops[k].nonce, ops[k].now, i);
  }

  /** After an issue everything in the map was unexpired when it swept, unless the new entry itself starts out expired. */
  lemma SweptOnIssue(ops: seq<Op>, k: nat)
    requires k < |ops| && ops[k].Issue?
    ensures AllUnexpired(StateAt(ops, k + 1), ops[k].sweepAt) <==> ops[k].sweepAt <= Expiry(ops[k])
  {
    var op := ops[k];
    assert op.nonce in StateAt(ops, k + 1) && StateAt(ops, k + 1)[op.nonce] == Expiry(op);
  }
}
