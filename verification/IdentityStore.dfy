/** The identity store of examples/hub/stores.go: an index kept as two maps. */
module IdentityStore {
  import opened Wrappers
  import opened Caip
  import Histories

  /** walletToID and idToWallets, with wallets as store keys. */
  datatype Index = Index(owner: map<string, string>, wallets: map<string, seq<string>>)

  /** The critical sections that write; newId is fresh random text. */
  datatype Action = Upsert(w: CAIP10, newId: string) | Link(id: string, w: CAIP10)

  const EMPTY := Index(map[], map[])

  /** LinkWallet adds the key to this identity. */
  predicate Adds(s: Index, a: Action) {
    a.Link? && a.id in s.wallets && String(a.w) !in s.wallets[a.id]
  }

  function Apply(s: Index, a: Action): Index {
    var key := String(a.w);
    match a
    case Upsert(_, newId) =>
      if key in s.owner then s else Index(s.owner[key := newId], s.wallets[newId := [key]])
    case Link(id, _) =>
      if Adds(s, a) then Index(s.owner[key := id], s.wallets[id := s.wallets[id] + [key]]) else s
  }

  /** The identity UpsertByWallet returns. */
  function Upserted(s: Index, key: string, newId: string): string {
    if key in s.owner then s.owner[key] else newId
  }

  /** ParseCAIP10 on every key, up to the first that fails. */
  function ParseAll(keys: seq<string>): Result<seq<CAIP10>, CaipError> {
    if keys == [] then Ok([])
    else
      var (init, last) := (ParseAll(keys[..|keys| - 1]), ParseCAIP10(keys[|keys| - 1]));
      if init.Err? then init
      else if last.Err? then Err(last.error)
      else Ok(init.value + [last.value])
  }

  function Listed(s: Index, id: string): seq<string> {
    if id in s.wallets then s.wallets[id] else []
  }

  class IdentityStore {
    var owner: map<string, string>
    var wallets: map<string, seq<string>>

    ghost function State(): Index
      reads this
    {
      Index(owner, wallets)
    }

    constructor ()
      ensures State() == EMPTY
    {
      owner := map[];
      wallets := map[];
    }

    method UpsertByWallet(w: CAIP10, newId: string) returns (id: string, created: bool)
      modifies this
      ensures State() == Apply(old(State()), Upsert(w, newId))
      ensures id == Upserted(old(State()), String(w), newId) && (created <==> String(w) !in old(owner))
    {
      var key := String(w);
      if key in owner {
        return owner[key], false;
      }
      owner := owner[key := newId];
      wallets := wallets[newId := [key]];
      return newId, true;
    }

    /** False stands for "identity not found". */
    method LinkWallet(id: string, w: CAIP10) returns (found: bool)
      modifies this
      ensures State() == Apply(old(State()), Link(id, w))
      ensures found <==> id in old(wallets)
    {
      var key := String(w);
      if id !in wallets {
        return false;
      }
      for i := 0 to |wallets[id]|
        invariant State() == old(State()) && key !in wallets[id][..i]
      {
        if wallets[id][i] == key {
          return true;
        }
        assert wallets[id][..i + 1] == wallets[id][..i] + [wallets[id][i]];
      }
      assert wallets[id][..|wallets[id]|] == wallets[id];
      owner := owner[key := id];
      wallets := wallets[id := wallets[id] + [key]];
      return true;
    }

    method Wallets(id: string) returns (r: Result<seq<CAIP10>, CaipError>)
      ensures r == ParseAll(Listed(State(), id))
    {
      var keys := if id in wallets then wallets[id] else [];
      var out: seq<CAIP10> := [];
      for i := 0 to |keys|
        invariant ParseAll(keys[..i]) == Ok(out)
      {
        var c := ParseCAIP10(keys[i]);
        if c.Err? {
          FailsAt(keys, i);
          return Err(c.error);
        }
        assert keys[..i + 1][..i] == keys[..i];
        out := out + [c.value];
      }
      assert keys[..|keys|] == keys;
      return Ok(out);
    }
  }

  lemma {:induction false} FailsAt(keys: seq<string>, i: nat)
    requires i < |keys| && ParseAll(keys[..i]).Ok? && ParseCAIP10(keys[i]).Err?
    ensures ParseAll(keys) == Err(ParseCAIP10(keys[i]).error)
  {
    var init := keys[..|keys| - 1];
    if i < |init| {
      assert init[..i] == keys[..i] && init[i] == keys[i];
      FailsAt(init, i);
      FailsOn(keys, init);
    } else {
      assert init == keys[..i];
    }
  }

  lemma FailsOn(keys: seq<string>, init: seq<string>)
    requires keys != [] && init == keys[..|keys| - 1] && ParseAll(init).Err?
    ensures ParseAll(keys) == ParseAll(init)
  {
  }

  /** Wallets returns the valid accounts whose keys are stored, in order, and fails when a key is no valid account. */
  lemma {:induction false} ParseAllExactly(keys: seq<string>, out: seq<CAIP10>)
    ensures ParseAll(keys) == Ok(out) <==> Printed(keys, out)
  {
    if |out| != |keys| {
      ParseAllLength(keys);
    } else if keys != [] {
      var k := |keys| - 1;
      ParseAllExactly(keys[..k], out[..k]);
      CAIP10Exactly(keys[k], out[k]);
      PrintedSnoc(keys, out);
      assert out == out[..k] + [out[k]];
    }
  }

  predicate Printed(keys: seq<string>, out: seq<CAIP10>) {
    |out| == |keys| && forall i :: 0 <= i < |keys| ==> ValidCAIP10(out[i]) && keys[i] == String(out[i])
  }

  lemma PrintedSnoc(keys: seq<string>, out: seq<CAIP10>)
    requires |keys| == |out| > 0
    ensures var k := |keys| - 1;
      Printed(keys, out) <==> Printed(keys[..k], out[..k]) && ValidCAIP10(out[k]) && keys[k] == String(out[k])
  {
    var k := |keys| - 1;
    if Printed(keys[..k], out[..k]) && ValidCAIP10(out[k]) && keys[k] == String(out[k]) {
      forall i | 0 <= i < |keys| ensures ValidCAIP10(out[i]) && keys[i] == String(out[i]) {
        if i < k { assert keys[..k][i] == keys[i] && out[..k][i] == out[i]; }
      }
    }
  }

  lemma {:induction false} ParseAllLength(keys: seq<string>)
    ensures ParseAll(keys).Ok? ==> |ParseAll(keys).value| == |keys|
  {
    if keys != [] {
      ParseAllLength(keys[..|keys| - 1]);
    }
  }

  // ----- Runs -----

  /** The index after the first k writes. */
  function StateAt(run: seq<Action>, k: nat): Index
    requires k <= |run|
  {
    Histories.After(Apply, EMPTY, run, k)
  }

  /** Whenever an upsert makes an identity, its id is new. */
  ghost predicate FreshIds(run: seq<Action>) {
    forall k :: 0 <= k < |run| && run[k].Upsert? ==> run[k].newId !in StateAt(run, k).wallets
  }

  ghost predicate NoDuplicates(keys: seq<string>) {
    forall i, j :: 0 <= i < j < |keys| ==> keys[i] != keys[j]
  }

  /** Every wallet is in the list of the identity it maps to, every listed wallet maps somewhere, no list repeats itself. */
  ghost predicate Sound(s: Index) {
    && (forall key :: key in s.owner ==> s.owner[key] in s.wallets && key in s.wallets[s.owner[key]])
    && (forall id :: id in s.wallets ==> NoDuplicates(s.wallets[id]))
    && (forall id, key :: id in s.wallets && key in s.wallets[id] ==> key in s.owner)
  }

  lemma ApplySound(s: Index, a: Action)
    requires Sound(s) && (a.Upsert? ==> a.newId !in s.wallets)
    ensures Sound(Apply(s, a))
  {
  }

  lemma {:induction false} RunSound(run: seq<Action>, k: nat)
    requires k <= |run| && FreshIds(run)
    ensures Sound(StateAt(run, k))
  {
    if k > 0 {
      RunSound(run, k - 1);
      ApplySound(StateAt(run, k - 1), run[k - 1]);
    }
  }

  /** No identity goes away and no list loses or moves an entry. */
  ghost predicate Grows(s: Index, t: Index) {
    && (forall id :: id in s.wallets ==> id in t.wallets && s.wallets[id] <= t.wallets[id])
    && (forall key :: key in s.owner ==> key in t.owner)
  }

  lemma {:induction false} RunGrows(run: seq<Action>, i: nat, j: nat)
    requires i <= j <= |run| && FreshIds(run)
    ensures Grows(StateAt(run, i), StateAt(run, j))
  {
    if i < j {
      RunGrows(run, i, j - 1);
      StepGrows(StateAt(run, j - 1), run[j - 1]);
      GrowsOn(StateAt(run, i), StateAt(run, j - 1), StateAt(run, j));
    }
  }

  lemma StepGrows(s: Index, a: Action)
    requires a.Upsert? ==> a.newId !in s.wallets
    ensures Grows(s, Apply(s, a))
  {
  }

  lemma GrowsOn(s: Index, t: Index, u: Index)
    requires Grows(s, t) && Grows(t, u)
    ensures Grows(s, u)
  {
    forall id | id in s.wallets ensures id in u.wallets && s.wallets[id] <= u.wallets[id] {
      assert s.wallets[id] <= t.wallets[id] <= u.wallets[id];
    }
  }

  /**
   * Between an upsert and any later reading of the identity's list, under any interleaving, the upserted wallet stays
   * in the list.
   */
  lemma UpsertedStaysListed(run: seq<Action>, i: nat, j: nat)
    requires i < j <= |run| && FreshIds(run) && run[i].Upsert?
    ensures var key := String(run[i].w); key in Listed(StateAt(run, j), Upserted(StateAt(run, i), key, run[i].newId))
  {
    RunSound(run, i);
    RunGrows(run, i + 1, j);
    ListedAfterUpsert(StateAt(run, i), run[i].w, run[i].newId);
    ListedOn(StateAt(run, i + 1), StateAt(run, j), Upserted(StateAt(run, i), String(run[i].w), run[i].newId), String(run[i].w));
  }

  lemma ListedAfterUpsert(s: Index, w: CAIP10, newId: string)
    requires Sound(s)
    ensures String(w) in Listed(Apply(s, Upsert(w, newId)), Upserted(s, String(w), newId))
  {
  }

  lemma ListedOn(s: Index, t: Index, id: string, key: string)
    requires Grows(s, t) && key in Listed(s, id)
    ensures key in Listed(t, id)
  {
    assert s.wallets[id] <= t.wallets[id];
  }

  // ----- When the two maps are inverse to each other -----

  /** The wallets listed under an identity are exactly those that map to it. */
  ghost predicate Inverse(s: Index) {
    forall id, key :: key in Listed(s, id) <==> key in s.owner && s.owner[key] == id
  }

  /** LinkWallet takes a wallet over from the identity that has it; the old list keeps its entry. */
  predicate Steals(s: Index, a: Action) {
    Adds(s, a) && String(a.w) in s.owner
  }

  lemma StepInverse(s: Index, a: Action)
    requires Sound(s) && Inverse(s) && (a.Upsert? ==> a.newId !in s.wallets)
    ensures Inverse(Apply(s, a)) <==> !Steals(s, a)
  {
    var t := Apply(s, a);
    if Steals(s, a) {
      var previous := s.owner[String(a.w)];
      assert String(a.w) in Listed(t, previous) && t.owner[String(a.w)] == a.id != previous;
    } else {
      forall id, key ensures key in Listed(t, id) <==> key in t.owner && t.owner[key] == id {
        assert key in Listed(s, id) <==> key in s.owner && s.owner[key] == id;
      }
    }
  }

  /** A wallet listed under an identity it does not map to stays so. */
  lemma StaysBroken(s: Index, a: Action, id: string, key: string)
    requires Sound(s) && (a.Upsert? ==> a.newId !in s.wallets)
    requires id in s.wallets && key in s.wallets[id] && s.owner[key] != id
    ensures var t := Apply(s, a); id in t.wallets && key in t.wallets[id] && key in t.owner && t.owner[key] != id
  {
  }

  /** The first half of Inverse can only fail on a listed wallet. */
  lemma BrokenWitness(s: Index) returns (id: string, key: string)
    requires Sound(s) && !Inverse(s)
    ensures id in s.wallets && key in s.wallets[id] && s.owner[key] != id
  {
    id, key :| !(key in Listed(s, id) <==> key in s.owner && s.owner[key] == id);
  }

  /** A step keeps the maps inverse unless it steals, and never repairs them. */
  lemma StepInverseIff(s: Index, a: Action)
    requires Sound(s) && (a.Upsert? ==> a.newId !in s.wallets)
    ensures Inverse(Apply(s, a)) <==> Inverse(s) && !Steals(s, a)
  {
    if Inverse(s) {
      StepInverse(s, a);
    } else {
      var id, key := BrokenWitness(s);
      StaysBroken(s, a, id, key);
      assert key in Listed(Apply(s, a), id);
    }
  }

  /** No link of the first k writes took a wallet over from another identity. */
  predicate NeverSteals(run: seq<Action>, k: nat)
    requires k <= |run|
  {
    k == 0 || (NeverSteals(run, k - 1) && !Steals(StateAt(run, k - 1), run[k - 1]))
  }

  /** In every run the two maps are exact inverses if and only if no link took a wallet over from another identity. */
  lemma {:induction false} InverseIffNoSteal(run: seq<Action>, k: nat)
    requires k <= |run| && FreshIds(run)
    ensures Inverse(StateAt(run, k)) <==> NeverSteals(run, k)
  {
    if k > 0 {
      InverseIffNoSteal(run, k - 1);
      InverseStep(run, k - 1);
    }
  }

  lemma InverseStep(run: seq<Action>, k: nat)
    requires k < |run| && FreshIds(run)
    ensures Inverse(StateAt(run, k + 1)) <==> Inverse(StateAt(run, k)) && !Steals(StateAt(run, k), run[k])
  {
    RunSound(run, k);
    StepInverseIff(StateAt(run, k), run[k]);
  }

  lemma {:induction false} NeverStealsMeans(run: seq<Action>, k: nat)
    requires k <= |run|
    ensures NeverSteals(run, k) <==> forall i :: 0 <= i < k ==> !StealsAt(run, i)
  {
    if k > 0 {
      NeverStealsMeans(run, k - 1);
      assert NeverSteals(run, k) <==> NeverSteals(run, k - 1) && !StealsAt(run, k - 1);
    }
  }

  predicate StealsAt(run: seq<Action>, i: nat)
    requires i < |run|
  {
    Steals(StateAt(run, i), run[i])
  }

  /** Two identities and one link are enough for a takeover. */
  lemma TakeoverHappens(a: CAIP10, b: CAIP10) returns (run: seq<Action>)
    requires String(a) != String(b)
    ensures |run| == 3 && FreshIds(run) && Steals(StateAt(run, 2), run[2]) && !Inverse(StateAt(run, 3))
  {
    run := [Upsert(a, "a"), Upsert(b, "b"), Link("a", b)];
    assert StateAt(run, 0) == EMPTY && StateAt(run, 1) == Apply(EMPTY, run[0]);
    assert StateAt(run, 1) == Index(map[String(a) := "a"], map["a" := [String(a)]]);
    assert StateAt(run, 2) == Apply(StateAt(run, 1), run[1]);
    assert StateAt(run, 2) == Index(map[String(a) := "a", String(b) := "b"], map["a" := [String(a)], "b" := [String(b)]]);
    InverseIffNoSteal(run, 3);
  }

  // ----- Which lists can be read -----

  /** The write finds or puts its wallet under this identity. */
  predicate Places(s: Index, a: Action, id: string) {
    match a
    case Upsert(w, newId) => Upserted(s, String(w), newId) == id
    case Link(into, _) => into == id && into in s.wallets
  }

  /** The i-th write does so. */
  predicate PlacedAt(run: seq<Action>, id: string, i: nat)
    requires i < |run|
  {
    Places(StateAt(run, i), run[i], id)
  }

  lemma StepListed(s: Index, a: Action, id: string, key: string)
    requires Sound(s) && (a.Upsert? ==> a.newId !in s.wallets)
    ensures key in Listed(Apply(s, a), id) <==> key in Listed(s, id) || (Places(s, a, id) && String(a.w) == key)
  {
  }

  /** One of the first k writes found or put this key under this identity. */
  predicate PutUnder(run: seq<Action>, k: nat, id: string, key: string)
    requires k <= |run|
  {
    k > 0 && (PutUnder(run, k - 1, id, key) || (PlacedAt(run, id, k - 1) && String(run[k - 1].w) == key))
  }

  lemma {:induction false} PutUnderMeans(run: seq<Action>, k: nat, id: string, key: string)
    requires k <= |run|
    ensures PutUnder(run, k, id, key) <==> exists i :: 0 <= i < k && PlacedAt(run, id, i) && String(run[i].w) == key
  {
    if k > 0 {
      PutUnderMeans(run, k - 1, id, key);
    }
  }

  /** A list holds exactly the wallets of the writes that found or put them there. */
  lemma {:induction false} ListedIffPlaced(run: seq<Action>, k: nat, id: string, key: string)
    requires k <= |run| && FreshIds(run)
    ensures key in Listed(StateAt(run, k), id) <==> PutUnder(run, k, id, key)
  {
    if k > 0 {
      ListedIffPlaced(run, k - 1, id, key);
      ListedStep(run, k - 1, id, key);
    }
  }

  lemma ListedStep(run: seq<Action>, k: nat, id: string, key: string)
    requires k < |run| && FreshIds(run)
    ensures key in Listed(StateAt(run, k + 1), id) <==>
      key in Listed(StateAt(run, k), id) || (PlacedAt(run, id, k) && String(run[k].w) == key)
  {
    RunSound(run, k);
    StepListed(StateAt(run, k), run[k], id, key);
  }

  lemma {:induction false} ParsesAll(keys: seq<string>)
    ensures ParseAll(keys).Ok? <==> forall i :: 0 <= i < |keys| ==> ParseCAIP10(keys[i]).Ok?
  {
    if keys != [] {
      var init := keys[..|keys| - 1];
      ParsesAll(init);
      assert forall i :: 0 <= i < |init| ==> init[i] == keys[i];
    }
  }

  /** The text of every account that the first k writes found or put under this identity parses. */
  ghost predicate AllParse(run: seq<Action>, k: nat, id: string)
    requires k <= |run|
  {
    forall i :: 0 <= i < k && PlacedAt(run, id, i) ==> ParseCAIP10(String(run[i].w)).Ok?
  }

  /** The wallets of an identity can be read exactly when the text of every account upserted or linked under it parses. */
  lemma ReadableIff(run: seq<Action>, k: nat, id: string)
    requires k <= |run| && FreshIds(run)
    ensures ParseAll(Listed(StateAt(run, k), id)).Ok? <==> AllParse(run, k, id)
  {
    var keys := Listed(StateAt(run, k), id);
    ParsesAll(keys);
    if AllParse(run, k, id) {
      forall j | 0 <= j < |keys| ensures ParseCAIP10(keys[j]).Ok? {
        ListedIffPlaced(run, k, id, keys[j]);
        PutUnderMeans(run, k, id, keys[j]);
      }
    } else {
      var i :| 0 <= i < k && PlacedAt(run, id, i) && ParseCAIP10(String(run[i].w)).Err?;
      PutUnderMeans(run, k, id, String(run[i].w));
      ListedIffPlaced(run, k, id, String(run[i].w));
    }
  }

  /** One key that is no valid account, and every later reading of that identity's wallets fails. */
  lemma InvalidForGood(run: seq<Action>, i: nat, j: nat, id: string, key: string)
    requires i <= j <= |run| && FreshIds(run) && key in Listed(StateAt(run, i), id) && ParseCAIP10(key).Err?
    ensures ParseAll(Listed(StateAt(run, j), id)).Err?
  {
    RunGrows(run, i, j);
    var keys := Listed(StateAt(run, j), id);
    assert Listed(StateAt(run, i), id) <= keys;
    if ParseAll(keys).Ok? {
      ParseAllExactly(keys, ParseAll(keys).value);
      var k :| 0 <= k < |keys| && keys[k] == key;
      CAIP10Exactly(key, ParseAll(keys).value[k]);
      assert false;
    }
  }
}
