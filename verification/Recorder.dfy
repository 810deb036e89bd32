/** The bounded trail buffer of examples/hub/observe.go. */
module Recorder {
  import opened Events
  import Histories

  /** Durations are left out. */
  datatype CheckInfo = CheckInfo(name: CheckName, ok: bool)

  type Trail = map<string, seq<CheckInfo>>

  const CAP := 1024

  /** The critical sections on the buffer. */
  datatype Op = Check(id: string, info: CheckInfo) | Drain(id: string)

  function At(checks: Trail, id: string): seq<CheckInfo> {
    if id in checks then checks[id] else []
  }

  function Apply(checks: Trail, op: Op): Trail {
    match op
    case Check(id, info) => if |checks| < CAP then checks[id := At(checks, id) + [info]] else checks
    case Drain(id) => checks - {id}
  }

  class Recorder {
    var checks: Trail

    constructor ()
      ensures checks == map[]
    {
      checks := map[];
    }

    method OnCheckResult(id: string, check: CheckName, ok: bool)
      modifies this
      ensures checks == Apply(old(checks), Check(id, CheckInfo(check, ok)))
    {
      if |checks| < CAP {
        var trail := if id in checks then checks[id] else [];
        checks := checks[id := trail + [CheckInfo(check, ok)]];
      }
    }

    method DrainChecks(id: string) returns (trail: seq<CheckInfo>)
      modifies this
      ensures trail == At(old(checks), id)
      ensures checks == Apply(old(checks), Drain(id))
    {
      trail := if id in checks then checks[id] else [];
      checks := checks - {id};
    }
  }

  // ----- Runs of any number of attempts, interleaved -----

  /** The buffer after the first k operations. */
  function StateAt(ops: seq<Op>, k: nat): Trail
    requires k <= |ops|
  {
    Histories.After(Apply, map[], ops, k)
  }

  lemma Bounded(checks: Trail, op: Op)
    requires |checks| <= CAP
    ensures |Apply(checks, op)| <= CAP
  {
    match op
    case Check(id, info) =>
      if |checks| < CAP {
        var after := Apply(checks, op);
        assert after.Keys == checks.Keys + {id};
      }
    case Drain(id) =>
      var after := Apply(checks, op);
      assert after.Keys <= checks.Keys;
      FewerKeys(after.Keys, checks.Keys);
  }

  lemma {:induction false} FewerKeys(a: set<string>, b: set<string>)
    requires a <= b
    ensures |a| <= |b| && (|a| == |b| ==> a == b)
  {
    if x :| x in a {
      FewerKeys(a - {x}, b - {x});
      assert b == b - {x} + {x} && a == a - {x} + {x};
    }
  }

  /** The buffer never holds more than 1024 attempts. */
  lemma {:induction false} RunBounded(ops: seq<Op>, k: nat)
    requires k <= |ops|
    ensures |StateAt(ops, k)| <= 1024
  {
    if k > 0 {
      RunBounded(ops, k - 1);
      Bounded(StateAt(ops, k - 1), ops[k - 1]);
    }
  }

  /** What an attempt has emitted since its last drain, buffered or not. */
  function Emitted(ops: seq<Op>, k: nat, id: string): seq<CheckInfo>
    requires k <= |ops|
  {
    if k == 0 then [] else Emits(Emitted(ops, k - 1, id), ops[k - 1], id)
  }

  function Emits(emitted: seq<CheckInfo>, op: Op, id: string): seq<CheckInfo> {
    if op.id != id then emitted
    else if op.Drain? then []
    else emitted + [op.info]
  }

  lemma {:induction false} EmittedPrefix(a: seq<Op>, b: seq<Op>, k: nat, id: string)
    requires k <= |a| && a <= b
    ensures Emitted(a, k, id) == Emitted(b, k, id)
  {
    if k > 0 {
      EmittedPrefix(a, b, k - 1, id);
    }
  }

  /** The buffer held fewer than 1024 attempts at each of those events. */
  predicate HadRoom(ops: seq<Op>, k: nat, id: string)
    requires k <= |ops|
  {
    k == 0 || HasRoom(HadRoom(ops, k - 1, id), StateAt(ops, k - 1), ops[k - 1], id)
  }

  predicate HasRoom(had: bool, checks: Trail, op: Op, id: string) {
    if op.id != id then had
    else if op.Drain? then true
    else had && |checks| < 1024
  }

  /** A trail against what was emitted: equal if there was room all along, shorter otherwise. */
  predicate Matches(trail: seq<CheckInfo>, emitted: seq<CheckInfo>, had: bool) {
    if had then trail == emitted else |trail| < |emitted|
  }

  lemma MatchesOn(checks: Trail, op: Op, id: string, emitted: seq<CheckInfo>, had: bool)
    requires Matches(At(checks, id), emitted, had)
    ensures Matches(At(Apply(checks, op), id), Emits(emitted, op, id), HasRoom(had, checks, op, id))
  {
  }

  lemma {:induction false} BufferedTrail(ops: seq<Op>, k: nat, id: string)
    requires k <= |ops|
    ensures Matches(At(StateAt(ops, k), id), Emitted(ops, k, id), HadRoom(ops, k, id))
  {
    if k > 0 {
      BufferedTrail(ops, k - 1, id);
      MatchesOn(StateAt(ops, k - 1), ops[k - 1], id, Emitted(ops, k - 1, id), HadRoom(ops, k - 1, id));
    }
  }

  /** A drain returns all the attempt emitted since its last drain, in order, exactly when there was room at each event. */
  lemma DrainsAllIffRoom(ops: seq<Op>, k: nat)
    requires k < |ops| && ops[k].Drain?
    ensures At(StateAt(ops, k), ops[k].id) == Emitted(ops, k, ops[k].id) <==> HadRoom(ops, k, ops[k].id)
  {
    BufferedTrail(ops, k, ops[k].id);
  }

  /** An attempt that is never drained, such as a link attempt, stays buffered. */
  lemma {:induction false} Stays(ops: seq<Op>, i: nat, j: nat, id: string)
    requires i <= j <= |ops| && id in StateAt(ops, i) && NotDrained(ops, i, j, id)
    ensures id in StateAt(ops, j)
  {
    if i < j {
      Stays(ops, i, j - 1, id);
      StepKeeps(StateAt(ops, j - 1), ops[j - 1], id);
    }
  }

  ghost predicate NotDrained(ops: seq<Op>, i: nat, j: nat, id: string)
    requires j <= |ops|
  {
    forall k :: i <= k < j && ops[k].Drain? ==> ops[k].id != id
  }

  lemma StepKeeps(checks: Trail, op: Op, id: string)
    requires id in checks && (op.Drain? ==> op.id != id)
    ensures id in Apply(checks, op)
  {
  }

  /** Once 1024 attempts that are never drained are buffered, every other attempt finds its trail empty for good. */
  lemma {:induction false} FullForGood(ops: seq<Op>, i: nat, j: nat, stuck: set<string>, id: string)
    requires i <= j <= |ops| && |stuck| == 1024 && stuck <= StateAt(ops, i).Keys && id !in stuck
    requires forall k :: i <= k < j ==> ops[k].Drain? ==> ops[k].id !in stuck
    ensures At(StateAt(ops, j), id) == []
  {
    forall s | s in stuck ensures s in StateAt(ops, j) {
      Stays(ops, i, j, s);
    }
    RunBounded(ops, j);
    assert stuck <= StateAt(ops, j).Keys;
    FewerKeys(stuck, StateAt(ops, j).Keys);
  }
}
