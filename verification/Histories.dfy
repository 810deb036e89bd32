/** The state of a store after the first steps of its history. */
module Histories {
  function After<S, A>(apply: (S, A) -> S, start: S, steps: seq<A>, k: nat): S
    requires k <= |steps|
  {
    if k == 0 then start else apply(After(apply, start, steps, k - 1), steps[k - 1])
  }

  /** Only the first k steps matter. */
  lemma {:induction false} SamePrefix<S, A>(apply: (S, A) -> S, start: S, a: seq<A>, b: seq<A>, k: nat)
    requires k <= |a| && a <= b
    ensures After(apply, start, a, k) == After(apply, start, b, k)
  {
    if k > 0 {
      SamePrefix(apply, start, a, b, k - 1);
    }
  }

  /** One step more. */
  lemma OneMore<S, A>(apply: (S, A) -> S, start: S, steps: seq<A>, step: A)
    ensures After(apply, start, steps + [step], |steps| + 1) == apply(After(apply, start, steps, |steps|), step)
  {
    SamePrefix(apply, start, steps, steps + [step], |steps|);
  }
}
