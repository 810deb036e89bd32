/** siwx/verifier.go: what a caller hands to one verification. */
module VerifyOpts {
  import opened Timestamps

  /** The relying party's domain, and the nonce it issued. */
  datatype Expected = Expected(domain: string, nonce: string)

  /** The expectations and the id that ties the events of the attempt together. */
  datatype Opts = Opts(expected: Expected, attemptId: string)

  /** The readings the call makes of its clock, in order. */
  type Clock = nat -> Instant

  ghost predicate NonDecreasing(clock: Clock) {
    forall i, j :: i <= j ==> !Before(clock(j), clock(i))
  }

  lemma LaterStays(a: Instant, b: Instant, x: Instant)
    requires !Before(b, a)
    ensures !Before(a, x) ==> !Before(b, x)
    ensures Before(b, x) ==> Before(a, x)
  {
  }
}
