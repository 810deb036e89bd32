/**
 * Keccak-f[1600] on 25 lanes of 64 bits: sections 3.2 and 3.3 of FIPS 202, one function a step mapping.
 * Lane (x, y) is element x + 5 * y; bit z of a lane is its element z.
 */
module KeccakF {
  import opened Words

  type Lane = l: Bits | |l| == 64 witness Zeros(64)
  type State = A: seq<Lane> | |A| == 25 witness seq(25, _ => Zeros(64))

  /** A'[z] = A[(z - n) mod 64] */
  function RotateLeft(a: Lane, n: nat): (c: Lane)
    requires n < 64
    ensures forall z :: 0 <= z < 64 ==> c[z] == a[(z - n) % 64]
  {
    seq(64, z requires 0 <= z < 64 => a[(z - n) % 64])
  }

  // ----- theta (section 3.2.1) -----

  function Parity(A: State, x: nat): Lane
    requires x < 5
  {
    Xor(Xor(Xor(Xor(A[x], A[x + 5]), A[x + 10]), A[x + 15]), A[x + 20])
  }

  function ThetaEffect(A: State, x: nat): Lane
    requires x < 5
  {
    Xor(Parity(A, (x + 4) % 5), RotateLeft(Parity(A, (x + 1) % 5), 1))
  }

  function ThetaLane(A: State, i: nat): Lane
    requires i < 25
  {
    Xor(A[i], ThetaEffect(A, i % 5))
  }

  function Theta(A: State): (B: State)
    ensures forall i :: 0 <= i < 25 ==> B[i] == ThetaLane(A, i)
  {
    seq(25, i requires 0 <= i < 25 => ThetaLane(A, i))
  }

  // ----- rho (section 3.2.2): rotate by (t + 1)(t + 2) / 2 along the walk (x, y) -> (y, 2x + 3y) from (1, 0) -----

  /** (x, y) -> (y, 2x + 3y) */
  function Next(i: nat): (j: nat)
    requires i < 25
    ensures j < 25
  {
    i / 5 + 5 * ((2 * (i % 5) + 3 * (i / 5)) % 5)
  }

  function Walk(t: nat): (i: nat)
    ensures i < 25
  {
    if t == 0 then 1 else Next(Walk(t - 1))
  }

  function Offset(t: nat): (n: nat)
    ensures n < 64
  {
    (t + 1) * (t + 2) / 2 % 64
  }

  function Rotations(A: State): (V: seq<Lane>)
    ensures |V| == 24 && forall t :: 0 <= t < 24 ==> V[t] == RotateLeft(A[Walk(t)], Offset(t))
  {
    seq(24, t requires 0 <= t < 24 => RotateLeft(A[Walk(t)], Offset(t)))
  }

  /** The first n assignments of the rho loop, of the lanes V. */
  function Place(A: State, V: seq<Lane>, n: nat): State
    requires n <= |V|
  {
    if n == 0 then A else Place(A, V, n - 1)[Walk(n - 1) := V[n - 1]]
  }

  function Rho(A: State): State {
    Place(A, Rotations(A), 24)
  }

  // ----- pi (section 3.2.3) -----

  function Pi(A: State): (B: State)
    ensures forall i :: 0 <= i < 25 ==> B[i] == A[(i % 5 + 3 * (i / 5)) % 5 + 5 * (i % 5)]
  {
    seq(25, i requires 0 <= i < 25 => A[(i % 5 + 3 * (i / 5)) % 5 + 5 * (i % 5)])
  }

  // ----- chi (section 3.2.4) -----

  function ChiLane(A: State, i: nat): Lane
    requires i < 25
  {
    Xor(A[i], And(Not(A[(i + 1) % 5 + i / 5 * 5]), A[(i + 2) % 5 + i / 5 * 5]))
  }

  function Chi(A: State): (B: State)
    ensures forall i :: 0 <= i < 25 ==> B[i] == ChiLane(A, i)
  {
    seq(25, i requires 0 <= i < 25 => ChiLane(A, i))
  }

  // ----- iota (section 3.2.5): round constants from the shift register of Algorithm 5 -----

  /** The eight bits of R, R[0] lowest. */
  type Register = bv8

  /** R = 0 || R; then R[8] is added to R[0], R[4], R[5] and R[6]; R is cut to 8 bits. */
  function Step(R: Register): Register {
    if R & 0x80 != 0 then (R << 1) ^ 0x71 else R << 1
  }

  function Steps(R: Register, t: nat): Register
    decreases t
  {
    if t == 0 then R else Steps(Step(R), t - 1)
  }

  const START: Register := 1

  function LowBit(R: Register): bool {
    R & 1 == 1
  }

  function rc(t: nat): bool {
    LowBit(Steps(START, t % 255))
  }

  /** RC[2^j - 1] = rc(j + 7 * round) for j from 0 to 6, and every other bit is 0. */
  function RoundConstant(round: nat): Lane {
    SevenBits(rc(7 * round), rc(1 + 7 * round), rc(2 + 7 * round), rc(3 + 7 * round), rc(4 + 7 * round),
              rc(5 + 7 * round), rc(6 + 7 * round))
  }

  function SevenBits(a0: bool, a1: bool, a3: bool, a7: bool, a15: bool, a31: bool, a63: bool): Lane {
    seq(64, z requires 0 <= z < 64 =>
      if z == 0 then a0 else if z == 1 then a1 else if z == 3 then a3 else if z == 7 then a7
      else if z == 15 then a15 else if z == 31 then a31 else z == 63 && a63)
  }

  function Iota(A: State, round: nat): State {
    A[0 := Xor(A[0], RoundConstant(round))]
  }

  // ----- Rounds (section 3.3) -----

  function Round(A: State, round: nat): State {
    Iota(Chi(Pi(Rho(Theta(A)))), round)
  }

  function Rounds(A: State, n: nat): State {
    if n == 0 then A else Round(Rounds(A, n - 1), n - 1)
  }

  /** The permutation. */
  function Permute(A: State): State {
    Rounds(A, 24)
  }

  // ----- rho and pi together: both follow the walk -----

  ghost predicate WalkIsCycle() {
    && (forall i, j :: 0 <= i < j < 24 ==> Walk(i) != Walk(j))
    && (forall i :: 0 <= i < 24 ==> Walk(i) != 0)
  }

  lemma {:induction false} PlaceAt(A: State, V: seq<Lane>, n: nat, t: nat)
    requires t < n <= |V| == 24 && WalkIsCycle()
    ensures Place(A, V, n)[Walk(t)] == V[t]
  {
    if t < n - 1 {
      PlaceAt(A, V, n - 1, t);
    }
  }

  lemma {:induction false} PlaceAtOrigin(A: State, V: seq<Lane>, n: nat)
    requires n <= |V| == 24 && WalkIsCycle()
    ensures Place(A, V, n)[0] == A[0]
  {
    if n > 0 {
      PlaceAtOrigin(A, V, n - 1);
    }
  }

  /** pi moves the lane at one step of the walk to the next. */
  lemma PiFollowsWalk(A: State, t: nat)
    ensures Pi(A)[Walk(t + 1)] == A[Walk(t)]
  {
    var i := Walk(t);
    var x, y := i % 5, i / 5;
    assert Walk(t + 1) == Next(i);
    PiSource(x, y);
  }

  lemma PiSource(x: nat, y: nat)
    requires x < 5 && y < 5
    ensures var d := y + 5 * ((2 * x + 3 * y) % 5);
      (d % 5 + 3 * (d / 5)) % 5 + 5 * (d % 5) == x + 5 * y
  {
    assert x == 0 || x == 1 || x == 2 || x == 3 || x == 4;
    assert y == 0 || y == 1 || y == 2 || y == 3 || y == 4;
  }

  lemma RhoAt(A: State, t: nat)
    requires t < 24 && WalkIsCycle()
    ensures Rho(A)[Walk(t)] == RotateLeft(A[Walk(t)], Offset(t)) && Rho(A)[0] == A[0]
  {
    var V := Rotations(A);
    PlaceAt(A, V, 24, t);
    PlaceAtOrigin(A, V, 24);
  }

  /** rho then pi: each lane of the walk is rotated by its offset and lands on the walk's next lane. */
  lemma RhoPi(A: State, B: State, t: nat)
    requires t < 24 && WalkIsCycle() && B == Rho(A)
    ensures Pi(B)[Walk(t + 1)] == RotateLeft(A[Walk(t)], Offset(t)) && Pi(B)[0] == A[0]
  {
    RhoAt(A, t);
    PiFollowsWalk(B, t);
  }

  lemma {:induction false} StepsAdd(R: Register, a: nat, b: nat)
    ensures Steps(R, a + b) == Steps(Steps(R, a), b)
    decreases a
  {
    if a > 0 {
      StepsAdd(Step(R), a - 1, b);
    }
  }
}
