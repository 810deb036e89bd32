/** keccakF of examples/web/app.js: the permutation on 50 half-lanes, word 2i the low and word 2i + 1 the high half of lane i. */
module KeccakHalves {
  import opened Words
  import opened KeccakF

  type Half = h: Bits | |h| == 32 witness Zeros(32)

  /** PIL, the destinations of the walk. */
  function Pil(t: nat): (n: nat)
    requires t < 24
    ensures n < 25
  {
    match t
    case 0 => 10 case 1 => 7 case 2 => 11 case 3 => 17 case 4 => 18 case 5 => 3
    case 6 => 5 case 7 => 16 case 8 => 8 case 9 => 21 case 10 => 24 case 11 => 4
    case 12 => 15 case 13 => 23 case 14 => 19 case 15 => 13 case 16 => 12 case 17 => 2
    case 18 => 20 case 19 => 14 case 20 => 22 case 21 => 9 case 22 => 6 case _ => 1
  }

  /** ROTC, the rotations along it. */
  function Rotc(t: nat): (n: nat)
    requires t < 24
    ensures n < 64
  {
    match t
    case 0 => 1 case 1 => 3 case 2 => 6 case 3 => 10 case 4 => 15 case 5 => 21
    case 6 => 28 case 7 => 36 case 8 => 45 case 9 => 55 case 10 => 2 case 11 => 14
    case 12 => 27 case 13 => 41 case 14 => 56 case 15 => 8 case 16 => 25 case 17 => 43
    case 18 => 62 case 19 => 18 case 20 => 39 case 21 => 61 case 22 => 20 case _ => 44
  }

  // ----- Halves and lanes -----

  function Join(lo: Half, hi: Half): Lane {
    lo + hi
  }

  lemma JoinXor(lo: Half, hi: Half, lo': Half, hi': Half)
    ensures Xor(Join(lo, hi), Join(lo', hi')) == Join(Xor(lo, lo'), Xor(hi, hi'))
  {
  }

  lemma JoinAndNot(lo: Half, hi: Half, lo': Half, hi': Half)
    ensures And(Not(Join(lo, hi)), Join(lo', hi')) == Join(And(Not(lo), lo'), And(Not(hi), hi'))
  {
  }

  /** rot32: the high and low half of the lane rotated by n. */
  function Rot32(hi: Half, lo: Half, n: nat): (Half, Half)
    requires n < 64
  {
    if n == 0 then (hi, lo)
    else if n < 32 then (Or(ShiftLeft(hi, n), ShiftRight(lo, 32 - n)), Or(ShiftLeft(lo, n), ShiftRight(hi, 32 - n)))
    else
      var k := n - 32;
      if k == 0 then (lo, hi)
      else (Or(ShiftLeft(lo, k), ShiftRight(hi, 32 - k)), Or(ShiftLeft(hi, k), ShiftRight(lo, 32 - k)))
  }

  /** rot32 is rotation of the 64-bit lane, for every amount. */
  lemma Rot32IsRotation(hi: Half, lo: Half, n: nat)
    requires n < 64
    ensures var (h, l) := Rot32(hi, lo, n); Join(l, h) == RotateLeft(Join(lo, hi), n)
  {
  }

  // ----- The state -----

  function LaneAt(s: seq<Half>, i: nat): Lane
    requires |s| == 50 && i < 25
  {
    Join(s[2 * i], s[2 * i + 1])
  }

  function Lanes(s: seq<Half>): (A: State)
    requires |s| == 50
    ensures forall i :: 0 <= i < 25 ==> A[i] == LaneAt(s, i)
  {
    seq(25, i requires 0 <= i < 25 => LaneAt(s, i))
  }

  // ----- theta -----

  function ParityWord(s: seq<Half>, x: nat, half: nat): Half
    requires |s| == 50 && x < 5 && half < 2
  {
    Xor(Xor(Xor(Xor(s[2 * x + half], s[2 * (x + 5) + half]), s[2 * (x + 10) + half]), s[2 * (x + 15) + half]),
        s[2 * (x + 20) + half])
  }

  lemma ParityHalves(s: seq<Half>, x: nat)
    requires |s| == 50 && x < 5
    ensures Parity(Lanes(s), x) == Join(ParityWord(s, x, 0), ParityWord(s, x, 1))
  {
    Xor5(s[2 * x], s[2 * (x + 5)], s[2 * (x + 10)], s[2 * (x + 15)], s[2 * (x + 20)],
         s[2 * x + 1], s[2 * (x + 5) + 1], s[2 * (x + 10) + 1], s[2 * (x + 15) + 1], s[2 * (x + 20) + 1]);
  }

  lemma Xor5(a: Half, b: Half, c: Half, d: Half, e: Half, a': Half, b': Half, c': Half, d': Half, e': Half)
    ensures Xor(Xor(Xor(Xor(Join(a, a'), Join(b, b')), Join(c, c')), Join(d, d')), Join(e, e'))
         == Join(Xor(Xor(Xor(Xor(a, b), c), d), e), Xor(Xor(Xor(Xor(a', b'), c'), d'), e'))
  {
    JoinXor(a, a', b, b');
    JoinXor(Xor(a, b), Xor(a', b'), c, c');
    JoinXor(Xor(Xor(a, b), c), Xor(Xor(a', b'), c'), d, d');
    JoinXor(Xor(Xor(Xor(a, b), c), d), Xor(Xor(Xor(a', b'), c'), d'), e, e');
  }

  /** The first loop: column parities. */
  method Parities(st: array<Half>, C: array<Half>)
    requires st.Length == 50 && C.Length == 10 && st != C
    modifies C
    ensures forall x :: 0 <= x < 5 ==> Join(C[2 * x], C[2 * x + 1]) == Parity(Lanes(st[..]), x)
  {
    for x := 0 to 5
      invariant forall k :: 0 <= k < x ==> Join(C[2 * k], C[2 * k + 1]) == Parity(Lanes(st[..]), k)
    {
      C[2 * x] := Xor(Xor(Xor(Xor(st[2 * x], st[2 * (x + 5)]), st[2 * (x + 10)]), st[2 * (x + 15)]), st[2 * (x + 20)]);
      C[2 * x + 1] := Xor(Xor(Xor(Xor(st[2 * x + 1], st[2 * (x + 5) + 1]), st[2 * (x + 10) + 1]), st[2 * (x + 15) + 1]),
                          st[2 * (x + 20) + 1]);
      ParityHalves(st[..], x);
    }
  }

  lemma LaneWritten(s: seq<Half>, i: nat, lo: Half, hi: Half)
    requires |s| == 50 && i < 25
    ensures var t := s[2 * i := lo][2 * i + 1 := hi];
      forall j :: 0 <= j < 25 ==> LaneAt(t, j) == if j == i then Join(lo, hi) else LaneAt(s, j)
  {
  }

  /** The halves of column x's effect. */
  method ColumnEffect(C: array<Half>, D: array<Half>, x: nat, ghost A: State)
    requires C.Length == 10 && D.Length == 10 && C != D && x < 5
    requires forall k :: 0 <= k < 5 ==> Join(C[2 * k], C[2 * k + 1]) == Parity(A, k)
    modifies D
    ensures Join(D[2 * x], D[2 * x + 1]) == ThetaEffect(A, x)
  {
    var next, previous := (x + 1) % 5, (x + 4) % 5;
    var (rh, rl) := Rot32(C[2 * next + 1], C[2 * next], 1);
    Rot32IsRotation(C[2 * next + 1], C[2 * next], 1);
    JoinXor(C[2 * previous], C[2 * previous + 1], rl, rh);
    D[2 * x] := Xor(C[2 * previous], rl);
    D[2 * x + 1] := Xor(C[2 * previous + 1], rh);
  }

  /** The inner loop: every lane of column x takes effect e, and no other lane changes. */
  method ApplyColumn(st: array<Half>, D: array<Half>, x: nat, ghost e: Lane)
    requires st.Length == 50 && D.Length == 10 && st != D && x < 5 && Join(D[2 * x], D[2 * x + 1]) == e
    modifies st
    ensures ColumnTook(old(st[..]), st[..], x, e)
  {
    ghost var before: seq<Half> := st[..];
    for y := 0 to 5
      invariant Join(D[2 * x], D[2 * x + 1]) == e
      invariant ColumnUpTo(before, st[..], x, y, e)
    {
      ghost var s: seq<Half> := st[..];
      XorLane(st, x + 5 * y, D[2 * x], D[2 * x + 1]);
      ColumnTurn(before, s, st[..], x, y, e);
    }
  }

  /** The lanes of column x in the planes before y have taken effect e. */
  ghost predicate ColumnUpTo(s: seq<Half>, t: seq<Half>, x: nat, y: nat, e: Lane)
    requires |s| == |t| == 50
  {
    forall i :: 0 <= i < 25 ==> LaneAt(t, i) == if i % 5 == x && i / 5 < y then Xor(LaneAt(s, i), e) else LaneAt(s, i)
  }

  lemma ColumnTurn(s: seq<Half>, t: seq<Half>, t': seq<Half>, x: nat, y: nat, e: Lane)
    requires |s| == |t| == |t'| == 50 && x < 5 && y < 5 && ColumnUpTo(s, t, x, y, e)
    requires forall j :: 0 <= j < 25 ==> LaneAt(t', j) == if j == x + 5 * y then Xor(LaneAt(t, j), e) else LaneAt(t, j)
    ensures ColumnUpTo(s, t', x, y + 1, e)
  {
    forall i | 0 <= i < 25
      ensures LaneAt(t', i) == if i % 5 == x && i / 5 < y + 1 then Xor(LaneAt(s, i), e) else LaneAt(s, i)
    {
      assert i == i % 5 + 5 * (i / 5);
    }
  }

  /** Stores the two halves of a lane. */
  method StoreLane(st: array<Half>, i: nat, lo: Half, hi: Half)
    requires st.Length == 50 && i < 25
    modifies st
    ensures forall j :: 0 <= j < 25 ==> LaneAt(st[..], j) == if j == i then Join(lo, hi) else old(LaneAt(st[..], j))
  {
    ghost var before: seq<Half> := st[..];
    LaneWritten(before, i, lo, hi);
    st[2 * i] := lo;
    st[2 * i + 1] := hi;
    assert st[..] == before[2 * i := lo][2 * i + 1 := hi];
  }

  /** Adds a lane, half by half. */
  method XorLane(st: array<Half>, i: nat, lo: Half, hi: Half)
    requires st.Length == 50 && i < 25
    modifies st
    ensures forall j :: 0 <= j < 25 ==>
      LaneAt(st[..], j) == if j == i then Xor(old(LaneAt(st[..], j)), Join(lo, hi)) else old(LaneAt(st[..], j))
  {
    JoinXor(st[2 * i], st[2 * i + 1], lo, hi);
    StoreLane(st, i, Xor(st[2 * i], lo), Xor(st[2 * i + 1], hi));
  }

  /** The columns before x have taken their effect. */
  ghost predicate ThetaUpTo(s: seq<Half>, A: State, x: nat)
    requires |s| == 50
  {
    forall i :: 0 <= i < 25 ==> LaneAt(s, i) == if i % 5 < x then Xor(A[i], ThetaEffect(A, i % 5)) else A[i]
  }

  ghost predicate ColumnTook(s: seq<Half>, t: seq<Half>, x: nat, e: Lane)
    requires |s| == |t| == 50
  {
    forall i :: 0 <= i < 25 ==> LaneAt(t, i) == if i % 5 == x then Xor(LaneAt(s, i), e) else LaneAt(s, i)
  }

  lemma ThetaTurn(s: seq<Half>, t: seq<Half>, A: State, x: nat, e: Lane)
    requires |s| == |t| == 50 && x < 5 && ThetaUpTo(s, A, x) && ColumnTook(s, t, x, e) && e == ThetaEffect(A, x)
    ensures ThetaUpTo(t, A, x + 1)
  {
    forall i | 0 <= i < 25 ensures LaneAt(t, i) == if i % 5 < x + 1 then Xor(A[i], ThetaEffect(A, i % 5)) else A[i] {
      assert LaneAt(t, i) == if i % 5 == x then Xor(LaneAt(s, i), e) else LaneAt(s, i);
    }
  }

  lemma ThetaDone(s: seq<Half>, A: State)
    requires |s| == 50 && ThetaUpTo(s, A, 5)
    ensures Lanes(s) == Theta(A)
  {
  }

  /** The second loop. */
  method ApplyTheta(st: array<Half>, C: array<Half>, D: array<Half>)
    requires st.Length == 50 && C.Length == 10 && D.Length == 10 && st != C && st != D && C != D
    requires forall x :: 0 <= x < 5 ==> Join(C[2 * x], C[2 * x + 1]) == Parity(Lanes(st[..]), x)
    modifies st, D
    ensures Lanes(st[..]) == Theta(old(Lanes(st[..])))
  {
    ghost var A := Lanes(st[..]);
    for x := 0 to 5
      invariant forall k :: 0 <= k < 5 ==> Join(C[2 * k], C[2 * k + 1]) == Parity(A, k)
      invariant ThetaUpTo(st[..], A, x)
    {
      ThetaColumn(st, C, D, x, A);
    }
    ThetaDone(st[..], A);
  }

  method ThetaColumn(st: array<Half>, C: array<Half>, D: array<Half>, x: nat, ghost A: State)
    requires st.Length == 50 && C.Length == 10 && D.Length == 10 && st != C && st != D && C != D && x < 5
    requires forall k :: 0 <= k < 5 ==> Join(C[2 * k], C[2 * k + 1]) == Parity(A, k)
    requires ThetaUpTo(st[..], A, x)
    modifies st, D
    ensures ThetaUpTo(st[..], A, x + 1)
  {
    ColumnEffect(C, D, x, A);
    ghost var s: seq<Half>, e := st[..], ThetaEffect(A, x);
    ApplyColumn(st, D, x, e);
    ThetaTurn(s, st[..], A, x, e);
  }

  // ----- rho and pi -----

  lemma WalkTable(t: nat)
    requires t < 24
    ensures Walk(t + 1) == Pil(t) && Offset(t) == Rotc(t)
  {
    OffsetTable(t);
    WalkSteps(t);
  }

  lemma OffsetTable(t: nat)
    requires t < 24
    ensures Offset(t) == Rotc(t)
  {
    assert t == 0 || t == 1 || t == 2 || t == 3 || t == 4 || t == 5 || t == 6 || t == 7 || t == 8 || t == 9 || t == 10
      || t == 11 || t == 12 || t == 13 || t == 14 || t == 15 || t == 16 || t == 17 || t == 18 || t == 19 || t == 20
      || t == 21 || t == 22 || t == 23;
  }

  lemma {:induction false} WalkSteps(t: nat)
    requires t < 24
    ensures Walk(t + 1) == Pil(t)
  {
    if t > 0 {
      WalkSteps(t - 1);
      NextTable(t);
      WalkStep(t, Pil(t - 1), Pil(t));
    }
  }

  lemma WalkStep(t: nat, here: nat, there: nat)
    requires here < 25 && Walk(t) == here && there == Next(here)
    ensures Walk(t + 1) == there
  {
  }

  lemma NextTable(t: nat)
    requires 1 <= t < 24
    ensures Pil(t) == Next(Pil(t - 1))
  {
  }

  /** The step of the walk that reaches lane i. */
  function StepTo(i: nat): (t: nat)
    requires 1 <= i < 25
    ensures t < 24
  {
    match i
    case 1 => 23  case 2 => 17  case 3 => 5   case 4 => 11  case 5 => 6   case 6 => 22  case 7 => 1   case 8 => 8
    case 9 => 21  case 10 => 0  case 11 => 2  case 12 => 16 case 13 => 15 case 14 => 19 case 15 => 12 case 16 => 7
    case 17 => 3  case 18 => 4  case 19 => 14 case 20 => 18 case 21 => 9  case 22 => 20 case 23 => 13
    case _ => 10
  }

  lemma StepToInverts(t: nat)
    requires t < 24
    ensures Pil(t) != 0 && StepTo(Pil(t)) == t
  {
  }

  lemma PilInverts(i: nat)
    requires 1 <= i < 25
    ensures Pil(StepTo(i)) == i
  {
  }

  /** The walk never stands on lane 0, and each lane tells the step it is reached at. */
  lemma WalkTells(i: nat)
    requires i < 24
    ensures Walk(i) != 0 && StepTo(Walk(i)) == if i == 0 then 23 else i - 1
  {
    if i > 0 {
      WalkSteps(i - 1);
      StepToInverts(i - 1);
    }
  }

  lemma WalkCycle()
    ensures WalkIsCycle()
  {
    forall i | 0 <= i < 24 ensures Walk(i) != 0 && StepTo(Walk(i)) == if i == 0 then 23 else i - 1 {
      WalkTells(i);
    }
  }

  /** The destinations of the walk, in order. */
  function Destinations(): (w: seq<nat>)
    ensures |w| == 24 && forall t :: 0 <= t < 24 ==> w[t] < 25
  {
    seq(24, t requires 0 <= t < 24 => Walk(t + 1))
  }

  lemma DestinationsDistinct(w: seq<nat>)
    requires w == Destinations()
    ensures forall t :: 0 <= t < 24 ==> w[t] != 0
    ensures forall t, i :: 0 <= t < i < 24 ==> w[t] != w[i]
  {
    forall t | 0 <= t < 24 ensures w[t] != 0 && (w[t] < 25 ==> StepTo(w[t]) == t) {
      WalkSteps(t);
      StepToInverts(t);
    }
  }

  /** The first i destinations in w hold their lanes from v; lane 0 holds origin. */
  ghost predicate FilledUpTo(b: seq<Half>, w: seq<nat>, v: seq<Lane>, origin: Lane, i: nat)
    requires |b| == 50 && |w| == |v| == 24 && i <= 24 && forall t :: 0 <= t < 24 ==> w[t] < 25
  {
    LaneAt(b, 0) == origin && forall t :: 0 <= t < i ==> LaneAt(b, w[t]) == v[t]
  }

  lemma FilledNext(b: seq<Half>, b': seq<Half>, w: seq<nat>, v: seq<Lane>, origin: Lane, i: nat)
    requires |b| == |b'| == 50 && |w| == |v| == 24 && i < 24 && forall t :: 0 <= t < 24 ==> 0 < w[t] < 25
    requires forall t, i :: 0 <= t < i < 24 ==> w[t] != w[i]
    requires FilledUpTo(b, w, v, origin, i)
    requires forall j :: 0 <= j < 25 ==> LaneAt(b', j) == if j == w[i] then v[i] else LaneAt(b, j)
    ensures FilledUpTo(b', w, v, origin, i + 1)
  {
  }

  /** The chained walk: every lane is rotated and stored at its destination, which is the next source. */
  method RhoAndPi(st: array<Half>, B: array<Half>)
    requires st.Length == 50 && B.Length == 50 && st != B
    modifies B
    ensures Lanes(B[..]) == Pi(Rho(Lanes(st[..])))
  {
    ghost var A := Lanes(st[..]);
    ghost var w, v := Destinations(), Rotations(A);
    B[0], B[1] := st[0], st[1];
    var src := 1;
    for i := 0 to 24
      invariant src == Walk(i) && FilledUpTo(B[..], w, v, A[0], i)
    {
      WalkTurn(A, w, v, i);
      var dst, n := Pil(i), Rotc(i);
      StoreTurn(st, src, B, dst, n, w, v, A[0], i);
      src := dst;
    }
    WalkDone(A, B[..], Rho(A), Pi(Rho(A)));
  }

  /** One turn of the walk. */
  method StoreTurn(st: array<Half>, src: nat, B: array<Half>, dst: nat, n: nat, ghost w: seq<nat>, ghost v: seq<Lane>,
                   ghost origin: Lane, ghost i: nat)
    requires st.Length == 50 && B.Length == 50 && st != B && src < 25 && n < 64 && i < |w| == |v| == 24
    requires (forall t :: 0 <= t < 24 ==> 0 < w[t] < 25) && (forall t, i :: 0 <= t < i < 24 ==> w[t] != w[i])
    requires w[i] == dst && v[i] == RotateLeft(LaneAt(st[..], src), n) && FilledUpTo(B[..], w, v, origin, i)
    modifies B
    ensures FilledUpTo(B[..], w, v, origin, i + 1)
  {
    ghost var before: seq<Half> := B[..];
    RotateInto(st, src, B, dst, n);
    FilledNext(before, B[..], w, v, origin, i);
  }

  lemma WalkTurn(A: State, w: seq<nat>, v: seq<Lane>, i: nat)
    requires i < 24 && w == Destinations() && v == Rotations(A)
    ensures w[i] == Pil(i) == Walk(i + 1) && Rotc(i) < 64 && v[i] == RotateLeft(A[Walk(i)], Rotc(i))
    ensures forall t :: 0 <= t < 24 ==> 0 < w[t] < 25
    ensures forall t, i :: 0 <= t < i < 24 ==> w[t] != w[i]
  {
    WalkTable(i);
    DestinationsDistinct(w);
  }

  method RotateInto(st: array<Half>, src: nat, B: array<Half>, dst: nat, n: nat)
    requires st.Length == 50 && B.Length == 50 && st != B && src < 25 && dst < 25 && n < 64
    modifies B
    ensures forall j :: 0 <= j < 25 ==>
      LaneAt(B[..], j) == if j == dst then RotateLeft(LaneAt(st[..], src), n) else old(LaneAt(B[..], j))
  {
    var (rh, rl) := Rot32(st[2 * src + 1], st[2 * src], n);
    Rot32IsRotation(st[2 * src + 1], st[2 * src], n);
    StoreLane(B, dst, rl, rh);
  }

  lemma WalkDoneAt(A: State, R: State, lane: Lane, i: nat)
    requires 1 <= i < 25 && R == Rho(A)
    requires lane == RotateLeft(A[Walk(StepTo(i))], Offset(StepTo(i)))
    ensures lane == Pi(R)[i]
  {
    var t := StepTo(i);
    PilInverts(i);
    WalkSteps(t);
    WalkCycle();
    RhoPi(A, R, t);
  }

  lemma FilledAt(A: State, b: seq<Half>, w: seq<nat>, v: seq<Lane>, R: State, i: nat, t: nat)
    requires |b| == 50 && w == Destinations() && v == Rotations(A) && R == Rho(A) && 1 <= i < 25 && t == StepTo(i)
    requires LaneAt(b, w[t]) == v[t]
    ensures LaneAt(b, i) == Pi(R)[i]
  {
    assert w[t] == i by { PilInverts(i); WalkSteps(t); }
    WalkDoneAt(A, R, v[t], i);
  }

  lemma WalkDone(A: State, b: seq<Half>, R: State, P: State)
    requires |b| == 50 && FilledUpTo(b, Destinations(), Rotations(A), A[0], 24)
    requires R == Rho(A) && P == Pi(R)
    ensures Lanes(b) == P
  {
    OriginStays(A, R, P);
    forall i | 1 <= i < 25 ensures LaneAt(b, i) == P[i] {
      FilledAt(A, b, Destinations(), Rotations(A), R, i, StepTo(i));
    }
    SameLanes(b, P);
  }

  lemma SameLanes(b: seq<Half>, P: State)
    requires |b| == 50 && LaneAt(b, 0) == P[0] && forall i :: 1 <= i < 25 ==> LaneAt(b, i) == P[i]
    ensures Lanes(b) == P
  {
  }

  lemma OriginStays(A: State, R: State, P: State)
    requires R == Rho(A) && P == Pi(R)
    ensures P[0] == A[0]
  {
    WalkCycle();
    RhoPi(A, R, 0);
  }

  // ----- chi -----

  method ChiLoop(st: array<Half>, B: array<Half>)
    requires st.Length == 50 && B.Length == 50 && st != B
    modifies st
    ensures Lanes(st[..]) == Chi(Lanes(B[..]))
  {
    ghost var A := Lanes(B[..]);
    for y := 0 to 5
      invariant ChiUpTo(st[..], A, 5 * y)
    {
      for x := 0 to 5
        invariant ChiUpTo(st[..], A, 5 * y + x)
      {
        ChiAt(st, B, x, y, A);
      }
    }
    ChiDone(st[..], A);
  }

  /** The lanes before n have their new values. */
  ghost predicate ChiUpTo(s: seq<Half>, A: State, n: nat)
    requires |s| == 50
  {
    forall i :: 0 <= i < 25 && i < n ==> LaneAt(s, i) == ChiLane(A, i)
  }

  lemma ChiDone(s: seq<Half>, A: State)
    requires |s| == 50 && ChiUpTo(s, A, 25)
    ensures Lanes(s) == Chi(A)
  {
  }

  method ChiAt(st: array<Half>, B: array<Half>, x: nat, y: nat, ghost A: State)
    requires st.Length == 50 && B.Length == 50 && st != B && x < 5 && y < 5 && A == Lanes(B[..])
    requires ChiUpTo(st[..], A, 5 * y + x)
    modifies st
    ensures ChiUpTo(st[..], A, 5 * y + x + 1)
  {
    var i, j, k := x + 5 * y, (x + 1) % 5 + 5 * y, (x + 2) % 5 + 5 * y;
    var lo := Xor(B[2 * i], And(Not(B[2 * j]), B[2 * k]));
    var hi := Xor(B[2 * i + 1], And(Not(B[2 * j + 1]), B[2 * k + 1]));
    ChiHalves(B[..], x, y, i, j, k);
    StoreLane(st, i, lo, hi);
  }

  lemma ChiNeighbours(x: nat, y: nat, i: nat)
    requires x < 5 && y < 5 && i == x + 5 * y
    ensures (i + 1) % 5 + i / 5 * 5 == (x + 1) % 5 + 5 * y && (i + 2) % 5 + i / 5 * 5 == (x + 2) % 5 + 5 * y
  {
    assert i / 5 == y && i % 5 == x;
    assert y == 0 || y == 1 || y == 2 || y == 3 || y == 4;
  }

  lemma ChiHalves(b: seq<Half>, x: nat, y: nat, i: nat, j: nat, k: nat)
    requires |b| == 50 && x < 5 && y < 5 && i == x + 5 * y && j == (x + 1) % 5 + 5 * y && k == (x + 2) % 5 + 5 * y
    ensures
      Join(Xor(b[2 * i], And(Not(b[2 * j]), b[2 * k])), Xor(b[2 * i + 1], And(Not(b[2 * j + 1]), b[2 * k + 1])))
      == ChiLane(Lanes(b), i)
  {
    ChiNeighbours(x, y, i);
    JoinAndNot(b[2 * j], b[2 * j + 1], b[2 * k], b[2 * k + 1]);
    JoinXor(b[2 * i], b[2 * i + 1], And(Not(b[2 * j]), b[2 * k]), And(Not(b[2 * j + 1]), b[2 * k + 1]));
  }

  // ----- iota -----

  /** RC of the program: the low and the high half of each round constant. */
  const RC: seq<(nat, nat)> := [
    (0x00000001, 0x00000000), (0x00008082, 0x00000000), (0x0000808a, 0x80000000), (0x80008000, 0x80000000),
    (0x0000808b, 0x00000000), (0x80000001, 0x00000000), (0x80008081, 0x80000000), (0x00008009, 0x80000000),
    (0x0000008a, 0x00000000), (0x00000088, 0x00000000), (0x80008009, 0x00000000), (0x8000000a, 0x00000000),
    (0x8000808b, 0x00000000), (0x0000008b, 0x80000000), (0x00008089, 0x80000000), (0x00008003, 0x80000000),
    (0x00008002, 0x80000000), (0x00000080, 0x80000000), (0x0000800a, 0x00000000), (0x8000000a, 0x80000000),
    (0x80008081, 0x80000000), (0x00008080, 0x80000000), (0x80000001, 0x00000000), (0x80008008, 0x80000000)]

  /** The register of Algorithm 5 at the start of each round. */
  const SEEDS: seq<Register> := [
    0x01, 0x80, 0xd8, 0x1a, 0xdf, 0x09, 0x35, 0x4f, 0xca, 0x70, 0x41, 0xec,
    0xd5, 0xcd, 0x63, 0xab, 0xaa, 0x2a, 0xf2, 0xe8, 0x37, 0x3e, 0x0b, 0x44]

  function SevenSteps(R: Register): Register {
    Step(Step(Step(Step(Step(Step(Step(R)))))))
  }

  lemma SeedNext(round: nat)
    requires 1 <= round < 24
    ensures SevenSteps(SEEDS[round - 1]) == SEEDS[round]
  {
  }

  lemma StepsAre(R: Register)
    ensures Steps(R, 0) == R && Steps(R, 1) == Step(R) && Steps(R, 2) == Step(Step(R)) && Steps(R, 3) == Step(Step(Step(R)))
    ensures Steps(R, 4) == Step(Step(Step(Step(R)))) && Steps(R, 5) == Step(Step(Step(Step(Step(R)))))
    ensures Steps(R, 6) == Step(Step(Step(Step(Step(Step(R))))))
  {
    StepsAdd(R, 3, 1);
    StepsAdd(R, 3, 2);
    StepsAdd(R, 3, 3);
  }

  lemma SevenMore(start: Register, t: nat, R: Register, next: Register)
    requires t >= 7 && R == Steps(start, t - 7) && next == SevenSteps(R)
    ensures Steps(start, t) == next
  {
    StepsAdd(start, t - 7, 7);
    StepsAre(R);
    StepsAdd(R, 6, 1);
  }

  /** The seeds are the register after 7 steps a round. */
  lemma {:induction false} SeedIs(start: Register, round: nat, t: nat)
    requires start == START && round < 24 && t == 7 * round
    ensures Steps(start, t) == SEEDS[round]
  {
    if round > 0 {
      SeedIs(start, round - 1, t - 7);
      SeedNext(round);
      SevenMore(start, t, SEEDS[round - 1], SEEDS[round]);
    }
  }

  function Weight(b: bool, weight: nat): nat {
    if b then weight else 0
  }

  /** The halves of a round constant as numbers, from the register at the start of the round. */
  function LowWord(R: Register): nat {
    Weight(LowBit(R), 1) + Weight(LowBit(Step(R)), 2) + Weight(LowBit(Step(Step(R))), 8)
    + Weight(LowBit(Step(Step(Step(R)))), 128) + Weight(LowBit(Step(Step(Step(Step(R))))), 32768)
    + Weight(LowBit(Step(Step(Step(Step(Step(R)))))), 0x80000000)
  }

  function HighWord(R: Register): nat {
    Weight(LowBit(Step(Step(Step(Step(Step(Step(R))))))), 0x80000000)
  }

  lemma RCEarly(round: nat)
    requires round < 8
    ensures RC[round] == (LowWord(SEEDS[round]), HighWord(SEEDS[round]))
  {
  }

  lemma RCMiddle(round: nat)
    requires 8 <= round < 16
    ensures RC[round] == (LowWord(SEEDS[round]), HighWord(SEEDS[round]))
  {
  }

  lemma RCLate(round: nat)
    requires 16 <= round < 24
    ensures RC[round] == (LowWord(SEEDS[round]), HighWord(SEEDS[round]))
  {
  }

  lemma RCNumbers(round: nat)
    requires round < 24
    ensures RC[round] == (LowWord(SEEDS[round]), HighWord(SEEDS[round]))
  {
    if round < 8 { RCEarly(round); } else if round < 16 { RCMiddle(round); } else { RCLate(round); }
  }

  // ----- The bits of such numbers -----

  /** b + 2^k * rest has bit b, k - 1 zeros, and then the bits of the rest. */
  lemma SpreadBit(b: bool, rest: nat, n: nat, k: nat, p: nat, width: nat)
    requires 1 <= k <= width && p == PowerOfTwo(k) && n == Weight(b, 1) + rest * p
    ensures FromNat(n, width) == [b] + (Zeros(k - 1) + FromNat(rest, width - k))
  {
    var half := rest * PowerOfTwo(k - 1);
    Doubled(rest, PowerOfTwo(k - 1));
    FromNatStep(b, half, n, width);
    FromNatScaled(rest, k - 1, width - 1);
  }

  lemma Powers()
    ensures PowerOfTwo(4) == 16 && PowerOfTwo(8) == 256 && PowerOfTwo(16) == 65536
  {
    assert PowerOfTwo(12) == 4096;
  }

  /** Bits 7, 15 and 31, seen from bit 7 on. */
  lemma UpperBits(a7: bool, a15: bool, a31: bool, n: nat, width: nat)
    requires width == 25 && n == Weight(a7, 1) + Weight(a15, 256) + Weight(a31, 0x1000000)
    ensures FromNat(n, width) == [a7] + (Zeros(7) + ([a15] + (Zeros(15) + [a31])))
  {
    var m15 := Weight(a15, 1) + Weight(a31, 65536);
    assert n == Weight(a7, 1) + m15 * 256;
    EighthBit(a7, m15, n, width);
    TopBits(a15, a31, m15, width - 8);
  }

  lemma EighthBit(a7: bool, rest: nat, n: nat, width: nat)
    requires width == 25 && n == Weight(a7, 1) + rest * 256
    ensures FromNat(n, width) == [a7] + (Zeros(7) + FromNat(rest, width - 8))
  {
    Powers();
    SpreadBit(a7, rest, n, 8, 256, width);
  }

  lemma TopBits(a15: bool, a31: bool, m15: nat, width: nat)
    requires width == 17 && m15 == Weight(a15, 1) + Weight(a31, 65536)
    ensures FromNat(m15, width) == [a15] + (Zeros(15) + [a31])
  {
    var rest := Weight(a31, 1);
    Powers();
    SpreadBit(a15, rest, m15, 16, 65536, width);
    LastBit(a31, rest, width - 16);
  }

  /** Bits 0, 1 and 3, before the bits of the rest. */
  lemma LowerBits(a0: bool, a1: bool, a3: bool, rest: nat, n: nat, width: nat)
    requires width == 32 && n == Weight(a0, 1) + Weight(a1, 2) + Weight(a3, 8) + 128 * rest
    ensures FromNat(n, width) == [a0] + ([a1] + ([false] + ([a3] + (Zeros(3) + FromNat(rest, width - 7)))))
  {
    var m3 := Weight(a3, 1) + rest * 16;
    var m2 := 2 * m3;
    var m1 := Weight(a1, 1) + 2 * m2;
    FourthBit(a3, rest, m3, width - 3);
    FromNatStep(false, m3, m2, width - 2);
    FromNatStep(a1, m2, m1, width - 1);
    FromNatStep(a0, m1, n, width);
  }

  lemma FourthBit(a3: bool, rest: nat, m3: nat, width: nat)
    requires width == 29 && m3 == Weight(a3, 1) + rest * 16
    ensures FromNat(m3, width) == [a3] + (Zeros(3) + FromNat(rest, width - 4))
  {
    Powers();
    SpreadBit(a3, rest, m3, 4, 16, width);
  }

  lemma Power31(k: nat)
    requires k == 31
    ensures PowerOfTwo(k) == 0x80000000
  {
    Powers();
    PowerAdd(16, k - 16);
    PowerAdd(8, k - 24);
    assert PowerOfTwo(7) == 128;
  }

  lemma HighBits(a63: bool, n: nat, width: nat)
    requires width == 32 && n == Weight(a63, 0x80000000)
    ensures FromNat(n, width) == Zeros(31) + [a63]
  {
    var bit := Weight(a63, 1);
    Power31(width - 1);
    assert bit * PowerOfTwo(width - 1) == n;
    FromNatScaled(bit, width - 1, width);
    LastBit(a63, bit, width - 31);
  }

  lemma LastBit(a: bool, n: nat, width: nat)
    requires width == 1 && n == Weight(a, 1)
    ensures FromNat(n, width) == [a]
  {
  }

  lemma LowWordBits(a0: bool, a1: bool, a3: bool, a7: bool, a15: bool, a31: bool, n: nat, width: nat)
    requires width == 32
    requires n == Weight(a0, 1) + Weight(a1, 2) + Weight(a3, 8) + Weight(a7, 128) + Weight(a15, 32768) + Weight(a31, 0x80000000)
    ensures FromNat(n, width) ==
      [a0] + ([a1] + ([false] + ([a3] + (Zeros(3) + ([a7] + (Zeros(7) + ([a15] + (Zeros(15) + [a31]))))))))
  {
    var rest := Weight(a7, 1) + Weight(a15, 256) + Weight(a31, 0x1000000);
    UpperBits(a7, a15, a31, rest, width - 7);
    LowerBits(a0, a1, a3, rest, n, width);
  }

  lemma LowHalfIs(a0: bool, a1: bool, a3: bool, a7: bool, a15: bool, a31: bool, a63: bool, low: Bits)
    requires low == [a0] + ([a1] + ([false] + ([a3] + (Zeros(3) + ([a7] + (Zeros(7) + ([a15] + (Zeros(15) + [a31]))))))))
    ensures |low| == 32 && low == SevenBits(a0, a1, a3, a7, a15, a31, a63)[..32]
  {
  }

  lemma HighHalfIs(a0: bool, a1: bool, a3: bool, a7: bool, a15: bool, a31: bool, a63: bool, high: Bits)
    requires high == Zeros(31) + [a63]
    ensures high == SevenBits(a0, a1, a3, a7, a15, a31, a63)[32..]
  {
  }

  lemma SevenBitsAre(a0: bool, a1: bool, a3: bool, a7: bool, a15: bool, a31: bool, a63: bool)
    ensures [a0] + ([a1] + ([false] + ([a3] + (Zeros(3) + ([a7] + (Zeros(7) + ([a15] + (Zeros(15) + [a31]))))))))
            + (Zeros(31) + [a63])
         == SevenBits(a0, a1, a3, a7, a15, a31, a63)
  {
    var low := [a0] + ([a1] + ([false] + ([a3] + (Zeros(3) + ([a7] + (Zeros(7) + ([a15] + (Zeros(15) + [a31]))))))));
    var lane := SevenBits(a0, a1, a3, a7, a15, a31, a63);
    LowHalfIs(a0, a1, a3, a7, a15, a31, a63, low);
    HighHalfIs(a0, a1, a3, a7, a15, a31, a63, Zeros(31) + [a63]);
    Halved(lane, 32);
  }

  lemma Halved(lane: Bits, k: nat)
    requires k <= |lane|
    ensures lane[..k] + lane[k..] == lane
  {
  }

  lemma RoundBits(round: nat, R: Register)
    requires round < 24 && R == Steps(START, 7 * round)
    ensures rc(7 * round) == LowBit(R) && rc(1 + 7 * round) == LowBit(Step(R)) && rc(2 + 7 * round) == LowBit(Step(Step(R)))
    ensures rc(3 + 7 * round) == LowBit(Step(Step(Step(R)))) && rc(4 + 7 * round) == LowBit(Step(Step(Step(Step(R)))))
    ensures rc(5 + 7 * round) == LowBit(Step(Step(Step(Step(Step(R))))))
    ensures rc(6 + 7 * round) == LowBit(Step(Step(Step(Step(Step(Step(R)))))))
  {
    StepsAre(R);
    forall j | 0 <= j < 7 ensures rc(j + 7 * round) == LowBit(Steps(R, j)) { StepsAdd(START, 7 * round, j); }
  }

  /** The program's round constants are those of Algorithm 5. */
  lemma RCIsRoundConstant(round: nat, lo: nat, hi: nat)
    requires round < 24 && (lo, hi) == RC[round]
    ensures lo < 0x1_0000_0000 && hi < 0x1_0000_0000
    ensures Join(FromNat(lo, 32), FromNat(hi, 32)) == RoundConstant(round)
  {
    var R := SEEDS[round];
    SeedIs(START, round, 7 * round);
    RCNumbers(round);
    FromRegister(round, R, lo, hi, 32);
  }

  lemma FromRegister(round: nat, R: Register, lo: nat, hi: nat, width: nat)
    requires round < 24 && R == Steps(START, 7 * round) && lo == LowWord(R) && hi == HighWord(R) && width == 32
    ensures Join(FromNat(lo, width), FromNat(hi, width)) == RoundConstant(round)
  {
    RoundBits(round, R);
    FromBits(rc(7 * round), rc(1 + 7 * round), rc(2 + 7 * round), rc(3 + 7 * round), rc(4 + 7 * round),
             rc(5 + 7 * round), rc(6 + 7 * round), lo, hi, width);
  }

  lemma FromBits(a0: bool, a1: bool, a3: bool, a7: bool, a15: bool, a31: bool, a63: bool, lo: nat, hi: nat, width: nat)
    requires width == 32 && hi == Weight(a63, 0x80000000)
    requires lo == Weight(a0, 1) + Weight(a1, 2) + Weight(a3, 8) + Weight(a7, 128) + Weight(a15, 32768) + Weight(a31, 0x80000000)
    ensures FromNat(lo, width) + FromNat(hi, width) == SevenBits(a0, a1, a3, a7, a15, a31, a63)
  {
    LowWordBits(a0, a1, a3, a7, a15, a31, lo, width);
    HighBits(a63, hi, width);
    SevenBitsAre(a0, a1, a3, a7, a15, a31, a63);
  }

  // ----- The permutation -----

  /** One turn of the round loop. */
  method RoundInPlace(st: array<Half>, C: array<Half>, D: array<Half>, B: array<Half>, r: nat)
    requires st.Length == B.Length == 50 && C.Length == D.Length == 10 && r < 24
    requires st != C && st != D && st != B && C != D && C != B && D != B
    modifies st, C, D, B
    ensures Lanes(st[..]) == Round(old(Lanes(st[..])), r)
  {
    Parities(st, C);
    ApplyTheta(st, C, D);
    RhoAndPi(st, B);
    ChiLoop(st, B);
    AddConstant(st, r);
  }

  method AddConstant(st: array<Half>, r: nat)
    requires st.Length == 50 && r < 24
    modifies st
    ensures Lanes(st[..]) == Iota(old(Lanes(st[..])), r)
  {
    RCIsRoundConstant(r, RC[r].0, RC[r].1);
    XorLane(st, 0, FromNat(RC[r].0, 32), FromNat(RC[r].1, 32));
    IotaIs(old(Lanes(st[..])), Lanes(st[..]), r);
  }

  lemma IotaIs(A: State, B: State, r: nat)
    requires B[0] == Xor(A[0], RoundConstant(r)) && forall i :: 1 <= i < 25 ==> B[i] == A[i]
    ensures B == Iota(A, r)
  {
  }

  lemma RoundsNext(A: State, r: nat, S: State, next: State)
    requires S == Rounds(A, r) && next == Round(S, r)
    ensures next == Rounds(A, r + 1)
  {
  }

  /** keccakF: 24 rounds in place. */
  method PermuteInPlace(st: array<Half>)
    requires st.Length == 50
    modifies st
    ensures Lanes(st[..]) == Permute(old(Lanes(st[..])))
  {
    var zero: Half := Zeros(32);
    var C, D, B := new Half[10](_ => zero), new Half[10](_ => zero), new Half[50](_ => zero);
    RoundLoop(st, C, D, B, 24);
  }

  method RoundLoop(st: array<Half>, C: array<Half>, D: array<Half>, B: array<Half>, rounds: nat)
    requires st.Length == B.Length == 50 && C.Length == D.Length == 10 && rounds <= 24
    requires st != C && st != D && st != B && C != D && C != B && D != B
    modifies st, C, D, B
    ensures Lanes(st[..]) == Rounds(old(Lanes(st[..])), rounds)
  {
    ghost var A := Lanes(st[..]);
    for r := 0 to rounds
      invariant Lanes(st[..]) == Rounds(A, r)
    {
      NextRound(st, C, D, B, r, A);
    }
  }

  method NextRound(st: array<Half>, C: array<Half>, D: array<Half>, B: array<Half>, r: nat, ghost A: State)
    requires st.Length == B.Length == 50 && C.Length == D.Length == 10 && r < 24
    requires st != C && st != D && st != B && C != D && C != B && D != B
    requires Lanes(st[..]) == Rounds(A, r)
    modifies st, C, D, B
    ensures Lanes(st[..]) == Rounds(A, r + 1)
  {
    ghost var S := Lanes(st[..]);
    RoundInPlace(st, C, D, B, r);
    RoundsNext(A, r, S, Lanes(st[..]));
  }
}
