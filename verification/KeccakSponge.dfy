/**
 * keccak256 of examples/web/app.js against the sponge of FIPS 202 (sections 4 and 5.1) with rate 1088, capacity 512
 * and no suffix bits: the original Keccak-256.
 */
module KeccakSponge {
  import opened Words
  import opened KeccakF
  import opened KeccakHalves

  const RATE := 136
  const RATE_BITS := 1088
  const WIDTH := 1600

  // ----- The sponge -----

  /** The state as a string: bit z of lane i is bit 64 i + z (section 3.1.2). */
  function StateOf(S: Bits): State
    requires |S| == WIDTH
  {
    seq(25, i requires 0 <= i < 25 => S[64 * i..64 * i + 64])
  }

  function StringOf(A: State): (S: Bits)
    ensures |S| == WIDTH && forall k :: 0 <= k < WIDTH ==> S[k] == A[k / 64][k % 64]
  {
    seq(WIDTH, k requires 0 <= k < WIDTH => A[k / 64][k % 64])
  }

  /** A permutation of the state string. */
  type Permutation = f: Bits -> Bits | forall S :: |S| == WIDTH ==> |f(S)| == WIDTH witness S => S

  function KeccakPermutation(): Permutation {
    (S: Bits) => if |S| == WIDTH then StringOf(Permute(StateOf(S))) else S
  }

  /** A block followed by the capacity's zeros. */
  function Wide(block: Bits): (S: Bits)
    requires |block| == RATE_BITS
    ensures |S| == WIDTH
  {
    block + Zeros(WIDTH - RATE_BITS)
  }

  function Block(P: Bits, i: nat): (block: Bits)
    requires RATE_BITS * (i + 1) <= |P|
    ensures |block| == RATE_BITS
  {
    P[RATE_BITS * i..RATE_BITS * i + RATE_BITS]
  }

  /** The state after the first n blocks of P (Algorithm 8, step 6), for any permutation. */
  function Absorb(f: Permutation, P: Bits, n: nat): (S: Bits)
    requires RATE_BITS * n <= |P|
    ensures |S| == WIDTH
  {
    if n == 0 then Zeros(WIDTH) else f(Xor(Absorb(f, P, n - 1), Wide(Block(P, n - 1))))
  }

  /** The first n blocks determine the state. */
  lemma {:induction false} AbsorbPrefix(f: Permutation, P: Bits, Q: Bits, n: nat)
    requires RATE_BITS * n <= |P| && RATE_BITS * n <= |Q|
    requires forall k :: 0 <= k < RATE_BITS * n ==> P[k] == Q[k]
    ensures Absorb(f, P, n) == Absorb(f, Q, n)
  {
    if n > 0 {
      AbsorbPrefix(f, P, Q, n - 1);
      assert Block(P, n - 1) == Block(Q, n - 1);
    }
  }

  /** The zeros of pad10*1(1088, m): (-m - 2) mod 1088 (section 5.1). */
  function PadZeros(m: int): (j: nat)
    ensures (m + j + 2) % RATE_BITS == 0 && j < RATE_BITS
  {
    (-m - 2) % RATE_BITS
  }

  function Padded(M: Bits, zeros: nat): (P: Bits)
    ensures |P| == |M| + zeros + 2
  {
    M + [true] + Zeros(zeros) + [true]
  }

  /** The first 256 bits after absorbing the padded message; they fit in one squeeze. */
  function Sponge(f: Permutation, M: Bits): (digest: Bits)
    ensures |digest| == 256
  {
    var P := Padded(M, PadZeros(|M|));
    Absorb(f, P, |P| / RATE_BITS)[..256]
  }

  // ----- Bytes, lowest bit first (section B.1) -----

  type Byte = b: Bits | |b| == 8 witness Zeros(8)

  function BitsOf(bytes: seq<Byte>): (M: Bits)
    ensures |M| == 8 * |bytes|
    ensures forall k :: 0 <= k < 8 * |bytes| ==> M[k] == bytes[k / 8][k % 8]
  {
    seq(8 * |bytes|, k requires 0 <= k < 8 * |bytes| => bytes[k / 8][k % 8])
  }

  /** The 50 words as one string. */
  function Flat(words: seq<Half>): (S: Bits)
    requires |words| == 50
    ensures |S| == WIDTH && forall k :: 0 <= k < WIDTH ==> S[k] == words[k / 32][k % 32]
  {
    seq(WIDTH, k requires 0 <= k < WIDTH => words[k / 32][k % 32])
  }

  lemma LaneSlice(words: seq<Half>, i: nat)
    requires |words| == 50 && i < 25
    ensures Flat(words)[64 * i..64 * i + 64] == LaneAt(words, i)
  {
  }

  lemma FlatIsString(words: seq<Half>)
    requires |words| == 50
    ensures Flat(words) == StringOf(Lanes(words))
  {
    forall k | 0 <= k < WIDTH ensures Flat(words)[k] == LaneAt(words, k / 64)[k % 64] {
      LaneSlice(words, k / 64);
      assert Flat(words)[64 * (k / 64)..64 * (k / 64) + 64][k % 64] == Flat(words)[k];
    }
  }

  // ----- The program -----

  /** f is the permutation on strings; opened only where a Permute appears. */
  ghost predicate Implements(f: Permutation) {
    forall A: State {:trigger Permute(A)} :: f(StringOf(A)) == StringOf(Permute(A))
  }

  lemma StateOfString(A: State)
    ensures StateOf(StringOf(A)) == A
  {
    forall i | 0 <= i < 25 ensures StringOf(A)[64 * i..64 * i + 64] == A[i] {
      forall z | 0 <= z < 64 ensures StringOf(A)[64 * i + z] == A[i][z] {
        assert (64 * i + z) / 64 == i && (64 * i + z) % 64 == z;
      }
    }
  }

  lemma PermutedString(f: Permutation, A: State)
    requires f == KeccakPermutation()
    ensures f(StringOf(A)) == StringOf(Permute(A))
  {
    StateOfString(A);
  }

  lemma PermutationImplements(f: Permutation)
    requires f == KeccakPermutation()
    ensures Implements(f)
  {
    forall A: State {
      PermutedString(f, A);
    }
  }

  method PermuteString(st: array<Half>, ghost f: Permutation)
    requires st.Length == 50 && Implements(f)
    modifies st
    ensures Flat(st[..]) == f(old(Flat(st[..])))
  {
    FlatIsString(st[..]);
    PermuteInPlace(st);
    FlatIsString(st[..]);
  }

  /** A byte moved s bits up inside a 32-bit word: pending[i] << s. */
  function Shifted(b: Byte, s: nat): Half {
    ShiftLeft(b + Zeros(24), s)
  }

  /** Adding byte i to the state touches exactly bits 8i to 8i + 7. */
  lemma ByteAdded(words: seq<Half>, words': seq<Half>, b: Byte, i: nat)
    requires |words| == |words'| == 50 && i < RATE
    requires words' == words[i / 4 := Xor(words[i / 4], Shifted(b, i % 4 * 8))]
    ensures forall k :: 0 <= k < WIDTH ==>
      Flat(words')[k] == if k / 8 == i then Flat(words)[k] != b[k % 8] else Flat(words)[k]
  {
    forall k | 0 <= k < WIDTH ensures Flat(words')[k] == if k / 8 == i then Flat(words)[k] != b[k % 8] else Flat(words)[k] {
      if k / 32 == i / 4 {
        assert words'[k / 32][k % 32] == (words[k / 32][k % 32] != Shifted(b, i % 4 * 8)[k % 32]);
      }
    }
  }

  /** Lines 74-78 and 87-91: the pending block is added byte by byte, the low half before the high half of each lane. */
  method AddPending(st: array<Half>, pending: array<Byte>)
    requires st.Length == 50 && pending.Length == RATE
    modifies st
    ensures Flat(st[..]) == Xor(old(Flat(st[..])), Wide(BitsOf(pending[..])))
  {
    ghost var before := Flat(st[..]);
    for i := 0 to RATE
      invariant forall k :: 0 <= k < WIDTH ==>
        Flat(st[..])[k] == if k / 8 < i then before[k] != pending[k / 8][k % 8] else before[k]
    {
      ghost var words: seq<Half> := st[..];
      var lane, off := i / 8, i % 8;
      if off < 4 {
        st[2 * lane] := Xor(st[2 * lane], Shifted(pending[i], off * 8));
      } else {
        st[2 * lane + 1] := Xor(st[2 * lane + 1], Shifted(pending[i], (off - 4) * 8));
      }
      WordOfByte(i);
      ByteAdded(words, st[..], pending[i], i);
    }
  }

  lemma WordOfByte(i: nat)
    ensures i % 8 < 4 ==> i / 4 == 2 * (i / 8) && i % 4 == i % 8
    ensures i % 8 >= 4 ==> i / 4 == 2 * (i / 8) + 1 && i % 4 == i % 8 - 4
  {
  }

  /** The last n bytes, and zeros after them. */
  ghost predicate HoldsTail(pending: seq<Byte>, n: nat, bytes: seq<Byte>) {
    |pending| == RATE && n <= |bytes| &&
    forall i :: 0 <= i < RATE ==> pending[i] == if i < n then bytes[|bytes| - n + i] else Zeros(8)
  }

  /** Full blocks of the bytes are absorbed into S; the bytes after them are pending, followed by zeros. */
  ghost predicate HasTaken(f: Permutation, S: Bits, pending: seq<Byte>, ptr: nat, bytes: seq<Byte>) {
    ptr == |bytes| % RATE && S == Absorb(f, BitsOf(bytes), |bytes| / RATE) && HoldsTail(pending, ptr, bytes)
  }

  /** The same for bytes ending in a full block that is still pending. */
  ghost predicate HasFilled(f: Permutation, S: Bits, pending: seq<Byte>, bytes: seq<Byte>) {
    && |bytes| >= RATE && |bytes| % RATE == 0
    && S == Absorb(f, BitsOf(bytes), |bytes| / RATE - 1) && HoldsTail(pending, RATE, bytes)
  }

  /** The variables st, pending and ptr that the closures share. */
  class Absorber {
    const st: array<Half>
    const pending: array<Byte>
    var ptr: nat

    constructor ()
      ensures fresh(st) && fresh(pending) && Shape() && ptr == 0
      ensures Flat(st[..]) == Zeros(WIDTH) && pending[..] == seq(RATE, _ => Zeros(8))
    {
      var zero: Half, none: Byte := Zeros(32), Zeros(8);
      st := new Half[50](_ => zero);
      pending := new Byte[RATE](_ => none);
      ptr := 0;
      new;
      assert Flat(st[..]) == Zeros(WIDTH);
    }

    predicate Shape()
      reads this
    {
      st.Length == 50 && pending.Length == RATE && ptr < RATE
    }

    /** These bytes have been absorbed. */
    ghost predicate Holds(f: Permutation, bytes: seq<Byte>)
      reads this, st, pending
    {
      Shape() && HasTaken(f, Flat(st[..]), pending[..], ptr, bytes)
    }

    /** These bytes have, but for a last full block that is still pending. */
    ghost predicate BlockFull(f: Permutation, bytes: seq<Byte>)
      reads this, st, pending
    {
      st.Length == 50 && pending.Length == RATE && ptr == RATE && HasFilled(f, Flat(st[..]), pending[..], bytes)
    }

    /** absorbByte */
    method AbsorbByte(b: Byte, ghost f: Permutation, ghost bytes: seq<Byte>)
      requires Holds(f, bytes) && Implements(f)
      modifies this, st, pending
      ensures Holds(f, bytes + [b])
    {
      Take(b, f, bytes);
      if ptr == RATE {
        Flush(f, bytes + [b]);
      }
    }

    method Take(b: Byte, ghost f: Permutation, ghost bytes: seq<Byte>)
      requires Holds(f, bytes)
      modifies this, pending
      ensures if ptr == RATE then BlockFull(f, bytes + [b]) else Holds(f, bytes + [b])
    {
      ghost var before: seq<Byte> := pending[..];
      pending[ptr] := Xor(pending[ptr], b);
      TakesOne(f, Flat(st[..]), before, pending[..], ptr, bytes, b);
      ptr := ptr + 1;
    }

    method Flush(ghost f: Permutation, ghost bytes: seq<Byte>)
      requires BlockFull(f, bytes) && Implements(f)
      modifies this, st, pending
      ensures Holds(f, bytes)
    {
      WholeBlocks(|bytes|);
      Flushed(f, bytes, pending[..], Flat(st[..]), |bytes| / RATE);
      AddAndPermute(st, pending, f);
      Clear(f, bytes);
    }

    method Clear(ghost f: Permutation, ghost bytes: seq<Byte>)
      requires st.Length == 50 && pending.Length == RATE && |bytes| % RATE == 0
      requires Flat(st[..]) == Absorb(f, BitsOf(bytes), |bytes| / RATE)
      modifies this, pending
      ensures Holds(f, bytes)
    {
      var none: Byte := Zeros(8);
      forall i | 0 <= i < RATE { pending[i] := none; }
      ptr := 0;
    }
  }

  lemma TailTakes(pending: seq<Byte>, pending': seq<Byte>, ptr: nat, bytes: seq<Byte>, b: Byte)
    requires |pending| == RATE && ptr < RATE && ptr <= |bytes| && HoldsTail(pending, ptr, bytes)
    requires pending' == pending[ptr := Xor(pending[ptr], b)]
    ensures HoldsTail(pending', ptr + 1, bytes + [b])
  {
    XorZeros(b);
  }

  lemma NextIndex(n: nat)
    ensures n % RATE == RATE - 1 ==> (n + 1) % RATE == 0 && (n + 1) / RATE - 1 == n / RATE
    ensures n % RATE < RATE - 1 ==> (n + 1) % RATE == n % RATE + 1 && (n + 1) / RATE == n / RATE
  {
  }

  lemma TakesOne(f: Permutation, S: Bits, pending: seq<Byte>, pending': seq<Byte>, ptr: nat, bytes: seq<Byte>, b: Byte)
    requires |pending| == RATE && ptr < RATE && HasTaken(f, S, pending, ptr, bytes)
    requires pending' == pending[ptr := Xor(pending[ptr], b)]
    ensures if ptr + 1 == RATE then HasFilled(f, S, pending', bytes + [b]) else HasTaken(f, S, pending', ptr + 1, bytes + [b])
  {
    TailTakes(pending, pending', ptr, bytes, b);
    OneMore(f, bytes, bytes + [b], ptr, S);
  }

  /** The state so far, and where the next byte goes, with one byte more. */
  lemma OneMore(f: Permutation, bytes: seq<Byte>, all: seq<Byte>, ptr: nat, S: Bits)
    requires |all| == |bytes| + 1 && all[..|bytes|] == bytes && ptr == |bytes| % RATE
    requires S == Absorb(f, BitsOf(bytes), |bytes| / RATE)
    ensures ptr + 1 == RATE ==> |all| >= RATE && |all| % RATE == 0 && S == Absorb(f, BitsOf(all), |all| / RATE - 1)
    ensures ptr + 1 < RATE ==> ptr + 1 == |all| % RATE && S == Absorb(f, BitsOf(all), |all| / RATE)
  {
    NextIndex(|bytes|);
    FullBlocks(f, bytes, all, |bytes| / RATE);
    SameCount(f, BitsOf(all), |bytes| / RATE, if ptr + 1 == RATE then |all| / RATE - 1 else |all| / RATE);
  }

  lemma SameCount(f: Permutation, P: Bits, n: nat, k: nat)
    requires n == k && RATE_BITS * n <= |P|
    ensures Absorb(f, P, n) == Absorb(f, P, k)
  {
  }

  lemma XorZeros(b: Byte)
    ensures Xor(Zeros(8), b) == b
  {
  }

  /** One more byte leaves the full blocks before it as they are. */
  lemma FullBlocks(f: Permutation, bytes: seq<Byte>, all: seq<Byte>, n: nat)
    requires |all| == |bytes| + 1 && all[..|bytes|] == bytes && RATE * n <= |bytes|
    ensures Absorb(f, BitsOf(all), n) == Absorb(f, BitsOf(bytes), n)
  {
    forall k | 0 <= k < 8 * |bytes| ensures BitsOf(all)[k] == BitsOf(bytes)[k] {
      assert all[k / 8] == all[..|bytes|][k / 8];
    }
    AbsorbPrefix(f, BitsOf(all), BitsOf(bytes), n);
  }

  lemma WholeBlocks(m: nat)
    requires m % RATE == 0
    ensures m == RATE * (m / RATE)
  {
  }

  lemma Flushed(f: Permutation, bytes: seq<Byte>, pending: seq<Byte>, S: Bits, n: nat)
    requires n >= 1 && |bytes| == RATE * n && HoldsTail(pending, RATE, bytes)
    requires S == Absorb(f, BitsOf(bytes), n - 1)
    ensures f(Xor(S, Wide(BitsOf(pending)))) == Absorb(f, BitsOf(bytes), n)
  {
    forall i | 0 <= i < RATE ensures pending[i] == bytes[|bytes| - RATE + i] {
    }
    LastBlock(f, bytes, pending, n);
  }

  lemma LastBlock(f: Permutation, all: seq<Byte>, pending: seq<Byte>, n: nat)
    requires |pending| == RATE && |all| == RATE * n >= RATE
    requires forall i :: 0 <= i < RATE ==> pending[i] == all[|all| - RATE + i]
    ensures Absorb(f, BitsOf(all), n) == f(Xor(Absorb(f, BitsOf(all), n - 1), Wide(BitsOf(pending))))
  {
    var block := Block(BitsOf(all), n - 1);
    forall k | 0 <= k < RATE_BITS ensures block[k] == BitsOf(pending)[k] {
      assert block[k] == BitsOf(all)[RATE_BITS * (n - 1) + k];
      assert (RATE_BITS * (n - 1) + k) / 8 == |all| - RATE + k / 8;
    }
    assert block == BitsOf(pending);
  }

  // ----- The whole digest -----

  /** 0x01 and 0x80 */
  const FIRST_PAD: Byte := [true] + Zeros(7)
  const LAST_PAD: Byte := Zeros(7) + [true]

  /**
   * The zeros between the two pad bits that the program feeds for a message of m bytes: it absorbs 0x01 before it
   * sets the last bit, so a block filled by 0x01 is followed by one more.
   */
  function FedZeros(m: nat): nat {
    RATE_BITS * ((m + 1) / RATE + 1) - 8 * m - 2
  }

  function Fed(f: Permutation, msg: seq<Byte>): (digest: Bits)
    ensures |digest| == 256
  {
    var P := Padded(BitsOf(msg), FedZeros(|msg|));
    Absorb(f, P, |P| / RATE_BITS)[..256]
  }

  /** The program's padding is pad10*1 unless the last block has room for one byte only; then it is a block longer. */
  lemma PaddingIsProper(m: nat)
    ensures FedZeros(m) == PadZeros(8 * m) + if m % RATE == RATE - 1 then RATE_BITS else 0
  {
    var q, r := m / RATE, m % RATE;
    Quotient(m + 1, if r == RATE - 1 then q + 1 else q, if r == RATE - 1 then 0 else r + 1);
    Remainder(-8 * m - 2, -q - 1, RATE_BITS - 8 * r - 2);
  }

  lemma Quotient(n: nat, q: nat, r: nat)
    requires n == RATE * q + r && r < RATE
    ensures n / RATE == q
  {
  }

  lemma Remainder(n: int, q: int, r: nat)
    requires n == RATE_BITS * q + r && r < RATE_BITS
    ensures n % RATE_BITS == r
  {
  }

  lemma FedIsSponge(f: Permutation, msg: seq<Byte>)
    ensures Fed(f, msg) == Sponge(f, BitsOf(msg)) || |msg| % 136 == 135
    ensures Padded(BitsOf(msg), FedZeros(|msg|)) == Padded(BitsOf(msg), PadZeros(8 * |msg|)) <==> |msg| % 136 != 135
  {
    PaddingIsProper(|msg|);
  }

  // ----- At the residue 135 the extra block shows -----

  /** Bitwise negation, a permutation of the state string. */
  function Negation(): Permutation {
    (S: Bits) => Not(S)
  }

  /** Negating after each block, one block more that begins with a zero flips the first bit of the state. */
  lemma ZeroBlockFlips(f: Permutation, P: Bits, n: nat)
    requires f == Negation() && RATE_BITS * (n + 1) <= |P| && !P[RATE_BITS * n]
    ensures Absorb(f, P, n + 1)[0] != Absorb(f, P, n)[0]
  {
    assert Block(P, n)[0] == P[RATE_BITS * n];
    assert Wide(Block(P, n))[0] == Block(P, n)[0];
  }

  /** The first bit after n + 1 blocks depends on the first n blocks and the first bit of the next. */
  lemma FirstBit(f: Permutation, P: Bits, Q: Bits, n: nat)
    requires f == Negation() && RATE_BITS * (n + 1) <= |P| && RATE_BITS * (n + 1) <= |Q|
    requires forall k :: 0 <= k <= RATE_BITS * n ==> P[k] == Q[k]
    ensures Absorb(f, P, n + 1)[0] == Absorb(f, Q, n + 1)[0]
  {
    AbsorbPrefix(f, P, Q, n);
    assert Block(P, n)[0] == P[RATE_BITS * n] && Block(Q, n)[0] == Q[RATE_BITS * n];
    assert Wide(Block(P, n))[0] == Block(P, n)[0] && Wide(Block(Q, n))[0] == Block(Q, n)[0];
  }

  lemma ExtraBlock(msg: seq<Byte>, P: Bits, Q: Bits, n: nat)
    requires |msg| == RATE * n + RATE - 1
    requires P == Padded(BitsOf(msg), FedZeros(|msg|)) && Q == Padded(BitsOf(msg), PadZeros(8 * |msg|))
    ensures |P| == RATE_BITS * (n + 2) && |Q| == RATE_BITS * (n + 1) && !P[RATE_BITS * (n + 1)]
    ensures forall k :: 0 <= k <= RATE_BITS * n ==> P[k] == Q[k]
  {
    PaddingIsProper(|msg|);
    assert (|msg| + 1) / RATE == n + 1;
  }

  lemma FedBit(f: Permutation, msg: seq<Byte>, P: Bits, n: nat)
    requires P == Padded(BitsOf(msg), FedZeros(|msg|)) && |P| == RATE_BITS * n
    ensures Fed(f, msg)[0] == Absorb(f, P, n)[0]
  {
    BlockCount(P, n);
  }

  lemma SpongeBit(f: Permutation, msg: seq<Byte>, Q: Bits, n: nat)
    requires Q == Padded(BitsOf(msg), PadZeros(8 * |msg|)) && |Q| == RATE_BITS * n
    ensures Sponge(f, BitsOf(msg))[0] == Absorb(f, Q, n)[0]
  {
    BlockCount(Q, n);
  }

  lemma DigestsDiffer(f: Permutation, msg: seq<Byte>, P: Bits, Q: Bits, p: nat, q: nat)
    requires P == Padded(BitsOf(msg), FedZeros(|msg|)) && Q == Padded(BitsOf(msg), PadZeros(8 * |msg|))
    requires |P| == RATE_BITS * p && |Q| == RATE_BITS * q && Absorb(f, P, p)[0] != Absorb(f, Q, q)[0]
    ensures Fed(f, msg) != Sponge(f, BitsOf(msg))
  {
    FedBit(f, msg, P, p);
    SpongeBit(f, msg, Q, q);
  }

  lemma NegationFlips(f: Permutation, msg: seq<Byte>, n: nat, P: Bits, Q: Bits)
    requires f == Negation() && |msg| == RATE * n + RATE - 1
    requires P == Padded(BitsOf(msg), FedZeros(|msg|)) && Q == Padded(BitsOf(msg), PadZeros(8 * |msg|))
    ensures |P| == RATE_BITS * (n + 2) && |Q| == RATE_BITS * (n + 1) && Absorb(f, P, n + 2)[0] != Absorb(f, Q, n + 1)[0]
  {
    ExtraBlock(msg, P, Q, n);
    FlipBetween(f, P, Q, n);
  }

  lemma FlipBetween(f: Permutation, P: Bits, Q: Bits, n: nat)
    requires f == Negation() && |P| == RATE_BITS * (n + 2) && |Q| == RATE_BITS * (n + 1) && !P[RATE_BITS * (n + 1)]
    requires forall k :: 0 <= k <= RATE_BITS * n ==> P[k] == Q[k]
    ensures Absorb(f, P, n + 2)[0] != Absorb(f, Q, n + 1)[0]
  {
    FirstBit(f, P, Q, n);
    ZeroBlockFlips(f, P, n + 1);
  }

  lemma BlockCount(P: Bits, n: nat)
    requires |P| == RATE_BITS * n
    ensures |P| / RATE_BITS == n
  {
  }

  /** Some permutation, negation for one, tells the two apart on a message of 135 bytes modulo 136. */
  lemma Telling(msg: seq<Byte>, n: nat, P: Bits, Q: Bits) returns (f: Permutation)
    requires |msg| == RATE * n + RATE - 1
    requires P == Padded(BitsOf(msg), FedZeros(|msg|)) && Q == Padded(BitsOf(msg), PadZeros(8 * |msg|))
    ensures |P| == RATE_BITS * (n + 2) && |Q| == RATE_BITS * (n + 1) && Absorb(f, P, n + 2)[0] != Absorb(f, Q, n + 1)[0]
  {
    f := Negation();
    NegationFlips(f, msg, n, P, Q);
  }

  lemma TellingDigests(msg: seq<Byte>, n: nat, P: Bits, Q: Bits) returns (f: Permutation)
    requires |msg| == RATE * n + RATE - 1
    requires P == Padded(BitsOf(msg), FedZeros(|msg|)) && Q == Padded(BitsOf(msg), PadZeros(8 * |msg|))
    ensures Fed(f, msg) != Sponge(f, BitsOf(msg))
  {
    f := Telling(msg, n, P, Q);
    var p, q := n + 2, n + 1;
    assert |P| == RATE_BITS * p && |Q| == RATE_BITS * q;
    assert Absorb(f, P, p)[0] != Absorb(f, Q, q)[0];
    DigestsDiffer(f, msg, P, Q, p, q);
  }

  /** What the program feeds hashes like the sponge under every permutation exactly when the residue is not 135. */
  lemma FedIffSponge(msg: seq<Byte>)
    ensures (forall f: Permutation :: Fed(f, msg) == Sponge(f, BitsOf(msg))) <==> |msg| % 136 != 135
  {
    if |msg| % RATE == RATE - 1 {
      var M := BitsOf(msg);
      var f := TellingDigests(msg, |msg| / RATE, Padded(M, FedZeros(|msg|)), Padded(M, PadZeros(8 * |msg|)));
    } else {
      forall f: Permutation ensures Fed(f, msg) == Sponge(f, BitsOf(msg)) { FedIsSponge(f, msg); }
    }
  }

  /** Bit q of the padded message, which ends the block after byte |msg|. */
  lemma PaddedIs(msg: seq<Byte>, P: Bits, n: nat)
    requires P == Padded(BitsOf(msg), FedZeros(|msg|)) && n == (|msg| + 1) / RATE
    ensures |P| == RATE_BITS * (n + 1) && 8 * (|msg| + 1) < |P|
    ensures forall q :: 8 * (|msg| + 1) <= q < |P| ==> P[q] == (q == |P| - 1)
  {
  }

  lemma FinalBit(bytes: seq<Byte>, pending: seq<Byte>, P: Bits, ptr: nat, n: nat, i: nat, z: nat)
    requires |pending| == RATE && |bytes| == RATE * n + ptr && |P| == RATE_BITS * (n + 1) && ptr < RATE
    requires HoldsTail(pending[RATE - 1 := Zeros(8)], ptr, bytes) && pending[RATE - 1] == LAST_PAD
    requires forall k :: 0 <= k < 8 * |bytes| ==> P[k] == BitsOf(bytes)[k]
    requires forall q :: 8 * |bytes| <= q < |P| ==> P[q] == (q == |P| - 1)
    requires i < RATE && z < 8
    ensures P[RATE_BITS * n + 8 * i + z] == pending[i][z]
  {
    var q := RATE_BITS * n + 8 * i + z;
    assert q / 8 == RATE * n + i && q % 8 == z;
    if i < ptr {
      assert BitsOf(bytes)[q] == bytes[RATE * n + i][z];
      assert pending[RATE - 1 := Zeros(8)][i] == bytes[|bytes| - ptr + i];
    } else if i < RATE - 1 {
      assert pending[RATE - 1 := Zeros(8)][i] == Zeros(8);
    }
  }

  /** The final block is the tail of the message with both pad bits. */
  lemma FinalBlock(f: Permutation, msg: seq<Byte>, bytes: seq<Byte>, pending: seq<Byte>, ptr: nat, P: Bits, n: nat)
    requires bytes == msg + [FIRST_PAD] && ptr == |bytes| % RATE && |pending| == RATE
    requires HoldsTail(pending[RATE - 1 := Zeros(8)], ptr, bytes) && pending[RATE - 1] == LAST_PAD
    requires P == Padded(BitsOf(msg), FedZeros(|msg|)) && n == |bytes| / RATE
    ensures |P| == RATE_BITS * (n + 1) && Absorb(f, P, n) == Absorb(f, BitsOf(bytes), n) && Block(P, n) == BitsOf(pending)
  {
    PaddedIs(msg, P, n);
    forall k | 0 <= k < 8 * |bytes| ensures P[k] == BitsOf(bytes)[k] { PaddedBit(msg, bytes, P, k); }
    AbsorbPrefix(f, P, BitsOf(bytes), n);
    FinalBits(bytes, pending, P, ptr, n);
  }

  lemma FinalBits(bytes: seq<Byte>, pending: seq<Byte>, P: Bits, ptr: nat, n: nat)
    requires |pending| == RATE && |bytes| == RATE * n + ptr && |P| == RATE_BITS * (n + 1) && ptr < RATE
    requires HoldsTail(pending[RATE - 1 := Zeros(8)], ptr, bytes) && pending[RATE - 1] == LAST_PAD
    requires forall k :: 0 <= k < 8 * |bytes| ==> P[k] == BitsOf(bytes)[k]
    requires forall q :: 8 * |bytes| <= q < |P| ==> P[q] == (q == |P| - 1)
    ensures Block(P, n) == BitsOf(pending)
  {
    forall k | 0 <= k < RATE_BITS ensures Block(P, n)[k] == BitsOf(pending)[k] {
      FinalBit(bytes, pending, P, ptr, n, k / 8, k % 8);
      assert Block(P, n)[k] == P[RATE_BITS * n + k];
    }
  }

  lemma PaddedBit(msg: seq<Byte>, bytes: seq<Byte>, P: Bits, k: nat)
    requires bytes == msg + [FIRST_PAD] && P == Padded(BitsOf(msg), FedZeros(|msg|)) && k < 8 * |bytes| < |P|
    ensures P[k] == BitsOf(bytes)[k]
  {
    if k < 8 * |msg| {
      assert BitsOf(bytes)[k] == BitsOf(msg)[k];
    } else {
      assert bytes[k / 8] == FIRST_PAD;
    }
  }

  /** One output byte, shifted out of its half-lane and cut to 8 bits. */
  method OutputByte(st: array<Half>, i: nat) returns (b: Byte)
    requires st.Length == 50 && i < 32
    ensures b == Flat(st[..])[8 * i..8 * i + 8]
  {
    var lane, off := i / 8, i % 8;
    if off < 4 {
      b := ShiftRight(st[2 * lane], off * 8)[..8];
    } else {
      b := ShiftRight(st[2 * lane + 1], (off - 4) * 8)[..8];
    }
    WordOfByte(i);
    OutputBits(st[..], i, b);
  }

  lemma OutputBits(words: seq<Half>, i: nat, b: Byte)
    requires |words| == 50 && i < 32 && b == ShiftRight(words[i / 4], i % 4 * 8)[..8]
    ensures b == Flat(words)[8 * i..8 * i + 8]
  {
    forall z | 0 <= z < 8 ensures b[z] == Flat(words)[8 * i + z] {
      assert (8 * i + z) / 32 == i / 4 && (8 * i + z) % 32 == i % 4 * 8 + z;
    }
  }

  /** keccak256 */
  method Digest(msg: seq<Byte>) returns (out: seq<Byte>)
    ensures |out| == 32 && BitsOf(out) == Fed(KeccakPermutation(), msg)
    ensures |msg| % 136 != 135 ==> BitsOf(out) == Sponge(KeccakPermutation(), BitsOf(msg))
  {
    ghost var f := KeccakPermutation();
    PermutationImplements(f);
    FedIsSponge(f, msg);
    out := DigestWith(msg, f);
  }

  method DigestWith(msg: seq<Byte>, ghost f: Permutation) returns (out: seq<Byte>)
    requires Implements(f)
    ensures |out| == 32 && BitsOf(out) == Fed(f, msg)
  {
    var a := new Absorber();
    FeedMessage(a, msg, f);
    Finalise(a, msg, f);
    out := Squeeze(a.st);
  }

  method FeedMessage(a: Absorber, msg: seq<Byte>, ghost f: Permutation)
    requires Implements(f) && a.Holds(f, [])
    modifies a, a.st, a.pending
    ensures a.Holds(f, msg + [FIRST_PAD])
  {
    FeedBytes(a, msg, f);
    a.AbsorbByte(FIRST_PAD, f, msg);
  }

  lemma PrefixNext(msg: seq<Byte>, i: nat)
    requires i < |msg|
    ensures msg[..i] + [msg[i]] == msg[..i + 1]
  {
  }

  method FeedBytes(a: Absorber, msg: seq<Byte>, ghost f: Permutation)
    requires Implements(f) && a.Holds(f, [])
    modifies a, a.st, a.pending
    ensures a.Holds(f, msg)
  {
    assert msg[..0] == [];
    for i := 0 to |msg|
      invariant a.Holds(f, msg[..i])
    {
      PrefixNext(msg, i);
      a.AbsorbByte(msg[i], f, msg[..i]);
    }
    assert msg[..|msg|] == msg;
  }

  method Squeeze(st: array<Half>) returns (out: seq<Byte>)
    requires st.Length == 50
    ensures |out| == 32 && BitsOf(out) == Flat(st[..])[..256]
  {
    out := [];
    for i := 0 to 32
      invariant |out| == i && forall k :: 0 <= k < i ==> out[k] == Flat(st[..])[8 * k..8 * k + 8]
    {
      var b := OutputByte(st, i);
      out := out + [b];
    }
    OutputIs(out, Flat(st[..]));
  }

  lemma OutputIs(out: seq<Byte>, S: Bits)
    requires |S| == WIDTH && |out| == 32 && forall i :: 0 <= i < 32 ==> out[i] == S[8 * i..8 * i + 8]
    ensures BitsOf(out) == S[..256]
  {
    forall k | 0 <= k < 256 ensures BitsOf(out)[k] == S[k] {
      assert out[k / 8] == S[8 * (k / 8)..8 * (k / 8) + 8];
    }
  }

  lemma LastPadSet(before: seq<Byte>, after: seq<Byte>, ptr: nat, bytes: seq<Byte>)
    requires ptr < RATE && HoldsTail(before, ptr, bytes)
    requires after == before[RATE - 1 := Xor(before[RATE - 1], LAST_PAD)]
    ensures |after| == RATE && after[RATE - 1] == LAST_PAD && after[RATE - 1 := Zeros(8)] == before
  {
    XorZeros(LAST_PAD);
  }

  /** Sets the last pad bit, adds the final block and permutes. */
  method Finalise(a: Absorber, msg: seq<Byte>, ghost f: Permutation)
    requires a.Holds(f, msg + [FIRST_PAD]) && Implements(f)
    modifies a.st, a.pending
    ensures a.st.Length == 50
    ensures var P := Padded(BitsOf(msg), FedZeros(|msg|)); Flat(a.st[..]) == Absorb(f, P, |P| / RATE_BITS)
  {
    ghost var bytes, before := msg + [FIRST_PAD], a.pending[..];
    ghost var P, n := Padded(BitsOf(msg), FedZeros(|msg|)), |bytes| / RATE;
    a.pending[RATE - 1] := Xor(a.pending[RATE - 1], LAST_PAD);
    LastPadSet(before, a.pending[..], a.ptr, bytes);
    FinalBlock(f, msg, bytes, a.pending[..], a.ptr, P, n);
    ghost var S := Flat(a.st[..]);
    AddAndPermute(a.st, a.pending, f);
    LastAbsorbed(f, P, n, S, Flat(a.st[..]));
  }

  lemma LastAbsorbed(f: Permutation, P: Bits, n: nat, S: Bits, S': Bits)
    requires |P| == RATE_BITS * (n + 1) && S == Absorb(f, P, n) && S' == f(Xor(S, Wide(Block(P, n))))
    ensures S' == Absorb(f, P, |P| / RATE_BITS)
  {
    assert |P| / RATE_BITS == n + 1;
  }

  method AddAndPermute(st: array<Half>, pending: array<Byte>, ghost f: Permutation)
    requires st.Length == 50 && pending.Length == RATE && Implements(f)
    modifies st
    ensures Flat(st[..]) == f(Xor(old(Flat(st[..])), Wide(BitsOf(pending[..]))))
  {
    AddPending(st, pending);
    PermuteString(st, f);
  }
}
