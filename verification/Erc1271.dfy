/**
 * ERC-1271 calldata: the encoder of siwx/evm/adapter.go against the decoder of the simulated chain in
 * examples/hub/contractwallet.go.
 */
module Erc1271 {
  import opened Wrappers
  import Numerals

  type Address = a: seq<byte> | |a| == 20 witness Repeat<byte>(0, 20)

  const SELECTOR: seq<byte> := [0x16, 0x26, 0xba, 0x7e]
  const MAGIC_VALUE: seq<byte> := [0x16, 0x26, 0xba, 0x7e]
  const HEAD_LEN := 100

  // ----- The encoder -----

  function Word(b: seq<byte>): (w: seq<byte>)
    ensures |w| == 32
  {
    if |b| >= 32 then b[..32] else b + Repeat<byte>(0, 32 - |b|)
  }

  /** The four low bytes of n, big-endian, in a 32-byte word. */
  function UintWord(n: nat): (w: seq<byte>)
    ensures |w| == 32
  {
    Repeat<byte>(0, 28) + [n / 0x1000000 % 256, n / 0x10000 % 256, n / 0x100 % 256, n % 256]
  }

  function PaddedLen(n: nat): (p: nat)
    ensures n <= p < n + 32 && p % 32 == 0
  {
    (n + 31) / 32 * 32
  }

  function Calldata(hash: seq<byte>, sig: seq<byte>): (data: seq<byte>)
    ensures |data| == HEAD_LEN + PaddedLen(|sig|)
  {
    SELECTOR + Word(hash) + UintWord(64) + UintWord(|sig|) + sig + Repeat<byte>(0, PaddedLen(|sig|) - |sig|)
  }

  method RightSizedWord(b: seq<byte>) returns (w: seq<byte>)
    ensures w == Word(b)
  {
    var word := new byte[32](_ => 0);
    var n := if |b| < 32 then |b| else 32;
    for i := 0 to n
      invariant forall k :: 0 <= k < 32 ==> word[k] == if k < i then b[k] else 0
    {
      word[i] := b[i];
    }
    w := word[..];
  }

  method Uint256Word(n: nat) returns (w: seq<byte>)
    ensures w == UintWord(n)
  {
    var word := new byte[32](_ => 0);
    word[31] := n % 256;
    word[30] := n / 0x100 % 256;
    word[29] := n / 0x10000 % 256;
    word[28] := n / 0x1000000 % 256;
    w := word[..];
  }

  method Erc1271Calldata(hash: seq<byte>, sig: seq<byte>) returns (data: seq<byte>)
    ensures data == Calldata(hash, sig)
  {
    var paddedSigLen := (|sig| + 31) / 32 * 32;
    var hashWord := RightSizedWord(hash);
    var offset := Uint256Word(64);
    var length := Uint256Word(|sig|);
    data := [];
    data := data + SELECTOR;
    data := data + hashWord;
    data := data + offset;
    data := data + length;
    data := data + sig;
    var pad := paddedSigLen - |sig|;
    if pad > 0 {
      data := data + Repeat<byte>(0, pad);
    } else {
      assert data + Repeat<byte>(0, 0) == data;
    }
  }

  // ----- The decoder -----

  /** big.Int.Int64: the low 64 bits as a signed number. */
  function Int64(v: int): (n: int)
    ensures -0x8000_0000_0000_0000 <= n < 0x8000_0000_0000_0000
    ensures n % 0x1_0000_0000_0000_0000 == v % 0x1_0000_0000_0000_0000
  {
    var low := v % 0x1_0000_0000_0000_0000;
    if low < 0x8000_0000_0000_0000 then low else low - 0x1_0000_0000_0000_0000
  }

  datatype Decoded = Rejected | Panics | Extracted(hash: seq<byte>, sig: seq<byte>)

  /** selector(4) | hash(32) | offset(32) | length(32) | signature; sums are 64-bit. */
  function Decode(data: seq<byte>): Decoded {
    if |data| < HEAD_LEN then Rejected
    else
      var sigLen := Int64(Numerals.Value(data[68..100], 256));
      if sigLen <= 0 || Int64(HEAD_LEN + sigLen) > |data| then Rejected
      else if HEAD_LEN + sigLen > |data| then Panics
      else Extracted(data[4..36], data[HEAD_LEN..HEAD_LEN + sigLen])
  }

  /** The decoder crashes only on a length so large that the sum with the head overflows. */
  lemma PanicsOnOverflow(data: seq<byte>)
    requires |data| < 0x8000_0000_0000_0000
    ensures Decode(data) == Panics <==>
      |data| >= 100 && 0x8000_0000_0000_0000 - 100 <= Numerals.Value(data[68..100], 256) % 0x1_0000_0000_0000_0000 < 0x8000_0000_0000_0000
  {
  }

  // ----- The decoder reads back what the encoder wrote -----

  lemma UintWordValue(n: nat, w: seq<byte>)
    requires w == UintWord(n)
    ensures Numerals.Value(w, 256) == n % 0x1_0000_0000
  {
    var tail: seq<byte> := w[28..];
    assert w == Repeat<nat>(0, 28) + tail;
    Numerals.ValueOfPadded(28, tail, 256);
    FourBytes(tail[0], tail[1], tail[2], tail[3]);
    assert tail == [tail[0], tail[1], tail[2], tail[3]];
    BytesOf(n);
  }

  lemma FourBytes(a: nat, b: nat, c: nat, d: nat)
    ensures Numerals.Value([a, b, c, d], 256) == ((a * 256 + b) * 256 + c) * 256 + d
  {
    Numerals.ValueSnoc([], a, 256);
    Numerals.ValueSnoc([a], b, 256);
    Numerals.ValueSnoc([a, b], c, 256);
    Numerals.ValueSnoc([a, b, c], d, 256);
    assert [] + [a] == [a] && [a] + [b] == [a, b] && [a, b] + [c] == [a, b, c] && [a, b, c] + [d] == [a, b, c, d];
  }

  lemma BytesOf(n: nat)
    ensures ((n / 0x1000000 % 256 * 256 + n / 0x10000 % 256) * 256 + n / 0x100 % 256) * 256 + n % 256 == n % 0x1_0000_0000
  {
    var q1 := n / 256;
    var q2 := q1 / 256;
    SplitByte(n, 0x1000000);
    SplitByte(q1, 0x10000);
    SplitByte(q2, 0x100);
    assert n / 0x10000 == q2 && n / 0x1000000 == q2 / 256;
  }

  /** n mod 256 p is the low byte of n and n / 256 mod p above it. */
  lemma SplitByte(n: nat, p: nat)
    requires p >= 1
    ensures n % (256 * p) == n / 256 % p * 256 + n % 256
  {
    var q, r := n / 256, n % 256;
    var a, b := q / p, q % p;
    Numerals.DivMod(q, p);
    assert a * p * 256 == a * (256 * p);
    Numerals.DivModUnique(a, b * 256 + r, 256 * p);
  }

  /** Where each field of the calldata sits. */
  lemma CalldataFields(hash: seq<byte>, sig: seq<byte>)
    ensures var data := Calldata(hash, sig);
      && data[..4] == [0x16, 0x26, 0xba, 0x7e] && data[4..36] == Word(hash)
      && data[36..68] == UintWord(64) && data[68..100] == UintWord(|sig|) && data[100..100 + |sig|] == sig
  {
  }

  /** Zeros fill the last word of the signature, and no more. */
  lemma CalldataEnd(hash: seq<byte>, sig: seq<byte>)
    ensures var data := Calldata(hash, sig);
      |data| % 32 == 4 && 100 + |sig| <= |data| < 100 + |sig| + 32 && data[100 + |sig|..] == Repeat<byte>(0, |data| - 100 - |sig|)
  {
    var head := SELECTOR + Word(hash) + UintWord(64) + UintWord(|sig|) + sig;
    EndsIn(head, Repeat<byte>(0, PaddedLen(|sig|) - |sig|), 100 + |sig|);
  }

  lemma EndsIn(head: seq<byte>, tail: seq<byte>, n: nat)
    requires |head| == n
    ensures (head + tail)[n..] == tail
  {
  }

  lemma LengthField(hash: seq<byte>, sig: seq<byte>, data: seq<byte>, n: nat)
    requires data == Calldata(hash, sig) && n == |sig| % 0x1_0000_0000
    ensures Int64(Numerals.Value(data[68..100], 256)) == n && Int64(HEAD_LEN + n) == HEAD_LEN + n <= |data|
  {
    CalldataFields(hash, sig);
    UintWordValue(|sig|, data[68..100]);
    SmallInt64(n);
    SmallInt64(HEAD_LEN + n);
  }

  lemma SmallInt64(n: nat)
    requires n < 0x8000_0000_0000_0000
    ensures Int64(n) == n
  {
  }

  lemma Prefix(data: seq<byte>, sig: seq<byte>, from: nat, n: nat)
    requires from + |sig| <= |data| && data[from..from + |sig|] == sig && n <= |sig|
    ensures data[from..from + n] == sig[..n]
  {
    assert data[from..from + n] == data[from..from + |sig|][..n];
  }

  /**
   * The decoder returns the hash word and the first |sig| mod 2^32 bytes of the signature: the length field holds
   * four bytes. It never panics on encoded calldata.
   */
  lemma DecodeEncoded(hash: seq<byte>, sig: seq<byte>)
    ensures var n := |sig| % 0x1_0000_0000;
      Decode(Calldata(hash, sig)) == if n == 0 then Rejected else Extracted(Word(hash), sig[..n])
  {
    var data, n := Calldata(hash, sig), |sig| % 0x1_0000_0000;
    LengthField(hash, sig, data, n);
    CalldataFields(hash, sig);
    Prefix(data, sig, HEAD_LEN, n);
  }

  /** Hash and signature come back exactly when the hash is one word and the length fits the field. */
  lemma RoundTrip(hash: seq<byte>, sig: seq<byte>)
    ensures Decode(Calldata(hash, sig)) == Extracted(hash, sig) <==> |hash| == 32 && 1 <= |sig| < 0x1_0000_0000
  {
    DecodeEncoded(hash, sig);
    if |hash| == 32 { assert Word(hash) == hash; }
    if |sig| < 0x1_0000_0000 { assert sig[..|sig|] == sig; }
  }

  // ----- The simulated wallet contracts -----

  /** Recovery wants v in {0, 1}; wallets send 27 or 28. */
  function Normalise(sig: seq<byte>): seq<byte> {
    if |sig| == 65 && sig[64] >= 27 then sig[64 := sig[64] - 27] else sig
  }

  /** SigToPub and PubkeyToAddress: the address that signed the hash, if any. */
  type Recover = (seq<byte>, seq<byte>) -> Option<Address>

  function MagicWord(): seq<byte> {
    MAGIC_VALUE + Repeat<byte>(0, 28)
  }

  function ZeroWord(): seq<byte> {
    Repeat<byte>(0, 32)
  }

  /** isValidSignature of the wallet at address to; None for a panic. */
  function Answer(owners: map<Address, Address>, recover: Recover, to: Address, data: seq<byte>): Option<seq<byte>> {
    match Decode(data)
    case Rejected => Some(ZeroWord())
    case Panics => None
    case Extracted(hash, sig) =>
      var signer := recover(hash, Normalise(sig));
      if signer.Some? && to in owners && owners[to] == signer.value then Some(MagicWord()) else Some(ZeroWord())
  }

  const WALLET_CODE: seq<byte> := [0x60, 0x80, 0x60, 0x40, 0x52]

  function Code(owners: map<Address, Address>, a: Address): seq<byte> {
    if a in owners then WALLET_CODE else []
  }

  /** Every recorded wallet sits at the address derived from its owner. */
  ghost predicate Derived(owners: map<Address, Address>, derive: Address -> Address) {
    forall wallet :: wallet in owners ==> derive(owners[wallet]) == wallet
  }

  class DemoWallets {
    var owners: map<Address, Address>
    const derive: Address -> Address
    const recover: Recover

    ghost predicate Valid()
      reads this
    {
      Derived(owners, derive)
    }

    constructor (derive: Address -> Address, recover: Recover)
      ensures Valid() && owners == map[] && this.derive == derive && this.recover == recover
    {
      owners := map[];
      this.derive := derive;
      this.recover := recover;
    }

    method Register(owner: Address) returns (wallet: Address)
      requires Valid()
      modifies this
      ensures Valid() && wallet == derive(owner) && owners == old(owners)[wallet := owner]
    {
      wallet := derive(owner);
      owners := owners[wallet := owner];
    }

    method CodeAt(a: Address) returns (code: seq<byte>)
      ensures code == Code(owners, a)
      ensures code == if a in owners then [0x60, 0x80, 0x60, 0x40, 0x52] else []
    {
      if a in owners {
        return WALLET_CODE;
      }
      return [];
    }

    /** None stands for a panic. */
    method CallContract(to: Address, data: seq<byte>) returns (ret: Option<seq<byte>>)
      ensures ret == Answer(owners, recover, to, data)
    {
      if |data| < HEAD_LEN {
        return Some(ZeroWord());
      }
      var hash := data[4..36];
      var sigLen := Int64(Numerals.Value(data[68..100], 256));
      if sigLen <= 0 || Int64(HEAD_LEN + sigLen) > |data| {
        return Some(ZeroWord());
      }
      if HEAD_LEN + sigLen > |data| {
        return None;
      }
      var sig := new byte[sigLen](i requires 0 <= i < sigLen => data[HEAD_LEN + i]);
      ghost var copied := data[HEAD_LEN..HEAD_LEN + sigLen];
      assert sig[..] == copied;
      if sig.Length == 65 && sig[64] >= 27 {
        sig[64] := sig[64] - 27;
      }
      assert sig[..] == Normalise(copied);
      var signer := recover(hash, sig[..]);
      if signer.None? {
        return Some(ZeroWord());
      }
      if to in owners && signer.value == owners[to] {
        return Some(MagicWord());
      }
      return Some(ZeroWord());
    }
  }
}
