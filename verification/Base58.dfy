/** siws/base58.go: base58 as a change of base on (leading zeros, value). */
module Base58 {
  import opened Wrappers
  import opened Numerals
  import opened SiwsErrors

  const MAX_LEN := 128
  // The alphabet, broken where it skips 0, I, O and l.
  const ALPHABET := "123456789" + "ABCDEFGH" + "JKLMN" + "PQRSTUVWXYZ" + "abcdefghijk" + "mnopqrstuvwxyz"

  // ----- The alphabet and its index table -----

  /** The alphabet runs through consecutive characters within each part. */
  function Symbol(d: nat): char
    requires d < 58
  {
    (if d < 9 then d + 49 else if d < 17 then d - 9 + 65 else if d < 22 then d - 17 + 74
     else if d < 33 then d - 22 + 80 else if d < 44 then d - 33 + 97 else d - 44 + 109) as char
  }

  /** The digit a character stands for, or -1. */
  function IndexOf(c: char): (d: int)
    ensures -1 <= d < 58
  {
    if '1' <= c <= '9' then c as int - 49
    else if 'A' <= c <= 'H' then c as int - 65 + 9
    else if 'J' <= c <= 'N' then c as int - 74 + 17
    else if 'P' <= c <= 'Z' then c as int - 80 + 22
    else if 'a' <= c <= 'k' then c as int - 97 + 33
    else if 'm' <= c <= 'z' then c as int - 109 + 44
    else -1
  }

  lemma AlphabetSymbol(d: nat)
    requires d < 58
    ensures ALPHABET[d] == Symbol(d)
  {
    if d < 9 { assert ALPHABET[d] == "123456789"[d]; }
    else if d < 17 { assert ALPHABET[d] == "ABCDEFGH"[d - 9]; }
    else if d < 22 { assert ALPHABET[d] == "JKLMN"[d - 17]; }
    else if d < 33 { assert ALPHABET[d] == "PQRSTUVWXYZ"[d - 22]; }
    else if d < 44 { assert ALPHABET[d] == "abcdefghijk"[d - 33]; }
    else { assert ALPHABET[d] == "mnopqrstuvwxyz"[d - 44]; }
  }

  /** IndexOf is the inverse of the alphabet: the position of c in it, and -1 for every other character. */
  lemma IndexInverts(d: int, c: char)
    requires -1 <= d < 58
    ensures d >= 0 ==> (IndexOf(c) == d <==> ALPHABET[d] == c)
    ensures IndexOf(c) == -1 <==> c !in ALPHABET
  {
    if d >= 0 {
      AlphabetSymbol(d);
      IndexOfSymbol(d, c);
    }
    if IndexOf(c) >= 0 {
      AlphabetSymbol(IndexOf(c));
      IndexOfSymbol(IndexOf(c), c);
    } else if c in ALPHABET {
      var i :| 0 <= i < |ALPHABET| && ALPHABET[i] == c;
      AlphabetSymbol(i);
      IndexOfSymbol(i, c);
    }
  }

  lemma IndexOfSymbol(d: nat, c: char)
    requires d < 58
    ensures IndexOf(c) == d <==> Symbol(d) == c
  {
  }

  predicate InAlphabet(s: string) {
    forall i :: 0 <= i < |s| ==> IndexOf(s[i]) >= 0
  }

  function DigitsOf(s: string): (ds: seq<nat>)
    requires InAlphabet(s)
    ensures |ds| == |s| && AreDigits(ds, 58)
    ensures forall i :: 0 <= i < |s| ==> ds[i] == IndexOf(s[i])
  {
    seq(|s|, i requires 0 <= i < |s| => IndexOf(s[i]))
  }

  function Symbols(ds: seq<nat>): (s: string)
    requires AreDigits(ds, 58)
    ensures |s| == |ds|
    ensures forall i :: 0 <= i < |ds| ==> s[i] == Symbol(ds[i])
  {
    seq(|ds|, i requires 0 <= i < |ds| => Symbol(ds[i]))
  }

  // ----- What the codec computes -----

  /** big.Int.Bytes and SetBytes are the base-256 numerals. */
  function Decode(s: string): Result<seq<byte>, SiwsError> {
    if |s| > MAX_LEN || !InAlphabet(s) then Err(Malformed)
    else Ok(Numeral(LeadingZeros(DigitsOf(s)), Value(DigitsOf(s), 58), 256))
  }

  function Encode(b: seq<byte>): string {
    Symbols(Numeral(LeadingZeros(b), Value(b, 256), 58))
  }

  // ----- The codec as it runs -----

  /** init: the 128-entry table from character to digit. */
  method IndexTable() returns (table: array<int>)
    ensures fresh(table) && IsIndexTable(table)
  {
    table := new int[128];
    for c := 0 to 128
      invariant forall k :: 0 <= k < c ==> table[k] == -1
    {
      table[c] := -1;
    }
    for i := 0 to 58
      invariant forall c :: 0 <= c < 128 ==> table[c] == if IndexOf(c as char) < i then IndexOf(c as char) else -1
    {
      AlphabetSymbol(i);
      table[ALPHABET[i] as int] := i;
    }
  }

  ghost predicate IsIndexTable(table: array<int>)
    reads table
  {
    table.Length == 128 && forall c :: 0 <= c < 128 ==> table[c] == IndexOf(c as char)
  }

  method DecodeBase58(s: string, table: array<int>) returns (r: Result<seq<byte>, SiwsError>)
    requires IsIndexTable(table)
    ensures r == Decode(s)
  {
    if |s| > MAX_LEN {
      return Err(Malformed);
    }
    var n: nat := 0;
    for i := 0 to |s|
      invariant InAlphabet(s[..i]) && n == Value(DigitsOf(s[..i]), 58)
    {
      if s[i] > 127 as char || table[s[i] as int] < 0 {
        assert !InAlphabet(s) by { assert IndexOf(s[i]) == -1; }
        return Err(Malformed);
      }
      n := n * 58;
      n := n + table[s[i] as int];
      PrefixDigits(s, i);
    }
    assert s[..|s|] == s;
    var decoded: seq<byte> := Digits(n, 256);

    var leadingZeros := 0;
    while leadingZeros < |s| && s[leadingZeros] == '1'
      invariant leadingZeros <= |s| && forall k :: 0 <= k < leadingZeros ==> s[k] == '1'
    {
      leadingZeros := leadingZeros + 1;
    }
    LeadingOnes(s, leadingZeros);
    if leadingZeros > 0 {
      decoded := Repeat<byte>(0, leadingZeros) + decoded;
    }
    DecodedIs(s, n, leadingZeros, decoded);
    return Ok(decoded);
  }

  lemma DecodedIs(s: string, n: nat, k: nat, decoded: seq<byte>)
    requires |s| <= MAX_LEN && InAlphabet(s)
    requires n == Value(DigitsOf(s), 58) && k == LeadingZeros(DigitsOf(s))
    requires decoded == if k > 0 then Repeat<byte>(0, k) + Digits(n, 256) else Digits(n, 256)
    ensures Decode(s) == Ok(decoded)
  {
    assert decoded == Numeral(k, n, 256);
  }

  lemma PrefixDigits(s: string, i: nat)
    requires i < |s| && InAlphabet(s[..i]) && IndexOf(s[i]) >= 0
    ensures InAlphabet(s[..i + 1])
    ensures Value(DigitsOf(s[..i + 1]), 58) == Value(DigitsOf(s[..i]), 58) * 58 + IndexOf(s[i])
  {
    assert DigitsOf(s[..i + 1]) == DigitsOf(s[..i]) + [IndexOf(s[i])];
    ValueSnoc(DigitsOf(s[..i]), IndexOf(s[i]), 58);
  }

  lemma LeadingOnes(s: string, k: nat)
    requires k <= |s| && InAlphabet(s)
    requires forall i :: 0 <= i < k ==> s[i] == '1'
    requires k < |s| ==> s[k] != '1'
    ensures LeadingZeros(DigitsOf(s)) == k
  {
    var z := LeadingZeros(DigitsOf(s));
  }

  function Reversed(s: string): (r: string)
    ensures |r| == |s| && forall i :: 0 <= i < |s| ==> r[i] == s[|s| - 1 - i]
  {
    seq(|s|, i requires 0 <= i < |s| => s[|s| - 1 - i])
  }

  method EncodeBase58(b: seq<byte>) returns (s: string)
    ensures s == Encode(b)
  {
    var n: nat := Value(b, 256);
    var digits := LowDigitsFirst(n);
    var result := AppendOnes(b, digits);
    assert Reversed(result) == Symbols(Repeat(0, LeadingZeros(b))) + Reversed(digits);
    SymbolsAppend(Repeat(0, LeadingZeros(b)), Digits(n, 58));
    s := Reverse(result);
  }

  /** The repeated division. */
  method LowDigitsFirst(value: nat) returns (result: string)
    ensures Reversed(result) == Symbols(Digits(value, 58))
  {
    var n := value;
    result := [];
    while n > 0
      invariant Symbols(Digits(value, 58)) == Symbols(Digits(n, 58)) + Reversed(result)
    {
      LastDigitFirst(Digits(n / 58, 58), n % 58, result);
      AlphabetSymbol(n % 58);
      result := result + [ALPHABET[n % 58]];
      n := n / 58;
    }
  }

  /** One '1' for each leading zero byte. */
  method AppendOnes(b: seq<byte>, digits: string) returns (result: string)
    ensures result == digits + Repeat('1', LeadingZeros(b))
  {
    result := digits;
    var k := 0;
    while k < |b| && b[k] == 0
      invariant k <= |b| && forall i :: 0 <= i < k ==> b[i] == 0
      invariant result == digits + Repeat('1', k)
    {
      result := result + ['1'];
      k := k + 1;
    }
    assert k == LeadingZeros(b);
  }

  lemma SymbolsAppend(a: seq<nat>, b: seq<nat>)
    requires AreDigits(a, 58) && AreDigits(b, 58)
    ensures AreDigits(a + b, 58) && Symbols(a + b) == Symbols(a) + Symbols(b)
  {
  }

  /** Swaps the two ends towards the middle. */
  method Reverse(s: string) returns (result: string)
    ensures result == Reversed(s)
  {
    result := s;
    var i, j := 0, |result| - 1;
    while i < j
      invariant 0 <= i <= j + 1 && i + j == |s| - 1 && |result| == |s|
      invariant forall k :: i <= k <= j ==> result[k] == s[k]
      invariant forall k :: 0 <= k < i || j < k < |s| ==> result[k] == s[|s| - 1 - k]
    {
      result := result[i := result[j]][j := result[i]];
      i, j := i + 1, j - 1;
    }
  }

  lemma LastDigitFirst(front: seq<nat>, d: nat, result: string)
    requires AreDigits(front + [d], 58)
    ensures d < 58 && AreDigits(front, 58)
    ensures Symbols(front + [d]) + Reversed(result) == Symbols(front) + Reversed(result + [Symbol(d)])
  {
    assert (front + [d])[|front|] == d;
    assert forall i :: 0 <= i < |front| ==> front[i] == (front + [d])[i];
    assert Reversed(result + [Symbol(d)]) == [Symbol(d)] + Reversed(result);
    assert Symbols(front + [d]) == Symbols(front) + [Symbol(d)];
  }

  // ----- Each direction undoes the other -----

  lemma SymbolsOfDigits(s: string)
    requires InAlphabet(s)
    ensures Symbols(DigitsOf(s)) == s
  {
  }

  lemma DigitsOfSymbols(ds: seq<nat>)
    requires AreDigits(ds, 58)
    ensures InAlphabet(Symbols(ds)) && DigitsOf(Symbols(ds)) == ds
  {
  }

  /** What is decoded at all: up to 128 characters of the alphabet. */
  lemma Decodes(s: string)
    ensures Decode(s).Ok? <==> |s| <= 128 && forall i :: 0 <= i < |s| ==> s[i] in ALPHABET
  {
    forall i | 0 <= i < |s| ensures IndexOf(s[i]) >= 0 <==> s[i] in ALPHABET {
      IndexInverts(-1, s[i]);
    }
  }

  lemma EncodeUndoesDecode(s: string)
    requires Decode(s).Ok?
    ensures Encode(Decode(s).value) == s
  {
    var ds := DigitsOf(s);
    ValueOfNumeral(LeadingZeros(ds), Value(ds, 58), 256);
    NumeralOfValue(ds, 58);
    SymbolsOfDigits(s);
  }

  /** Decoding an encoding fails only at the length cap. */
  lemma DecodeUndoesEncode(b: seq<byte>)
    ensures Decode(Encode(b)) == if |Encode(b)| <= 128 then Ok(b) else Err(Malformed)
  {
    var ds := Numeral(LeadingZeros(b), Value(b, 256), 58);
    DigitsOfSymbols(ds);
    ValueOfNumeral(LeadingZeros(b), Value(b, 256), 58);
    NumeralOfValue(b, 256);
  }

  /** Each byte string has one accepted base58 string. */
  lemma DecodeInjective(s: string, t: string)
    requires Decode(s).Ok? && Decode(s) == Decode(t)
    ensures s == t
  {
    EncodeUndoesDecode(s);
    EncodeUndoesDecode(t);
  }

  // ----- Lengths -----

  /** Base58 is never shorter than the bytes, and stays within any length that covers them all. */
  lemma EncodedLength(b: seq<byte>, limit: nat)
    requires Pow(256, |b|) <= Pow(58, limit)
    ensures |b| <= |Encode(b)| <= limit
  {
    NumeralOfValue(b, 256);
    DigitCounts(LeadingZeros(b), Value(b, 256), limit);
  }

  lemma DigitCounts(k: nat, n: nat, limit: nat)
    requires Pow(256, k + |Digits(n, 256)|) <= Pow(58, limit)
    ensures |Digits(n, 256)| <= |Digits(n, 58)| <= limit - k
  {
    var d58, d256 := |Digits(n, 58)|, |Digits(n, 256)|;
    DigitsBracket(n, 58);
    DigitsBracket(n, 256);
    PowMonotoneBase(58, 256, d58);
    PowMonotoneBase(58, 256, k);
    if n > 0 {
      PowOrder(256, d256 - 1, d58);
      BelowShifted(n, k, d58 - 1, d256);
      PowOrder(58, d58 - 1 + k, limit);
    } else {
      PowOrder(58, limit, k);
    }
  }

  /** 58^(e + k) <= n * 58^k < 256^d * 256^k */
  lemma BelowShifted(n: nat, k: nat, e: nat, d: nat)
    requires Pow(58, e) <= n < Pow(256, d)
    ensures Pow(58, e + k) < Pow(256, k + d)
  {
    PowAdd(58, e, k);
    PowAdd(256, k, d);
    PowPositive(58, k);
    PowMonotoneBase(58, 256, k);
    ProductBelow(Pow(58, e), n, Pow(256, d), Pow(58, k), Pow(256, k));
  }

  lemma ProductBelow(a: nat, n: nat, r: nat, p: nat, q: nat)
    requires a <= n < r && 1 <= p <= q
    ensures a * p < q * r
  {
    MulMonotone(a, n, p);
    MulMonotone(n + 1, r, p);
    assert (n + 1) * p == n * p + p;
    MulMonotone(p, q, r);
  }

  lemma KeysCovered(bytes: nat, symbols: nat)
    requires bytes == 32 && symbols == 44
    ensures Pow(256, bytes) <= Pow(58, symbols)
  {
    assert Pow(256, 8) <= Pow(58, 11);
    PowScaled(256, 8, 58, 11, 4);
  }

  lemma CapCovers(bytes: nat, symbols: nat)
    requires bytes == 93 && symbols == 128
    ensures Pow(256, bytes) <= Pow(58, symbols)
  {
    assert Pow(2, 8) == 256 by { assert Pow(2, 4) == 16; PowAdd(2, 4, 4); }
    SixteenSymbols(93, 16);
    PowScaled(2, bytes, 58, 16, 8);
    PowPow(2, 8, bytes);
  }

  /** 2^93 = 512^10 * 8 <= (58^4)^4 = 58^16 */
  lemma SixteenSymbols(bits: nat, symbols: nat)
    requires bits == 93 && symbols == 16
    ensures Pow(2, bits) <= Pow(58, symbols)
  {
    assert Pow(2, 3) == 8 && Pow(2, 9) == 512 && Pow(58, 4) == 11316496;
    assert Pow(512, 10) * 8 <= Pow(11316496, 4);
    PowPow(2, 9, 10);
    PowAdd(2, bits - 3, 3);
    PowPow(58, 4, 4);
  }

  /** A key has 32 to 44 symbols, and the cap rejects no encoding of up to 93 bytes. */
  lemma KeyLength(b: seq<byte>)
    ensures |b| == 32 ==> 32 <= |Encode(b)| <= 44
    ensures |b| <= 93 ==> |Encode(b)| <= 128 && Decode(Encode(b)) == Ok(b)
  {
    if |b| == 32 {
      KeysCovered(32, 44);
      EncodedLength(b, 44);
    }
    if |b| <= 93 {
      CapCovers(93, 128);
      if |b| < 93 { PowOrder(256, |b|, 93); }
      EncodedLength(b, 128);
      DecodeUndoesEncode(b);
    }
  }

  lemma AddressLength(s: string)
    requires Decode(s).Ok? && |Decode(s).value| == 32
    ensures 32 <= |s| <= 44
  {
    EncodeUndoesDecode(s);
    KeyLength(Decode(s).value);
  }
}
