/** Big-endian positional numerals: what big.Int.SetBytes, Bytes and repeated DivMod compute. */
module Numerals {
  import opened Wrappers

  function Pow(base: nat, e: nat): nat {
    if e == 0 then 1 else base * Pow(base, e - 1)
  }

  ghost predicate AreDigits(ds: seq<nat>, base: nat) {
    forall i :: 0 <= i < |ds| ==> ds[i] < base
  }

  /** The number a digit string denotes, most significant digit first. */
  function Value(ds: seq<nat>, base: nat): nat {
    if ds == [] then 0 else Value(ds[..|ds| - 1], base) * base + ds[|ds| - 1]
  }

  /** The shortest digit string for n; zero is the empty string. */
  function Digits(n: nat, base: nat): (ds: seq<nat>)
    requires base >= 2
    ensures forall i :: 0 <= i < |ds| ==> ds[i] < base
    ensures |ds| > 0 ==> ds[0] != 0
    ensures n == 0 <==> ds == []
  {
    if n == 0 then [] else Digits(n / base, base) + [n % base]
  }

  function LeadingZeros(ds: seq<nat>): (k: nat)
    ensures k <= |ds|
    ensures forall i :: 0 <= i < k ==> ds[i] == 0
    ensures k < |ds| ==> ds[k] != 0
  {
    if ds == [] || ds[0] != 0 then 0 else 1 + LeadingZeros(ds[1..])
  }

  /** Leading zeros followed by a shortest numeral: the one digit string with k leading zeros and value n. */
  function Numeral(k: nat, n: nat, base: nat): (ds: seq<nat>)
    requires base >= 2
    ensures AreDigits(ds, base)
  {
    Repeat(0, k) + Digits(n, base)
  }

  lemma ValueSnoc(ds: seq<nat>, d: nat, base: nat)
    ensures Value(ds + [d], base) == Value(ds, base) * base + d
  {
    assert (ds + [d])[..|ds|] == ds;
  }

  lemma {:induction false} ValueOfDigits(n: nat, base: nat)
    requires base >= 2
    ensures Value(Digits(n, base), base) == n
    decreases n
  {
    if n > 0 {
      ValueOfDigits(n / base, base);
      LastDigit(n, base, n / base, n % base);
    }
  }

  lemma LastDigit(n: nat, base: nat, q: nat, r: nat)
    requires base >= 2 && n > 0 && q == n / base && r == n % base && Value(Digits(q, base), base) == q
    ensures Value(Digits(n, base), base) == n
  {
    DivMod(n, base);
    ValueAppended(Digits(q, base), r, base, q, n);
  }

  /** One digit more, with the product kept apart from the division it comes from. */
  lemma ValueAppended(ds: seq<nat>, r: nat, base: nat, q: nat, n: nat)
    requires Value(ds, base) == q && n == q * base + r
    ensures Value(ds + [r], base) == n
  {
    ValueSnoc(ds, r, base);
  }

  lemma {:induction false} ValueOfPadded(k: nat, ds: seq<nat>, base: nat)
    ensures Value(Repeat(0, k) + ds, base) == Value(ds, base)
  {
    var padded := Repeat(0, k) + ds;
    if ds != [] {
      assert padded[..|padded| - 1] == Repeat(0, k) + ds[..|ds| - 1];
      ValueOfPadded(k, ds[..|ds| - 1], base);
    } else if k > 0 {
      assert padded[..|padded| - 1] == Repeat(0, k - 1) + ds;
      ValueOfPadded(k - 1, ds, base);
    }
  }

  /** A digit string is recovered from its leading zeros and its value ... */
  lemma {:induction false} NumeralOfValue(ds: seq<nat>, base: nat)
    requires base >= 2 && AreDigits(ds, base)
    ensures Numeral(LeadingZeros(ds), Value(ds, base), base) == ds
  {
    if ds != [] {
      var init, last := ds[..|ds| - 1], ds[|ds| - 1];
      NumeralOfValue(init, base);
      var q, n := Value(init, base), Value(ds, base);
      assert n / base == q && n % base == last by { DivModUnique(q, last, base); }
      if LeadingZeros(ds) == |ds| {
        assert LeadingZeros(init) == |init|;
        assert |Digits(q, base)| == 0;
      } else {
        assert n > 0 by {
          if q == 0 { assert Digits(q, base) == []; assert LeadingZeros(init) == |init|; }
        }
        assert LeadingZeros(init) == LeadingZeros(ds);
      }
    }
  }

  /** ... and every pair of a zero count and a value is hit. */
  lemma ValueOfNumeral(k: nat, n: nat, base: nat)
    requires base >= 2
    ensures Value(Numeral(k, n, base), base) == n
    ensures LeadingZeros(Numeral(k, n, base)) == k
  {
    ValueOfPadded(k, Digits(n, base), base);
    ValueOfDigits(n, base);
    var ds := Numeral(k, n, base);
    assert forall i :: 0 <= i < k ==> ds[i] == 0;
    assert k < |ds| ==> ds[k] == Digits(n, base)[0];
  }

  // ----- Small arithmetic, kept apart because products of variables are costly -----

  lemma MulMonotone(a: nat, b: nat, c: nat)
    requires a <= b
    ensures a * c <= b * c
  {
    assert b * c == a * c + (b - a) * c;
  }

  lemma DivMod(n: nat, base: nat)
    requires base >= 1
    ensures n == n / base * base + n % base
  {
  }

  lemma DivModUnique(q: nat, r: nat, base: nat)
    requires base >= 1 && r < base
    ensures (q * base + r) / base == q && (q * base + r) % base == r
  {
    var n := q * base + r;
    var p := n / base;
    DivMod(n, base);
    if p < q {
      MulMonotone(p + 1, q, base);
      assert false;
    } else if p > q {
      MulMonotone(q + 1, p, base);
      assert false;
    }
  }

  // ----- Sizes -----

  lemma {:induction false} PowPositive(base: nat, e: nat)
    requires base >= 1
    ensures Pow(base, e) >= 1
  {
    if e > 0 {
      PowPositive(base, e - 1);
      MulMonotone(1, base, Pow(base, e - 1));
    }
  }

  lemma {:induction false} PowAdd(base: nat, a: nat, b: nat)
    ensures Pow(base, a + b) == Pow(base, a) * Pow(base, b)
  {
    if a > 0 {
      PowAdd(base, a - 1, b);
      MulAssociates(base, Pow(base, a - 1), Pow(base, b));
    }
  }

  lemma MulAssociates(a: nat, b: nat, c: nat)
    ensures a * (b * c) == a * b * c
  {
  }

  lemma {:induction false} PowPow(base: nat, a: nat, b: nat)
    ensures Pow(base, a * b) == Pow(Pow(base, a), b)
  {
    if b > 0 {
      PowPow(base, a, b - 1);
      assert a * b == a * (b - 1) + a;
      PowAdd(base, a, a * (b - 1));
    }
  }

  lemma {:induction false} PowMonotoneBase(a: nat, b: nat, e: nat)
    requires a <= b
    ensures Pow(a, e) <= Pow(b, e)
  {
    if e > 0 {
      PowMonotoneBase(a, b, e - 1);
      MulMonotone(a, b, Pow(a, e - 1));
      MulMonotone(Pow(a, e - 1), Pow(b, e - 1), b);
    }
  }

  lemma {:induction false} PowStrict(base: nat, a: nat, b: nat)
    requires base >= 2 && a < b
    ensures Pow(base, a) < Pow(base, b)
  {
    PowPositive(base, b - 1);
    MulMonotone(2, base, Pow(base, b - 1));
    if a < b - 1 {
      PowStrict(base, a, b - 1);
    }
  }

  lemma PowScaled(a: nat, p: nat, b: nat, q: nat, r: nat)
    requires Pow(a, p) <= Pow(b, q)
    ensures Pow(a, p * r) <= Pow(b, q * r)
  {
    PowPow(a, p, r);
    PowPow(b, q, r);
    PowMonotoneBase(Pow(a, p), Pow(b, q), r);
  }

  /** Powers are ordered as their exponents. */
  lemma PowOrder(base: nat, a: nat, b: nat)
    requires base >= 2
    ensures a < b <==> Pow(base, a) < Pow(base, b)
  {
    if a < b {
      PowStrict(base, a, b);
    } else if b < a {
      PowStrict(base, b, a);
    }
  }

  /** |Digits(n)| brackets n between neighbouring powers of the base. */
  lemma {:induction false} DigitsBracket(n: nat, base: nat)
    requires base >= 2
    ensures n < Pow(base, |Digits(n, base)|)
    ensures n > 0 ==> Pow(base, |Digits(n, base)| - 1) <= n
  {
    if n > 0 {
      DigitsBracket(n / base, base);
      DivMod(n, base);
      BracketStep(n / base, n % base, base, |Digits(n / base, base)|);
    }
  }

  lemma BracketStep(q: nat, r: nat, base: nat, k: nat)
    requires r < base && q < Pow(base, k)
    requires q > 0 ==> k > 0 && Pow(base, k - 1) <= q
    requires q == 0 ==> k == 0
    requires q * base + r > 0
    ensures Pow(base, k) <= q * base + r < Pow(base, k + 1)
  {
    MulMonotone(q + 1, Pow(base, k), base);
    if q > 0 {
      MulMonotone(Pow(base, k - 1), q, base);
    }
  }
}
