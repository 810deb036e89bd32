/** Fixed-width machine words as bit strings, least significant bit first, the order FIPS 202 numbers bits in. */
module Words {
  type Bits = seq<bool>

  function Zeros(n: nat): (z: Bits)
    ensures |z| == n && forall i :: 0 <= i < n ==> !z[i]
  {
    seq(n, _ => false)
  }

  function Xor(a: Bits, b: Bits): (c: Bits)
    requires |a| == |b|
    ensures |c| == |a| && forall i :: 0 <= i < |a| ==> c[i] == (a[i] != b[i])
  {
    seq(|a|, i requires 0 <= i < |a| => a[i] != b[i])
  }

  function And(a: Bits, b: Bits): (c: Bits)
    requires |a| == |b|
    ensures |c| == |a| && forall i :: 0 <= i < |a| ==> c[i] == (a[i] && b[i])
  {
    seq(|a|, i requires 0 <= i < |a| => a[i] && b[i])
  }

  function Or(a: Bits, b: Bits): (c: Bits)
    requires |a| == |b|
    ensures |c| == |a| && forall i :: 0 <= i < |a| ==> c[i] == (a[i] || b[i])
  {
    seq(|a|, i requires 0 <= i < |a| => a[i] || b[i])
  }

  function Not(a: Bits): (c: Bits)
    ensures |c| == |a| && forall i :: 0 <= i < |a| ==> c[i] == !a[i]
  {
    seq(|a|, i requires 0 <= i < |a| => !a[i])
  }

  /** a << n within the width of a. */
  function ShiftLeft(a: Bits, n: nat): (c: Bits)
    ensures |c| == |a| && forall i :: 0 <= i < |a| ==> c[i] == (i >= n && a[i - n])
  {
    seq(|a|, i requires 0 <= i < |a| => i >= n && a[i - n])
  }

  /** a >>> n */
  function ShiftRight(a: Bits, n: nat): (c: Bits)
    ensures |c| == |a| && forall i :: 0 <= i < |a| ==> c[i] == (i + n < |a| && a[i + n])
  {
    seq(|a|, i requires 0 <= i < |a| => i + n < |a| && a[i + n])
  }

  /** The bits of a number, width of them. */
  function FromNat(n: nat, width: nat): (c: Bits)
    ensures |c| == width
  {
    if width == 0 then [] else [n % 2 == 1] + FromNat(n / 2, width - 1)
  }

  lemma FromNatStep(b: bool, m: nat, n: nat, width: nat)
    requires width > 0 && n == (if b then 1 else 0) + 2 * m
    ensures FromNat(n, width) == [b] + FromNat(m, width - 1)
  {
  }

  lemma {:induction false} FromNatScaled(m: nat, k: nat, width: nat)
    requires k <= width
    ensures FromNat(m * PowerOfTwo(k), width) == Zeros(k) + FromNat(m, width - k)
  {
    if k > 0 {
      Doubled(m, PowerOfTwo(k - 1));
      FromNatStep(false, m * PowerOfTwo(k - 1), m * PowerOfTwo(k), width);
      FromNatScaled(m, k - 1, width - 1);
      assert [false] + Zeros(k - 1) == Zeros(k);
    } else {
      assert Zeros(0) + FromNat(m, width) == FromNat(m, width);
    }
  }

  lemma Doubled(m: nat, p: nat)
    ensures m * (2 * p) == 2 * (m * p)
  {
  }

  function PowerOfTwo(k: nat): nat {
    if k == 0 then 1 else 2 * PowerOfTwo(k - 1)
  }

  lemma {:induction false} PowerAdd(a: nat, b: nat)
    ensures PowerOfTwo(a + b) == PowerOfTwo(a) * PowerOfTwo(b)
  {
    if a > 0 {
      PowerAdd(a - 1, b);
    }
  }
}
