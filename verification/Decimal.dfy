/** Decimal digits of natural numbers. */
module Decimal {
  import opened Base

  type Digit = d: int | 0 <= d < 10

  function Pow10(k: nat): (p: nat)
    ensures p > 0
  {
    if k == 0 then 1 else 10 * Pow10(k - 1)
  }

  /** Without leading zeros, as a bigint or an integer number prints. */
  function Digits(n: nat): (ds: seq<Digit>)
    ensures ds != [] && (|ds| > 1 ==> ds[0] != 0)
  {
    if n < 10 then [n] else Digits(n / 10) + [n % 10]
  }

  function ToNat(ds: seq<Digit>): nat {
    if ds == [] then 0 else ToNat(ds[..|ds| - 1]) * 10 + ds[|ds| - 1]
  }

  lemma {:induction false} ToNatDigits(n: nat)
    ensures ToNat(Digits(n)) == n
  {
    if n >= 10 {
      ToNatDigits(n / 10);
      assert (Digits(n / 10) + [n % 10])[..|Digits(n / 10)|] == Digits(n / 10);
    }
  }

  lemma {:induction false} ToNatPositive(ds: seq<Digit>)
    requires ds != [] && ds[0] != 0
    ensures ToNat(ds) > 0
  {
    if |ds| > 1 {
      ToNatPositive(ds[..|ds| - 1]);
    }
  }

  lemma {:induction false} DigitsToNat(ds: seq<Digit>)
    requires ds != [] && (|ds| > 1 ==> ds[0] != 0)
    ensures Digits(ToNat(ds)) == ds
  {
    if |ds| > 1 {
      var front := ds[..|ds| - 1];
      DigitsToNat(front);
      ToNatPositive(front);
      assert ds == front + [ds[|ds| - 1]];
    }
  }

  lemma DigitsInjective(m: nat, n: nat)
    requires Digits(m) == Digits(n)
    ensures m == n
  {
    ToNatDigits(m);
    ToNatDigits(n);
  }

  lemma {:induction false} ToNatConcat(a: seq<Digit>, b: seq<Digit>)
    ensures ToNat(a + b) == ToNat(a) * Pow10(|b|) + ToNat(b)
  {
    if b == [] {
      assert a + b == a;
    } else {
      var front := b[..|b| - 1];
      ToNatConcat(a, front);
      assert (a + b)[..|a + b| - 1] == a + front;
      assert (ToNat(a) * Pow10(|front|)) * 10 == ToNat(a) * Pow10(|b|);
    }
  }

  lemma {:induction false} ToNatBound(ds: seq<Digit>)
    ensures ToNat(ds) < Pow10(|ds|)
  {
    if ds != [] {
      ToNatBound(ds[..|ds| - 1]);
    }
  }

  function Zeros(k: nat): (ds: seq<Digit>)
    ensures |ds| == k && forall i | 0 <= i < k :: ds[i] == 0
  {
    seq(k, _ => 0)
  }

  lemma {:induction false} ToNatZeros(k: nat)
    ensures ToNat(Zeros(k)) == 0
  {
    if k > 0 {
      ToNatZeros(k - 1);
      assert Zeros(k)[..k - 1] == Zeros(k - 1);
    }
  }

  // ---------------------------------------------------------------------
  // As JavaScript prints numbers and literals
  // ---------------------------------------------------------------------

  const COMMA: byte := 44
  const MINUS: byte := 45
  const TRUE_TEXT: Bytes := [116, 114, 117, 101]
  const FALSE_TEXT: Bytes := [102, 97, 108, 115, 101]
  const NULL_TEXT: Bytes := [110, 117, 108, 108]

  function DigitByte(d: int): byte
    requires 0 <= d < 10
  {
    48 + d
  }

  function DigitText(ds: seq<Digit>): (t: Bytes)
    ensures |t| == |ds|
    ensures forall i | 0 <= i < |t| :: t[i] == DigitByte(ds[i])
  {
    seq(|ds|, i requires 0 <= i < |ds| => DigitByte(ds[i]))
  }

  function NumberText(n: int): Bytes {
    if n < 0 then [MINUS] + DigitText(Digits(-n)) else DigitText(Digits(n))
  }
}
