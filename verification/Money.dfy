/** Amounts as texts and as exact integer units, and the ways between them. */
module Money {
  import opened Base
  import opened Formats
  import opened Decimal

  const STROOP_DECIMALS := 7

  datatype AmountError = NotADecimal | BadDecimals | TooPrecise | NotPositive | CannotRepresent | OutOfRange

  // ---------------------------------------------------------------------
  // Texts and digits
  // ---------------------------------------------------------------------

  predicate IsDigit(c: char) {
    '0' <= c <= '9'
  }

  predicate AllDigits(s: string) {
    forall c | c in s :: IsDigit(c)
  }

  function CharDigit(c: char): Digit
    requires IsDigit(c)
  {
    c as int - '0' as int
  }

  function DigitsOf(s: string): (ds: seq<Digit>)
    requires AllDigits(s)
    ensures |ds| == |s|
  {
    seq(|s|, i requires 0 <= i < |s| => assert s[i] in s; CharDigit(s[i]))
  }

  function Text(ds: seq<Digit>): (s: string)
    ensures |s| == |ds| && AllDigits(s)
  {
    seq(|ds|, i requires 0 <= i < |ds| => (ds[i] + '0' as int) as char)
  }

  lemma TextDigits(s: string, ds: seq<Digit>)
    requires AllDigits(s)
    ensures s == Text(ds) <==> DigitsOf(s) == ds
  {
    if DigitsOf(s) == ds {
      forall i | 0 <= i < |s| ensures s[i] == Text(ds)[i] {
        assert DigitsOf(s)[i] == ds[i];
      }
    }
  }

  /** Up to the first point. */
  function Whole(s: string): (w: string)
    ensures '.' !in w && w <= s && (|w| < |s| ==> s[|w|] == '.')
  {
    if s == "" || s[0] == '.' then "" else [s[0]] + Whole(s[1..])
  }

  /** Between the first point and the second; empty when there is none. */
  function Fraction(s: string): (f: string)
    ensures '.' !in f
  {
    if |Whole(s)| < |s| then Whole(s[|Whole(s)| + 1..]) else ""
  }

  function Join(whole: string, fraction: string): string {
    if fraction == "" then whole else whole + "." + fraction
  }

  lemma {:induction false} WholeOf(w: string, rest: string)
    requires '.' !in w && (rest != "" ==> rest[0] == '.')
    ensures Whole(w + rest) == w
  {
    if w == "" {
      assert w + rest == rest;
    } else {
      WholeOf(w[1..], rest);
      assert (w + rest)[1..] == w[1..] + rest;
      assert w == [w[0]] + w[1..];
    }
  }

  lemma SplitJoined(w: string, f: string)
    requires '.' !in w && '.' !in f
    ensures Whole(Join(w, f)) == w && Fraction(Join(w, f)) == f
  {
    if f == "" {
      WholeOf(w, "");
      assert w + "" == w;
    } else {
      WholeOf(w, "." + f);
      assert w + ("." + f) == w + "." + f;
      assert (w + "." + f)[|w| + 1..] == f;
      WholeOf(f, "");
      assert f + "" == f;
    }
  }

  /** Digits, and perhaps a point and more digits. */
  predicate PlainDecimal(s: string) {
    && s == Join(Whole(s), Fraction(s)) && Whole(s) != ""
    && AllDigits(Whole(s)) && AllDigits(Fraction(s))
  }

  /** The payment schema's form: no needless zero at either end. */
  predicate Canonical(s: string) {
    && PlainDecimal(s)
    && (|Whole(s)| > 1 ==> Whole(s)[0] != '0')
    && (Fraction(s) != "" ==> Fraction(s)[|Fraction(s)| - 1] != '0')
  }

  // ---------------------------------------------------------------------
  // Stripping and padding zeros
  // ---------------------------------------------------------------------

  /** Leading zeros go as long as a digit follows. */
  function StripLeft(ds: seq<Digit>): (r: seq<Digit>)
    ensures ds != [] ==> r != []
    ensures |r| > 1 ==> r[0] != 0
  {
    if |ds| > 1 && ds[0] == 0 then StripLeft(ds[1..]) else ds
  }

  function StripRight(ds: seq<Digit>): (r: seq<Digit>)
    ensures |r| <= |ds| && (r != [] ==> r[|r| - 1] != 0)
  {
    if ds != [] && ds[|ds| - 1] == 0 then StripRight(ds[..|ds| - 1]) else ds
  }

  function PadEnd(ds: seq<Digit>, p: nat): (r: seq<Digit>)
    ensures |r| == Max(|ds|, p)
  {
    ds + Zeros(Max(0, p - |ds|))
  }

  function PadStart(ds: seq<Digit>, p: nat): (r: seq<Digit>)
    ensures |r| == Max(|ds|, p)
  {
    Zeros(Max(0, p - |ds|)) + ds
  }

  lemma {:induction false} StripLeftKeeps(ds: seq<Digit>)
    ensures ToNat(StripLeft(ds)) == ToNat(ds)
  {
    if |ds| > 1 && ds[0] == 0 {
      StripLeftKeeps(ds[1..]);
      ToNatConcat([0], ds[1..]);
      assert ds == [0] + ds[1..];
      assert ToNat([0]) == 0;
    }
  }

  /** Stripping and padding back gives what padding alone gives. */
  lemma {:induction false} StripRightPads(ds: seq<Digit>, p: nat)
    requires |ds| <= p
    ensures PadEnd(StripRight(ds), p) == PadEnd(ds, p)
  {
    if ds != [] && ds[|ds| - 1] == 0 {
      var front := ds[..|ds| - 1];
      StripRightPads(front, p);
      assert ds == front + [0];
      assert Zeros(p - |front|) == [0] + Zeros(p - |ds|);
    }
  }

  lemma {:induction false} StripRightUndoes(ds: seq<Digit>, p: nat)
    requires |ds| <= p && (ds != [] ==> ds[|ds| - 1] != 0)
    ensures StripRight(PadEnd(ds, p)) == ds
  {
    if |ds| == p {
      assert PadEnd(ds, p) == ds;
    } else {
      StripRightUndoes(ds, p - 1);
      assert PadEnd(ds, p)[..p - 1] == PadEnd(ds, p - 1);
    }
  }

  /** The number of p digits, written with p digits, is those digits. */
  lemma {:induction false} PadDigits(ds: seq<Digit>)
    requires ds != []
    ensures PadStart(Digits(ToNat(ds)), |ds|) == ds
  {
    var front, last := ds[..|ds| - 1], ds[|ds| - 1];
    assert ds == front + [last];
    if front == [] {
      assert ToNat(ds) == last;
    } else {
      PadDigits(front);
      PadOneMore(ToNat(front), last, |front|);
    }
  }

  lemma PadOneMore(n: nat, d: Digit, k: nat)
    requires k > 0 && |Digits(n)| <= k
    ensures PadStart(Digits(n * 10 + d), k + 1) == PadStart(Digits(n), k) + [d]
  {
    if n == 0 {
      assert Digits(n * 10 + d) == [d] && Digits(n) == [0];
      assert Zeros(k) == Zeros(k - 1) + [0];
    } else {
      assert (n * 10 + d) / 10 == n && (n * 10 + d) % 10 == d;
      assert Digits(n * 10 + d) == Digits(n) + [d];
    }
  }

  lemma {:induction false} DigitsFit(n: nat, p: nat)
    requires p > 0 && n < Pow10(p)
    ensures |Digits(n)| <= p
  {
    if n >= 10 {
      assert Pow10(p) == 10 * Pow10(p - 1);
      if p > 1 {
        DigitsFit(n / 10, p - 1);
      }
    }
  }

  lemma {:induction false} PadStartKeeps(ds: seq<Digit>, p: nat)
    ensures ToNat(PadStart(ds, p)) == ToNat(ds)
  {
    ToNatConcat(Zeros(Max(0, p - |ds|)), ds);
    ToNatZeros(Max(0, p - |ds|));
  }

  // ---------------------------------------------------------------------
  // Units
  // ---------------------------------------------------------------------

  /** A decimal in units of 10^-p. */
  function Units(whole: seq<Digit>, fraction: seq<Digit>, p: nat): nat {
    ToNat(whole) * Pow10(p) + ToNat(PadEnd(fraction, p))
  }

  /** The value of a decimal text in units of 10^-p. */
  function UnitsOf(s: string, p: nat): nat
    requires AllDigits(Whole(s)) && AllDigits(Fraction(s))
  {
    Units(DigitsOf(Whole(s)), DigitsOf(Fraction(s)), p)
  }

  /** n / 10^p, taken one digit at a time. */
  function Quotient(n: nat, p: nat): nat {
    if p == 0 then n else Quotient(n / 10, p - 1)
  }

  /** n % 10^p. */
  function Remainder(n: nat, p: nat): nat {
    if p == 0 then 0 else Remainder(n / 10, p - 1) * 10 + n % 10
  }

  lemma {:induction false} Division(n: nat, p: nat)
    ensures n == Quotient(n, p) * Pow10(p) + Remainder(n, p) && Remainder(n, p) < Pow10(p)
  {
    if p > 0 {
      Division(n / 10, p - 1);
      OneDigitMore(n / 10, n % 10, Quotient(n / 10, p - 1), Pow10(p - 1), Remainder(n / 10, p - 1));
    }
  }

  lemma OneDigitMore(t: nat, d: Digit, q: nat, m: nat, r: nat)
    requires t == q * m + r && r < m
    ensures t * 10 + d == q * (10 * m) + (r * 10 + d) && r * 10 + d < 10 * m
  {
    assert (q * m) * 10 == q * (10 * m);
  }

  lemma UniqueDivision(a: nat, b: nat, c: nat, d: nat, q: nat)
    requires a * q + b == c * q + d && b < q && d < q
    ensures a == c && b == d
  {
    if a < c {
      Multiples(a, c, q);
    } else if c < a {
      Multiples(c, a, q);
    }
  }

  /** Both are what the big integers' own division gives. */
  lemma QuotientIsDivision(n: nat, p: nat)
    ensures Quotient(n, p) == n / Pow10(p) && Remainder(n, p) == n % Pow10(p)
  {
    Division(n, p);
    Euclid(n, Pow10(p));
    UniqueDivision(Quotient(n, p), Remainder(n, p), n / Pow10(p), n % Pow10(p), Pow10(p));
  }

  /** Units written out with p decimals, trailing zeros dropped. */
  function FormatUnits(n: nat, p: nat): string {
    Join(Text(Digits(Quotient(n, p))), Text(StripRight(PadStart(Digits(Remainder(n, p)), p))))
  }

  lemma PartsOfUnits(whole: seq<Digit>, fraction: seq<Digit>, p: nat)
    requires |fraction| <= p
    ensures Quotient(Units(whole, fraction, p), p) == ToNat(whole)
    ensures Remainder(Units(whole, fraction, p), p) == ToNat(PadEnd(fraction, p))
  {
    var n := Units(whole, fraction, p);
    ToNatBound(PadEnd(fraction, p));
    Division(n, p);
    UniqueDivision(Quotient(n, p), Remainder(n, p), ToNat(whole), ToNat(PadEnd(fraction, p)), Pow10(p));
  }

  /** The fraction of a canonical decimal survives padding, numbering, printing and stripping. */
  lemma FractionSurvives(f: seq<Digit>, p: nat)
    requires |f| <= p && (f != [] ==> f[|f| - 1] != 0)
    ensures StripRight(PadStart(Digits(ToNat(PadEnd(f, p))), p)) == f
  {
    StripRightUndoes(f, p);
    if p > 0 {
      PadDigits(PadEnd(f, p));
    } else {
      assert PadEnd(f, 0) == [] && Digits(0) == [0] && PadStart([0], 0) == [0];
      assert [0][..0] == [];
    }
  }

  /** Formatting the units of a canonical decimal gives the decimal back. */
  lemma FormatOfUnits(s: string, p: nat)
    requires Canonical(s) && |Fraction(s)| <= p
    ensures FormatUnits(UnitsOf(s, p), p) == s
  {
    var w, f := DigitsOf(Whole(s)), DigitsOf(Fraction(s));
    CanonicalDigits(s);
    PartsOfUnits(w, f, p);
    DigitsToNat(w);
    FractionSurvives(f, p);
    TextDigits(Whole(s), w);
    TextDigits(Fraction(s), f);
  }

  lemma CanonicalDigits(s: string)
    requires Canonical(s)
    ensures
      var w, f := DigitsOf(Whole(s)), DigitsOf(Fraction(s));
      w != [] && (|w| > 1 ==> w[0] != 0) && (f != [] ==> f[|f| - 1] != 0)
  {
    if |Whole(s)| > 1 {
      DigitZero(Whole(s), 0);
    }
    if Fraction(s) != "" {
      DigitZero(Fraction(s), |Fraction(s)| - 1);
    }
  }

  lemma DigitZero(s: string, i: nat)
    requires AllDigits(s) && i < |s|
    ensures DigitsOf(s)[i] == 0 <==> s[i] == '0'
  {
    assert s[i] in s;
  }

  /** Digits with no needless zero at either end make a canonical text. */
  lemma CanonicalText(w: seq<Digit>, f: seq<Digit>)
    requires w != [] && (|w| > 1 ==> w[0] != 0) && (f != [] ==> f[|f| - 1] != 0)
    ensures
      var s := Join(Text(w), Text(f));
      Canonical(s) && DigitsOf(Whole(s)) == w && DigitsOf(Fraction(s)) == f
  {
    FormatParts(w, f);
    if |w| > 1 {
      DigitZero(Text(w), 0);
    }
    if f != [] {
      DigitZero(Text(f), |f| - 1);
    }
  }

  lemma FormatParts(w: seq<Digit>, f: seq<Digit>)
    ensures Whole(Join(Text(w), Text(f))) == Text(w) && Fraction(Join(Text(w), Text(f))) == Text(f)
    ensures AllDigits(Text(w)) && DigitsOf(Text(w)) == w && AllDigits(Text(f)) && DigitsOf(Text(f)) == f
  {
    assert !IsDigit('.');
    SplitJoined(Text(w), Text(f));
    TextDigits(Text(w), w);
    TextDigits(Text(f), f);
  }

  /** The printed remainder, stripped and padded again, still counts the remainder. */
  lemma RemainderSurvives(m: nat, p: nat)
    requires m < Pow10(p)
    ensures |StripRight(PadStart(Digits(m), p))| <= p
    ensures ToNat(PadEnd(StripRight(PadStart(Digits(m), p)), p)) == m
  {
    var padded := PadStart(Digits(m), p);
    if p > 0 {
      DigitsFit(m, p);
      StripRightPads(padded, p);
      assert PadEnd(padded, p) == padded;
      PadStartKeeps(Digits(m), p);
      ToNatDigits(m);
    } else {
      assert padded == [0] && [0][..0] == [];
      assert PadEnd([], 0) == [];
    }
  }

  /** Any number of units formats canonically, with p decimals at most, and reads back as itself. */
  lemma UnitsOfFormat(n: nat, p: nat)
    ensures Canonical(FormatUnits(n, p)) && |Fraction(FormatUnits(n, p))| <= p
    ensures UnitsOf(FormatUnits(n, p), p) == n
  {
    var m := Remainder(n, p);
    Division(n, p);
    RemainderSurvives(m, p);
    ToNatDigits(Quotient(n, p));
    CanonicalText(Digits(Quotient(n, p)), StripRight(PadStart(Digits(m), p)));
  }

  // ---------------------------------------------------------------------
  // The three files' functions
  // ---------------------------------------------------------------------

  /** The two parts without needless zeros. */
  function Stripped(s: string): (string, string)
    requires PlainDecimal(s)
  {
    (Text(StripLeft(DigitsOf(Whole(s)))), Text(StripRight(DigitsOf(Fraction(s)))))
  }

  /** Keypad input in the schema's form. */
  function NormalizePaymentAmount(value: string, decimals: int): Result<string, AmountError> {
    var trimmed := Trim(value);
    if !PlainDecimal(trimmed) then Err(NotADecimal)
    else if decimals < 0 || decimals > 18 then Err(BadDecimals)
    else if |Fraction(trimmed)| > decimals then Err(TooPrecise)
    else
      var (whole, fraction) := Stripped(trimmed);
      if whole == "0" && fraction == "" then Err(NotPositive) else Ok(Join(whole, fraction))
  }

  function DecimalToContractAmount(amount: string, decimals: nat): Result<int, AmountError> {
    if Whole(amount) == "" || |Fraction(amount)| > decimals || !AllDigits(Whole(amount)) || !AllDigits(Fraction(amount))
    then Err(CannotRepresent)
    else
      var units := UnitsOf(amount, decimals);
      if units <= 0 || units > MAX_I128 then Err(OutOfRange) else Ok(units)
  }

  function FormatStroops(stroops: int): string {
    if stroops < 0 then "-" + FormatUnits(-stroops, STROOP_DECIMALS) else FormatUnits(stroops, STROOP_DECIMALS)
  }

  function ParseStroops(amount: string): Result<nat, AmountError> {
    var normalized := Trim(amount);
    if !PlainDecimal(normalized) || |Fraction(normalized)| > STROOP_DECIMALS then Err(NotADecimal)
    else Ok(UnitsOf(normalized, STROOP_DECIMALS))
  }

  // ---------------------------------------------------------------------
  // What they promise together
  // ---------------------------------------------------------------------

  lemma NothingToTrim(s: string)
    requires s != "" ==> !Blank(s[0]) && !Blank(s[|s| - 1])
    ensures Trim(s) == s
  {
  }

  lemma PlainEnds(s: string)
    requires PlainDecimal(s)
    ensures Trim(s) == s
  {
    var w, f := Whole(s), Fraction(s);
    assert s[0] == w[0] && w[0] in w;
    if f == "" {
      assert s[|s| - 1] == w[|w| - 1] && w[|w| - 1] in w;
    } else {
      assert s[|s| - 1] == f[|f| - 1] && f[|f| - 1] in f;
    }
    NothingToTrim(s);
  }

  /** Accepted input comes out canonical, no more precise than allowed, positive, and of the same value. */
  lemma NormalizeMeans(value: string, decimals: int, p: nat)
    requires NormalizePaymentAmount(value, decimals).Ok?
    ensures
      var s := NormalizePaymentAmount(value, decimals).value;
      && Canonical(s) && |Fraction(s)| <= decimals
      && (|Fraction(Trim(value))| <= p ==> UnitsOf(s, p) == UnitsOf(Trim(value), p))
      && (|Fraction(s)| <= p ==> UnitsOf(s, p) > 0)
  {
    var t := Trim(value);
    StrippedMeans(t);
    if |Fraction(t)| <= p {
      StrippingKeepsUnits(DigitsOf(Whole(t)), DigitsOf(Fraction(t)), p);
    }
    if |StripRight(DigitsOf(Fraction(t)))| <= p {
      Positive(StripLeft(DigitsOf(Whole(t))), StripRight(DigitsOf(Fraction(t))), p);
    }
  }

  lemma StrippedMeans(t: string)
    requires PlainDecimal(t)
    ensures
      var s := Join(Stripped(t).0, Stripped(t).1);
      && Canonical(s) && |Fraction(s)| <= |Fraction(t)|
      && DigitsOf(Whole(s)) == StripLeft(DigitsOf(Whole(t)))
      && DigitsOf(Fraction(s)) == StripRight(DigitsOf(Fraction(t)))
  {
    CanonicalText(StripLeft(DigitsOf(Whole(t))), StripRight(DigitsOf(Fraction(t))));
  }

  lemma StrippingKeepsUnits(w: seq<Digit>, f: seq<Digit>, p: nat)
    requires |f| <= p
    ensures Units(StripLeft(w), StripRight(f), p) == Units(w, f, p)
  {
    StripLeftKeeps(w);
    StripRightPads(f, p);
  }

  lemma Positive(w: seq<Digit>, f: seq<Digit>, p: nat)
    requires w != [] && (|w| > 1 ==> w[0] != 0) && (f != [] ==> f[|f| - 1] != 0) && |f| <= p
    ensures Units(w, f, p) > 0 <==> !(Text(w) == "0" && Text(f) == "")
  {
    ZeroText(w);
    if w != [0] {
      ToNatPositive(w);
      Multiples(0, ToNat(w), Pow10(p));
    } else if f != [] {
      EndsNonZero(f, p);
    } else {
      assert PadEnd([], p) == Zeros(p);
      ToNatZeros(p);
      assert ToNat([0]) == 0;
    }
  }

  lemma ZeroText(w: seq<Digit>)
    ensures Text(w) == "0" <==> w == [0]
  {
    assert DigitsOf("0") == [0];
    TextDigits("0", w);
  }

  lemma EndsNonZero(f: seq<Digit>, p: nat)
    requires f != [] && f[|f| - 1] != 0 && |f| <= p
    ensures ToNat(PadEnd(f, p)) > 0
  {
    ToNatConcat(f, Zeros(p - |f|));
    assert ToNat(f) >= f[|f| - 1];
    Multiples(0, ToNat(f), Pow10(p - |f|));
  }

  /** A positive canonical decimal within the precision is left alone; so normalising twice is normalising once. */
  lemma NormalizeKeepsCanonical(s: string, decimals: int)
    requires Canonical(s) && 0 <= decimals <= 18 && |Fraction(s)| <= decimals && s != "0"
    ensures NormalizePaymentAmount(s, decimals) == Ok(s)
  {
    PlainEnds(s);
    NothingToStrip(s);
  }

  lemma NothingToStrip(s: string)
    requires Canonical(s)
    ensures Text(StripLeft(DigitsOf(Whole(s)))) == Whole(s) && Text(StripRight(DigitsOf(Fraction(s)))) == Fraction(s)
  {
    var w, f := DigitsOf(Whole(s)), DigitsOf(Fraction(s));
    CanonicalDigits(s);
    assert StripLeft(w) == w && StripRight(f) == f;
    TextDigits(Whole(s), w);
    TextDigits(Fraction(s), f);
  }

  lemma NormalizeIdempotent(value: string, decimals: int)
    requires NormalizePaymentAmount(value, decimals).Ok?
    ensures NormalizePaymentAmount(NormalizePaymentAmount(value, decimals).value, decimals)
            == NormalizePaymentAmount(value, decimals)
  {
    NormalizeMeans(value, decimals, |Fraction(Trim(value))|);
    var s := NormalizePaymentAmount(value, decimals).value;
    if s == "0" {
      SplitJoined("0", "");
      assert false;
    }
    NormalizeKeepsCanonical(s, decimals);
  }

  /** Canonical decimals of at most p places are equal exactly when their units are. */
  lemma UnitsDecide(s: string, t: string, p: nat)
    requires Canonical(s) && Canonical(t) && |Fraction(s)| <= p && |Fraction(t)| <= p
    ensures s == t <==> UnitsOf(s, p) == UnitsOf(t, p)
  {
    FormatOfUnits(s, p);
    FormatOfUnits(t, p);
  }

  /** Two inputs normalise to the same text exactly when they are worth the same. */
  lemma NormalFormOfValue(a: string, b: string, decimals: int)
    requires NormalizePaymentAmount(a, decimals).Ok? && NormalizePaymentAmount(b, decimals).Ok?
    ensures
      NormalizePaymentAmount(a, decimals) == NormalizePaymentAmount(b, decimals)
      <==> UnitsOf(Trim(a), decimals) == UnitsOf(Trim(b), decimals)
  {
    NormalizeMeans(a, decimals, decimals);
    NormalizeMeans(b, decimals, decimals);
    UnitsDecide(NormalizePaymentAmount(a, decimals).value, NormalizePaymentAmount(b, decimals).value, decimals);
  }

  /** On canonical amounts the contract's units are exact, and formatting them gives the amount back. */
  lemma ContractAmountExact(s: string, decimals: nat)
    requires Canonical(s)
    ensures
      DecimalToContractAmount(s, decimals).Ok?
      <==> |Fraction(s)| <= decimals && 0 < UnitsOf(s, decimals) <= MAX_I128
    ensures
      DecimalToContractAmount(s, decimals).Ok? ==>
        FormatUnits(DecimalToContractAmount(s, decimals).value, decimals) == s
  {
    if |Fraction(s)| <= decimals {
      FormatOfUnits(s, decimals);
    }
  }

  /** With seven decimals the contract's units are stroops: they print as the amount and parse from it. */
  lemma ContractAmountIsStroops(s: string)
    requires Canonical(s) && DecimalToContractAmount(s, STROOP_DECIMALS).Ok?
    ensures
      var n := DecimalToContractAmount(s, STROOP_DECIMALS).value;
      FormatStroops(n) == s && ParseStroops(s) == Ok(n)
  {
    ContractAmountExact(s, STROOP_DECIMALS);
    PlainEnds(s);
  }

  /** What the till accepts the contract can represent, unless it is beyond 128 bits. */
  lemma NormalizedIsRepresentable(value: string, decimals: int)
    requires NormalizePaymentAmount(value, decimals).Ok?
    ensures
      var s := NormalizePaymentAmount(value, decimals).value;
      DecimalToContractAmount(s, decimals)
        == if UnitsOf(Trim(value), decimals) <= MAX_I128 then Ok(UnitsOf(Trim(value), decimals)) else Err(OutOfRange)
  {
    NormalizeMeans(value, decimals, decimals);
  }

  lemma ContractAmountInjective(s: string, t: string, decimals: nat)
    requires Canonical(s) && Canonical(t) && DecimalToContractAmount(s, decimals).Ok?
    requires DecimalToContractAmount(s, decimals) == DecimalToContractAmount(t, decimals)
    ensures s == t
  {
    ContractAmountExact(s, decimals);
    ContractAmountExact(t, decimals);
  }

  /** Only the first two parts of an amount are looked at, so a third part, or a trailing point, is not refused. */
  lemma OnlyTwoPartsCount(amount: string, decimals: nat)
    ensures DecimalToContractAmount(amount, decimals)
         == DecimalToContractAmount(Join(Whole(amount), Fraction(amount)), decimals)
  {
    SplitJoined(Whole(amount), Fraction(amount));
  }

  /**
   * An amount that is no decimal is accepted exactly when there is something besides its first
   * two parts and those parts alone would be accepted.
   */
  lemma AcceptsOnlyDecimals(amount: string, decimals: nat)
    ensures
      var parts := Join(Whole(amount), Fraction(amount));
      (DecimalToContractAmount(amount, decimals).Ok? ==> PlainDecimal(amount))
      <==> amount == parts || DecimalToContractAmount(parts, decimals).Err?
  {
    OnlyTwoPartsCount(amount, decimals);
  }

  lemma ThirdPartIgnored()
    ensures !PlainDecimal("1.2.3") && DecimalToContractAmount("1.2.3", 1) == Ok(12)
  {
    WholeOf("1", ".2.3");
    assert "1" + ".2.3" == "1.2.3";
    WholeOf("2", ".3");
    assert "2" + ".3" == "2.3" == "1.2.3"[2..];
    assert Fraction("1.2.3") == "2";
    assert DigitsOf("1") == [1] && DigitsOf("2") == [2];
    assert PadEnd([2], 1) == [2];
    assert ToNat([1]) == 1 && ToNat([2]) == 2 && Pow10(1) == 10 * Pow10(0);
  }

  /** Formatting and parsing stroops is the identity on amounts that exist; debts do not parse. */
  lemma StroopsRoundTrip(n: int)
    ensures ParseStroops(FormatStroops(n)) == if n >= 0 then Ok(n) else Err(NotADecimal)
  {
    if n >= 0 {
      UnitsOfFormat(n, STROOP_DECIMALS);
      PlainEnds(FormatStroops(n));
    } else {
      var s := FormatUnits(-n, STROOP_DECIMALS);
      UnitsOfFormat(-n, STROOP_DECIMALS);
      NegativeIsNotPlain(s);
    }
  }

  lemma NegativeIsNotPlain(s: string)
    requires PlainDecimal(s)
    ensures !PlainDecimal(Trim("-" + s))
  {
    var t := "-" + s;
    PlainEnds(s);
    var w, f := Whole(s), Fraction(s);
    assert t[|t| - 1] == s[|s| - 1];
    if f == "" {
      assert s[|s| - 1] in w;
    } else {
      assert s[|s| - 1] == f[|f| - 1] && f[|f| - 1] in f;
    }
    NothingToTrim(t);
    assert t[1..] == s;
    assert Whole(t) == "-" + Whole(s);
    assert '-' in Whole(t);
  }

  // ---------------------------------------------------------------------
  // What is accepted, and what is refused for which reason
  // ---------------------------------------------------------------------

  predicate DigitsOnly(s: string) {
    s != "" && forall k | 0 <= k < |s| :: '0' <= s[k] <= '9'
  }

  /** A point at i, and digits before and after it. */
  predicate PointAt(s: string, i: int) {
    0 < i < |s| - 1 && s[i] == '.' && forall k | 0 <= k < |s| && k != i :: '0' <= s[k] <= '9'
  }

  /** Digits, or digits, a point and digits: one of each at least. */
  lemma PlainDecimalMeans(s: string)
    ensures PlainDecimal(s) <==> DigitsOnly(s) || exists i :: PointAt(s, i)
  {
    if PlainDecimal(s) {
      PlainIsSplit(s);
    }
    if DigitsOnly(s) {
      WholeOf(s, "");
      assert s + "" == s;
    }
    if i :| PointAt(s, i) {
      SplitIsPlain(s, i);
    }
  }

  lemma SplitIsPlain(s: string, i: int)
    requires PointAt(s, i)
    ensures PlainDecimal(s)
  {
    var w, f := s[..i], s[i + 1..];
    assert s == w + "." + f;
    forall c | c in w ensures IsDigit(c) {
      var k :| 0 <= k < i && s[k] == c;
    }
    forall c | c in f ensures IsDigit(c) {
      var k :| 0 <= k < |f| && f[k] == c;
      assert s[i + 1 + k] == c;
    }
    SplitJoined(w, f);
  }

  lemma PlainIsSplit(s: string)
    requires PlainDecimal(s)
    ensures DigitsOnly(s) || exists i :: PointAt(s, i)
  {
    var w, f := Whole(s), Fraction(s);
    if f == "" {
      assert forall k | 0 <= k < |s| :: s[k] in w;
    } else {
      var i := |w|;
      assert s == w + "." + f;
      forall k | 0 <= k < |s| && k != i ensures '0' <= s[k] <= '9' {
        if k < i {
          assert s[k] == w[k] && w[k] in w;
        } else {
          assert s[k] == f[k - i - 1] && f[k - i - 1] in f;
        }
      }
      assert PointAt(s, i);
    }
  }

  /** Keypad input is accepted exactly when it is a decimal within the precision and worth something. */
  lemma NormalizesWhen(value: string, decimals: int)
    ensures
      var t, r := Trim(value), NormalizePaymentAmount(value, decimals);
      && (r == Err(NotADecimal) <==> !PlainDecimal(t))
      && (r == Err(BadDecimals) <==> PlainDecimal(t) && !(0 <= decimals <= 18))
      && (r == Err(TooPrecise) <==> PlainDecimal(t) && 0 <= decimals <= 18 && |Fraction(t)| > decimals)
      && (r == Err(NotPositive) <==>
            PlainDecimal(t) && 0 <= decimals <= 18 && |Fraction(t)| <= decimals && UnitsOf(t, decimals) == 0)
      && (r.Ok? <==> PlainDecimal(t) && 0 <= decimals <= 18 && |Fraction(t)| <= decimals && UnitsOf(t, decimals) > 0)
  {
    var t := Trim(value);
    if PlainDecimal(t) && 0 <= decimals <= 18 && |Fraction(t)| <= decimals {
      StrippingKeepsUnits(DigitsOf(Whole(t)), DigitsOf(Fraction(t)), decimals);
      Positive(StripLeft(DigitsOf(Whole(t))), StripRight(DigitsOf(Fraction(t))), decimals);
    }
  }

  /** The contract's units are made exactly of amounts whose two parts are digits within the precision and 128 bits. */
  lemma ContractAmountWhen(amount: string, decimals: nat)
    ensures
      var w, f, r := Whole(amount), Fraction(amount), DecimalToContractAmount(amount, decimals);
      var fits := w != "" && AllDigits(w) && AllDigits(f) && |f| <= decimals;
      && (r == Err(CannotRepresent) <==> !fits)
      && (r == Err(OutOfRange) <==> fits && !(0 < UnitsOf(amount, decimals) < Pow2(127)))
      && (r.Ok? <==> fits && 0 < UnitsOf(amount, decimals) < Pow2(127))
      && (r.Ok? ==> r.value == UnitsOf(amount, decimals))
  {
    var w, f := Whole(amount), Fraction(amount);
    if AllDigits(w) && AllDigits(f) {
      WidthsAre(UnitsOf(amount, decimals));
    }
  }

  lemma StroopsParsedWhen(amount: string)
    ensures
      var t, r := Trim(amount), ParseStroops(amount);
      && (r.Ok? <==> PlainDecimal(t) && |Fraction(t)| <= 7)
      && (r.Ok? ==> r.value == UnitsOf(t, 7))
      && (r.Err? ==> r.error == NotADecimal)
  {
  }

  /** How stroops are written: in canonical form, of the same worth, and with a sign before a debt. */
  lemma StroopsFormatted(n: nat)
    ensures Canonical(FormatStroops(n)) && |Fraction(FormatStroops(n))| <= 7 && UnitsOf(FormatStroops(n), 7) == n
    ensures n > 0 ==> FormatStroops(-(n as int)) == "-" + FormatStroops(n)
  {
    UnitsOfFormat(n, STROOP_DECIMALS);
  }
}
