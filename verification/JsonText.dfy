/** JSON trees as JavaScript holds them, and the text of strings and numbers. */
module JsonText {
  import opened Decimal

  /** A UTF-16 code unit; a JavaScript string is any sequence of them. */
  type CodeUnit = x: int | 0 <= x < 0x10000

  type Text = seq<CodeUnit>

  datatype Json =
    | Null
    | Bool(truth: bool)
    | Num(number: int)
    | Str(text: Text)
    | Arr(items: seq<Json>)
    | Obj(entries: seq<Entry>)

  datatype Entry = Entry(key: Text, value: Json)

  const QUOTE: CodeUnit := 34
  const COLON: CodeUnit := 58
  const BACKSLASH: CodeUnit := 92
  const OPEN_BRACKET: CodeUnit := 91
  const CLOSE_BRACKET: CodeUnit := 93
  const OPEN_BRACE: CodeUnit := 123
  const CLOSE_BRACE: CodeUnit := 125

  /** An object holds each key once. */
  predicate DistinctKeys(entries: seq<Entry>) {
    forall i, j | 0 <= i < j < |entries| :: entries[i].key != entries[j].key
  }

  ghost predicate WellFormed(v: Json) {
    match v
    case Arr(items) => forall i | 0 <= i < |items| :: WellFormed(items[i])
    case Obj(entries) => DistinctKeys(entries) && forall i | 0 <= i < |entries| :: WellFormed(entries[i].value)
    case _ => true
  }

  // ---------------------------------------------------------------------
  // JSON.stringify on strings: section 7 of RFC 8259, with lone surrogates escaped
  // ---------------------------------------------------------------------

  predicate IsHigh(c: CodeUnit) {
    0xD800 <= c < 0xDC00
  }

  predicate IsLow(c: CodeUnit) {
    0xDC00 <= c < 0xE000
  }

  predicate IsPair(s: Text) {
    |s| >= 2 && IsHigh(s[0]) && IsLow(s[1])
  }

  function HexDigit(d: int): CodeUnit
    requires 0 <= d < 16
  {
    if d < 10 then 48 + d else 87 + d
  }

  function UnicodeEscape(c: CodeUnit): Text {
    [BACKSLASH, 117, HexDigit(c / 0x1000), HexDigit(c / 0x100 % 16), HexDigit(c / 16 % 16), HexDigit(c % 16)]
  }

  function EscapeUnit(c: CodeUnit): Text {
    if c == 8 then [BACKSLASH, 98]
    else if c == 9 then [BACKSLASH, 116]
    else if c == 10 then [BACKSLASH, 110]
    else if c == 12 then [BACKSLASH, 102]
    else if c == 13 then [BACKSLASH, 114]
    else if c == QUOTE || c == BACKSLASH then [BACKSLASH, c]
    else if c < 32 || IsHigh(c) || IsLow(c) then UnicodeEscape(c)
    else [c]
  }

  function Escape(s: Text): Text {
    if s == [] then []
    else if IsPair(s) then [s[0], s[1]] + Escape(s[2..])
    else EscapeUnit(s[0]) + Escape(s[1..])
  }

  function Quoted(s: Text): Text {
    [QUOTE] + Escape(s) + [QUOTE]
  }

  lemma HexDigitInjective(a: int, b: int)
    requires 0 <= a < 16 && 0 <= b < 16 && HexDigit(a) == HexDigit(b)
    ensures a == b
  {
  }

  lemma FourHexDigits(c: CodeUnit)
    ensures c == 0x1000 * (c / 0x1000) + 0x100 * (c / 0x100 % 16) + 16 * (c / 16 % 16) + c % 16
  {
    assert c / 0x100 == 16 * (c / 0x1000) + c / 0x100 % 16;
    assert c / 16 == 16 * (c / 0x100) + c / 16 % 16;
  }

  lemma UnicodeEscapeInjective(c: CodeUnit, d: CodeUnit)
    requires UnicodeEscape(c) == UnicodeEscape(d)
    ensures c == d
  {
    var x, y := UnicodeEscape(c), UnicodeEscape(d);
    assert x[2] == y[2] && x[3] == y[3] && x[4] == y[4] && x[5] == y[5];
    HexDigitInjective(c / 0x1000, d / 0x1000);
    HexDigitInjective(c / 0x100 % 16, d / 0x100 % 16);
    HexDigitInjective(c / 16 % 16, d / 16 % 16);
    HexDigitInjective(c % 16, d % 16);
    FourHexDigits(c);
    FourHexDigits(d);
  }

  /** The first two units of an escape say how long it is. */
  lemma SameLength(c: CodeUnit, d: CodeUnit, x: Text, y: Text)
    requires EscapeUnit(c) + x == EscapeUnit(d) + y
    ensures |EscapeUnit(c)| == |EscapeUnit(d)|
  {
    assert EscapeUnit(c)[0] == (EscapeUnit(c) + x)[0];
    assert EscapeUnit(d)[0] == (EscapeUnit(d) + y)[0];
    if EscapeUnit(c)[0] == BACKSLASH {
      assert EscapeUnit(c)[1] == (EscapeUnit(c) + x)[1];
      assert EscapeUnit(d)[1] == (EscapeUnit(d) + y)[1];
    }
  }

  lemma EscapeUnitUnique(c: CodeUnit, d: CodeUnit, x: Text, y: Text)
    requires EscapeUnit(c) + x == EscapeUnit(d) + y
    ensures c == d && x == y
  {
    SameLength(c, d, x, y);
    var n := |EscapeUnit(c)|;
    assert EscapeUnit(c) == (EscapeUnit(c) + x)[..n];
    assert EscapeUnit(d) == (EscapeUnit(d) + y)[..n];
    assert x == (EscapeUnit(c) + x)[n..];
    assert y == (EscapeUnit(d) + y)[n..];
    if n == 6 {
      UnicodeEscapeInjective(c, d);
    } else {
      assert EscapeUnit(c)[n - 1] == EscapeUnit(d)[n - 1];
    }
  }

  /** The first unit of an escaped string tells the end, a pair and a single unit apart. */
  lemma EscapeFirst(s: Text, r: Text)
    ensures
      var first := (Escape(s) + [QUOTE] + r)[0];
      && (s == [] <==> first == QUOTE)
      && (IsPair(s) <==> IsHigh(first))
  {
    if s != [] && !IsPair(s) {
      assert (EscapeUnit(s[0]) + Escape(s[1..]) + [QUOTE] + r)[0] == EscapeUnit(s[0])[0];
    }
  }

  /** An escaped string with what follows its closing quote. */
  function Closed(s: Text, r: Text): Text {
    Escape(s) + [QUOTE] + r
  }

  lemma ClosedEmpty(s: Text, r: Text)
    requires s == []
    ensures Closed(s, r) == [QUOTE] + r
  {
  }

  lemma ClosedPair(s: Text, r: Text)
    requires IsPair(s)
    ensures Closed(s, r) == [s[0], s[1]] + Closed(s[2..], r)
  {
  }

  lemma ClosedSingle(s: Text, r: Text)
    requires s != [] && !IsPair(s)
    ensures Closed(s, r) == EscapeUnit(s[0]) + Closed(s[1..], r)
  {
  }

  lemma DropBoth(a: Text, b: Text, x: Text, y: Text)
    requires a + x == b + y && |a| == |b|
    ensures a == b && x == y
  {
    assert a == (a + x)[..|a|] && b == (b + y)[..|a|];
    assert x == (a + x)[|a|..] && y == (b + y)[|a|..];
  }

  /** An escaped string is read in only one way, whatever follows its closing quote. */
  lemma {:induction false} EscapeUnique(s: Text, t: Text, r: Text, u: Text)
    requires Closed(s, r) == Closed(t, u)
    ensures s == t && r == u
    decreases |s|
  {
    EscapeFirst(s, r);
    EscapeFirst(t, u);
    if s == [] {
      ClosedEmpty(s, r);
      ClosedEmpty(t, u);
      DropBoth([QUOTE], [QUOTE], r, u);
    } else if IsPair(s) {
      ClosedPair(s, r);
      ClosedPair(t, u);
      DropBoth([s[0], s[1]], [t[0], t[1]], Closed(s[2..], r), Closed(t[2..], u));
      EscapeUnique(s[2..], t[2..], r, u);
      assert s == [s[0], s[1]] + s[2..] && t == [t[0], t[1]] + t[2..];
    } else {
      ClosedSingle(s, r);
      ClosedSingle(t, u);
      EscapeUnitUnique(s[0], t[0], Closed(s[1..], r), Closed(t[1..], u));
      EscapeUnique(s[1..], t[1..], r, u);
      assert s == [s[0]] + s[1..] && t == [t[0]] + t[1..];
    }
  }

  /** A quoted string is read in only one way. */
  lemma QuotedUnique(s: Text, t: Text, r: Text, u: Text)
    requires Quoted(s) + r == Quoted(t) + u
    ensures s == t && r == u
  {
    assert Quoted(s) + r == [QUOTE] + Closed(s, r);
    assert Quoted(t) + u == [QUOTE] + Closed(t, u);
    DropBoth([QUOTE], [QUOTE], Closed(s, r), Closed(t, u));
    EscapeUnique(s, t, r, u);
  }

  // ---------------------------------------------------------------------
  // Numbers
  // ---------------------------------------------------------------------

  /** What can follow a value: nothing, or something that ends it. */
  predicate Ends(r: Text) {
    r == [] || r[0] == COMMA || r[0] == CLOSE_BRACKET || r[0] == CLOSE_BRACE
  }

  /** The number of digits a text starts with. */
  function Run(t: Text): nat {
    if t != [] && 48 <= t[0] < 58 then 1 + Run(t[1..]) else 0
  }

  lemma {:induction false} RunOf(a: seq<Digit>, r: Text)
    requires Ends(r)
    ensures Run(DigitText(a) + r) == |a|
  {
    if a == [] {
      assert DigitText(a) + r == r;
    } else {
      RunOf(a[1..], r);
      assert (DigitText(a) + r)[1..] == DigitText(a[1..]) + r;
    }
  }

  lemma DigitRunUnique(a: seq<Digit>, b: seq<Digit>, r: Text, u: Text)
    requires DigitText(a) + r == DigitText(b) + u && Ends(r) && Ends(u)
    ensures a == b && r == u
  {
    RunOf(a, r);
    RunOf(b, u);
    DropBoth(DigitText(a), DigitText(b), r, u);
    forall i | 0 <= i < |a| ensures a[i] == b[i] {
      assert DigitText(a)[i] == DigitText(b)[i];
    }
  }

  lemma SignFirst(negative: bool, ds: seq<Digit>, r: Text)
    requires ds != []
    ensures
      var x := (if negative then [MINUS] + DigitText(ds) else DigitText(ds)) + r;
      && (x[0] == MINUS <==> negative)
      && (negative ==> x == [MINUS] + (DigitText(ds) + r))
  {
    assert DigitText(ds)[0] == DigitByte(ds[0]);
  }

  lemma SignedUnique(m: bool, n: bool, a: seq<Digit>, b: seq<Digit>, r: Text, u: Text)
    requires a != [] && b != [] && Ends(r) && Ends(u)
    requires (if m then [MINUS] + DigitText(a) else DigitText(a)) + r
          == (if n then [MINUS] + DigitText(b) else DigitText(b)) + u
    ensures m == n && a == b && r == u
  {
    SignFirst(m, a, r);
    SignFirst(n, b, u);
    if m {
      DropBoth([MINUS], [MINUS], DigitText(a) + r, DigitText(b) + u);
    }
    DigitRunUnique(a, b, r, u);
  }

  lemma NumberUnique(m: int, n: int, r: Text, u: Text)
    requires NumberText(m) + r == NumberText(n) + u && Ends(r) && Ends(u)
    ensures m == n && r == u
  {
    var a, b := if m < 0 then -m else m, if n < 0 then -n else n;
    SignedUnique(m < 0, n < 0, Digits(a), Digits(b), r, u);
    DigitsInjective(a, b);
  }
}
