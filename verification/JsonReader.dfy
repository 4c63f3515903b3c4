/** Reading JSON text as RFC 8259 defines it, as far as integers, strings, arrays and objects go. */
module JsonReader {
  import opened JsonText

  /** What was read, and the text after it. */
  datatype Reading<+T> = Read(value: T, rest: Text) | Unreadable

  /** White space: section 2. */
  predicate IsBlank(c: CodeUnit) {
    c == ' ' as int || c == '\t' as int || c == '\n' as int || c == '\r' as int
  }

  function Skip(t: Text): (r: Text)
    ensures |r| <= |t|
  {
    if t != [] && IsBlank(t[0]) then Skip(t[1..]) else t
  }

  predicate At(t: Text, i: nat, c: char) {
    i < |t| && t[i] == c as int
  }

  /** The literals of section 3. */
  predicate Spells(t: Text, word: string) {
    |t| >= |word| && forall i | 0 <= i < |word| :: t[i] == word[i] as int
  }

  // ---------------------------------------------------------------------
  // Strings: section 7
  // ---------------------------------------------------------------------

  function HexValue(c: CodeUnit): int {
    if '0' as int <= c <= '9' as int then c - '0' as int
    else if 'a' as int <= c <= 'f' as int then c - 'a' as int + 10
    else if 'A' as int <= c <= 'F' as int then c - 'A' as int + 10
    else -1
  }

  predicate FourHex(t: Text) {
    |t| >= 4 && HexValue(t[0]) >= 0 && HexValue(t[1]) >= 0 && HexValue(t[2]) >= 0 && HexValue(t[3]) >= 0
  }

  function HexUnit(t: Text): CodeUnit
    requires FourHex(t)
  {
    ((HexValue(t[0]) * 16 + HexValue(t[1])) * 16 + HexValue(t[2])) * 16 + HexValue(t[3])
  }

  /** What follows a backslash. */
  function ReadEscape(t: Text): (r: Reading<CodeUnit>)
    ensures r.Read? ==> |r.rest| < |t|
  {
    if At(t, 0, '"') || At(t, 0, '\\') || At(t, 0, '/') then Read(t[0], t[1..])
    else if At(t, 0, 'b') then Read(0x08, t[1..])
    else if At(t, 0, 'f') then Read(0x0C, t[1..])
    else if At(t, 0, 'n') then Read(0x0A, t[1..])
    else if At(t, 0, 'r') then Read(0x0D, t[1..])
    else if At(t, 0, 't') then Read(0x09, t[1..])
    else if At(t, 0, 'u') && FourHex(t[1..]) then Read(HexUnit(t[1..]), t[5..])
    else Unreadable
  }

  function Before<T>(x: T, r: Reading<seq<T>>): Reading<seq<T>> {
    if r.Read? then Read([x] + r.value, r.rest) else Unreadable
  }

  /** A string from behind its opening quote on. */
  function ReadString(t: Text): (r: Reading<Text>)
    ensures r.Read? ==> |r.rest| < |t|
    decreases |t|
  {
    if t == [] then Unreadable
    else if At(t, 0, '"') then Read([], t[1..])
    else if At(t, 0, '\\') then
      match ReadEscape(t[1..])
      case Unreadable => Unreadable
      case Read(c, rest) => Before(c, ReadString(rest))
    else if t[0] < 0x20 then Unreadable
    else Before(t[0], ReadString(t[1..]))
  }

  // ---------------------------------------------------------------------
  // Numbers: section 6, without fraction and exponent
  // ---------------------------------------------------------------------

  predicate IsDigit(c: CodeUnit) {
    '0' as int <= c <= '9' as int
  }

  function DigitCount(t: Text): (n: nat)
    ensures n <= |t| && forall i | 0 <= i < n :: IsDigit(t[i])
  {
    if t != [] && IsDigit(t[0]) then 1 + DigitCount(t[1..]) else 0
  }

  function Natural(t: Text): nat
    requires forall i | 0 <= i < |t| :: IsDigit(t[i])
  {
    if t == [] then 0
    else
      assert IsDigit(t[|t| - 1]);
      10 * Natural(t[..|t| - 1]) + (t[|t| - 1] - '0' as int)
  }

  function ReadNumber(t: Text): (r: Reading<Json>)
    ensures r.Read? ==> |r.rest| < |t|
  {
    var negative := At(t, 0, '-');
    var u := if negative then t[1..] else t;
    var n := DigitCount(u);
    if n == 0 || (n > 1 && At(u, 0, '0')) || At(u, n, '.') || At(u, n, 'e') || At(u, n, 'E') then Unreadable
    else
      var size: int := Natural(u[..n]);
      Read(Num(if negative then -size else size), u[n..])
  }

  // ---------------------------------------------------------------------
  // Values, arrays and objects: sections 3 to 5
  // ---------------------------------------------------------------------

  function ReadValue(t: Text): (r: Reading<Json>)
    ensures r.Read? ==> |r.rest| < |t|
    decreases |t|, 0
  {
    if Spells(t, "null") then Read(Null, t[4..])
    else if Spells(t, "true") then Read(Bool(true), t[4..])
    else if Spells(t, "false") then Read(Bool(false), t[5..])
    else if At(t, 0, '"') then
      match ReadString(t[1..])
      case Unreadable => Unreadable
      case Read(s, rest) => Read(Str(s), rest)
    else if At(t, 0, '[') then
      var u := Skip(t[1..]);
      if At(u, 0, ']') then Read(Arr([]), u[1..])
      else
        match ReadItems(u)
        case Unreadable => Unreadable
        case Read(items, rest) => Read(Arr(items), rest)
    else if At(t, 0, '{') then
      var u := Skip(t[1..]);
      if At(u, 0, '}') then Read(Obj([]), u[1..])
      else
        match ReadEntries(u)
        case Unreadable => Unreadable
        case Read(entries, rest) => Read(Obj(entries), rest)
    else ReadNumber(t)
  }

  /** One value or more, up to the closing bracket. */
  function ReadItems(t: Text): (r: Reading<seq<Json>>)
    ensures r.Read? ==> |r.rest| < |t|
    decreases |t|, 1
  {
    match ReadValue(t)
    case Unreadable => Unreadable
    case Read(v, rest) =>
      var u := Skip(rest);
      if At(u, 0, ']') then Read([v], u[1..])
      else if At(u, 0, ',') then Before(v, ReadItems(Skip(u[1..])))
      else Unreadable
  }

  function ReadEntry(t: Text): (r: Reading<Entry>)
    ensures r.Read? ==> |r.rest| < |t|
    decreases |t|, 1
  {
    if !At(t, 0, '"') then Unreadable
    else
      match ReadString(t[1..])
      case Unreadable => Unreadable
      case Read(key, rest) =>
        var u := Skip(rest);
        if !At(u, 0, ':') then Unreadable
        else
          match ReadValue(Skip(u[1..]))
          case Unreadable => Unreadable
          case Read(v, after) => Read(Entry(key, v), after)
  }

  /** One entry or more, up to the closing brace. */
  function ReadEntries(t: Text): (r: Reading<seq<Entry>>)
    ensures r.Read? ==> |r.rest| < |t|
    decreases |t|, 2
  {
    match ReadEntry(t)
    case Unreadable => Unreadable
    case Read(e, rest) =>
      var u := Skip(rest);
      if At(u, 0, '}') then Read([e], u[1..])
      else if At(u, 0, ',') then Before(e, ReadEntries(Skip(u[1..])))
      else Unreadable
  }

  /** A whole text is one value with nothing but white space around it. */
  function ReadText(t: Text): Reading<Json> {
    match ReadValue(Skip(t))
    case Unreadable => Unreadable
    case Read(v, rest) => if Skip(rest) == [] then Read(v, []) else Unreadable
  }
}
