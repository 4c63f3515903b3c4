/** The texts the service lets in: hashes, addresses, signatures, trimmed texts. */
module Formats {
  import opened Base

  predicate HexDigit(c: char) {
    '0' <= c <= '9' || 'a' <= c <= 'f' || 'A' <= c <= 'F'
  }

  /** A transaction hash: 64 hexadecimal digits in either case. */
  predicate HexHash(h: string) {
    |h| == 64 && forall c | c in h :: HexDigit(c)
  }

  function LowerChar(c: char): char {
    if 'A' <= c <= 'Z' then (c as int + 32) as char else c
  }

  function Lower(s: string): (r: string)
    ensures |r| == |s| && forall i | 0 <= i < |s| :: r[i] == LowerChar(s[i])
  {
    seq(|s|, i requires 0 <= i < |s| => LowerChar(s[i]))
  }

  /** Equal up to letter case. */
  predicate SameHash(a: string, b: string) {
    Lower(a) == Lower(b)
  }

  /** An address of the network: `G` or `C` and 55 characters of base 32. */
  predicate Address(a: string) {
    |a| == 56 && (a[0] == 'G' || a[0] == 'C') && forall i | 0 < i < 56 :: 'A' <= a[i] <= 'Z' || '2' <= a[i] <= '7'
  }

  predicate Base64Char(c: char) {
    'A' <= c <= 'Z' || 'a' <= c <= 'z' || '0' <= c <= '9' || c == '+' || c == '/'
  }

  /** 64 bytes in base64. */
  predicate Signature(s: string) {
    |s| == 88 && s[86..] == "==" && forall i | 0 <= i < 86 :: Base64Char(s[i])
  }

  /** White space and line ends as ECMA-262 lists them for trimming. */
  predicate Blank(c: char) {
    var n := c as int;
    || 0x09 <= n <= 0x0D || n == 0x20 || n == 0xA0 || n == 0x1680 || 0x2000 <= n <= 0x200A
    || n == 0x2028 || n == 0x2029 || n == 0x202F || n == 0x205F || n == 0x3000 || n == 0xFEFF
  }

  function TrimStart(s: string): string {
    if s != "" && Blank(s[0]) then TrimStart(s[1..]) else s
  }

  function TrimEnd(s: string): string {
    if s != "" && Blank(s[|s| - 1]) then TrimEnd(s[..|s| - 1]) else s
  }

  function Trim(s: string): string {
    TrimEnd(TrimStart(s))
  }

  lemma {:induction false} BlankToTheEnd(s: string)
    ensures TrimEnd(s) == "" <==> forall c | c in s :: Blank(c)
  {
    if s != "" {
      BlankToTheEnd(s[..|s| - 1]);
      assert s == s[..|s| - 1] + [s[|s| - 1]];
    }
  }

  /** Trimming leaves nothing of blanks, and of nothing else. */
  lemma {:induction false} TrimmedAway(s: string)
    ensures Trim(s) == "" <==> forall c | c in s :: Blank(c)
  {
    if s != "" && Blank(s[0]) {
      TrimmedAway(s[1..]);
      assert s == [s[0]] + s[1..];
    } else {
      BlankToTheEnd(s);
    }
  }

  /** A text JavaScript takes for true. */
  predicate Truthy(t: Option<string>) {
    t.Some? && t.value != ""
  }

  // ---------------------------------------------------------------------
  // The formats as patterns: so many characters out of each class, one class after the other
  // ---------------------------------------------------------------------

  datatype Range = Range(first: char, last: char)

  datatype Part = Part(allowed: seq<Range>, count: nat)

  predicate In(c: char, allowed: seq<Range>) {
    exists i :: 0 <= i < |allowed| && allowed[i].first <= c <= allowed[i].last
  }

  predicate Matches(s: string, parts: seq<Part>) {
    if parts == [] then s == ""
    else
      && |s| >= parts[0].count && (forall i | 0 <= i < parts[0].count :: In(s[i], parts[0].allowed))
      && Matches(s[parts[0].count..], parts[1..])
  }

  const HEXADECIMAL := [Range('0', '9'), Range('a', 'f'), Range('A', 'F')]
  const STRKEY := [Range('A', 'Z'), Range('2', '7')]
  const BASE64 := [Range('A', 'Z'), Range('a', 'z'), Range('0', '9'), Range('+', '+'), Range('/', '/')]

  lemma OnePart(s: string, p: Part)
    ensures Matches(s, [p]) <==> |s| == p.count && forall i | 0 <= i < |s| :: In(s[i], p.allowed)
  {
    assert [p][1..] == [];
    if |s| == p.count {
      assert s[p.count..] == "";
    }
  }

  lemma TwoParts(s: string, p: Part, q: Part)
    ensures
      Matches(s, [p, q]) <==>
        && |s| == p.count + q.count
        && (forall i | 0 <= i < p.count :: In(s[i], p.allowed))
        && (forall i | p.count <= i < |s| :: In(s[i], q.allowed))
  {
    assert [p, q][1..] == [q];
    if |s| >= p.count {
      OnePart(s[p.count..], q);
      if Matches(s, [p, q]) {
        forall i | p.count <= i < |s| ensures In(s[i], q.allowed) {
          assert s[i] == s[p.count..][i - p.count];
        }
      }
    }
  }

  lemma HexDigitClass(c: char)
    ensures HexDigit(c) <==> In(c, HEXADECIMAL)
  {
    var h := HEXADECIMAL;
    assert |h| == 3 && h[0] == Range('0', '9') && h[1] == Range('a', 'f') && h[2] == Range('A', 'F');
  }

  lemma StrkeyClass(c: char)
    ensures 'A' <= c <= 'Z' || '2' <= c <= '7' <==> In(c, STRKEY)
  {
    var k := STRKEY;
    assert |k| == 2 && k[0] == Range('A', 'Z') && k[1] == Range('2', '7');
  }

  lemma Base64Class(c: char)
    ensures Base64Char(c) <==> In(c, BASE64)
  {
    var b := BASE64;
    assert |b| == 5 && b[0] == Range('A', 'Z') && b[1] == Range('a', 'z') && b[2] == Range('0', '9');
    assert b[3] == Range('+', '+') && b[4] == Range('/', '/');
  }

  lemma OneOf(c: char, first: char, second: char)
    ensures In(c, [Range(first, first), Range(second, second)]) <==> c == first || c == second
    ensures In(c, [Range(first, first)]) <==> c == first
  {
    var r := [Range(first, first), Range(second, second)];
    assert r[0] == Range(first, first) && r[1] == Range(second, second);
    assert [r[0]][0] == Range(first, first);
  }

  /** `[a-f0-9]` in either case, 64 times. */
  lemma HexHashPattern(h: string)
    ensures HexHash(h) <==> Matches(h, [Part(HEXADECIMAL, 64)])
  {
    OnePart(h, Part(HEXADECIMAL, 64));
    forall i | 0 <= i < |h| ensures HexDigit(h[i]) <==> In(h[i], HEXADECIMAL) {
      HexDigitClass(h[i]);
    }
  }

  /** `[GC]`, then `[A-Z2-7]` 55 times. */
  lemma AddressPattern(a: string)
    ensures Address(a) <==> Matches(a, [Part([Range('G', 'G'), Range('C', 'C')], 1), Part(STRKEY, 55)])
  {
    TwoParts(a, Part([Range('G', 'G'), Range('C', 'C')], 1), Part(STRKEY, 55));
    forall i | 0 <= i < |a| ensures 'A' <= a[i] <= 'Z' || '2' <= a[i] <= '7' <==> In(a[i], STRKEY) {
      StrkeyClass(a[i]);
    }
    if a != "" {
      OneOf(a[0], 'G', 'C');
    }
  }

  /** `[A-Za-z0-9+/]` 86 times, then `==`. */
  lemma SignaturePattern(s: string)
    ensures Signature(s) <==> Matches(s, [Part(BASE64, 86), Part([Range('=', '=')], 2)])
  {
    TwoParts(s, Part(BASE64, 86), Part([Range('=', '=')], 2));
    forall i | 0 <= i < |s| ensures Base64Char(s[i]) <==> In(s[i], BASE64) {
      Base64Class(s[i]);
    }
    forall i | 0 <= i < |s| ensures s[i] == '=' <==> In(s[i], [Range('=', '=')]) {
      OneOf(s[i], '=', '=');
    }
    if |s| == 88 {
      assert s[86..] == [s[86], s[87]];
    }
  }

  /** A capital and the small letter it goes with. */
  predicate Cased(a: char, b: char) {
    'A' <= a <= 'Z' && 'a' <= b <= 'z' && a as int - 'A' as int == b as int - 'a' as int
  }

  /** The same letter in either case, or the same character. */
  predicate SameLetter(a: char, b: char) {
    a == b || Cased(a, b) || Cased(b, a)
  }

  lemma SameHashMeans(a: string, b: string)
    ensures SameHash(a, b) <==> |a| == |b| && forall i | 0 <= i < |a| :: SameLetter(a[i], b[i])
  {
    if |a| == |b| {
      forall i | 0 <= i < |a| ensures Lower(a)[i] == Lower(b)[i] <==> SameLetter(a[i], b[i]) {
      }
    }
  }

  // ---------------------------------------------------------------------
  // Trimming
  // ---------------------------------------------------------------------

  /** Nothing to trim at either end. */
  predicate Tight(t: string) {
    t != "" ==> !Blank(t[0]) && !Blank(t[|t| - 1])
  }

  predicate AllBlank(s: string) {
    forall c | c in s :: Blank(c)
  }

  /** The 25 characters: tabs and line ends, spaces of every width, and the byte order mark. */
  lemma BlanksAre(c: char)
    ensures Blank(c) <==>
              c as int in {9, 10, 11, 12, 13, 32, 160, 5760, 8192, 8193, 8194, 8195, 8196, 8197, 8198, 8199, 8200,
                           8201, 8202, 8232, 8233, 8239, 8287, 12288, 65279}
  {
  }

  lemma {:induction false} StartTrimmed(s: string) returns (n: nat)
    ensures n <= |s| && AllBlank(s[..n]) && TrimStart(s) == s[n..]
    ensures TrimStart(s) != "" ==> !Blank(TrimStart(s)[0])
  {
    if s != "" && Blank(s[0]) {
      var m := StartTrimmed(s[1..]);
      n := m + 1;
      assert s[..n] == [s[0]] + s[1..][..m];
    } else {
      n := 0;
    }
  }

  lemma {:induction false} EndTrimmed(s: string) returns (n: nat)
    ensures n <= |s| && AllBlank(s[n..]) && TrimEnd(s) == s[..n]
    ensures TrimEnd(s) != "" ==> !Blank(TrimEnd(s)[|TrimEnd(s)| - 1])
  {
    if s != "" && Blank(s[|s| - 1]) {
      n := EndTrimmed(s[..|s| - 1]);
      assert s[n..] == s[..|s| - 1][n..] + [s[|s| - 1]];
    } else {
      n := |s|;
    }
  }

  /** Trimming takes blanks off both ends, all of them and nothing else. */
  lemma TrimMeans(s: string) returns (i: nat, j: nat)
    ensures i <= j <= |s| && Trim(s) == s[i..j] && Tight(Trim(s))
    ensures AllBlank(s[..i]) && AllBlank(s[j..])
  {
    i := StartTrimmed(s);
    var n := EndTrimmed(TrimStart(s));
    j := i + n;
    assert s[i..j] == s[i..][..n] && s[j..] == s[i..][n..];
    if Trim(s) != "" {
      assert Trim(s)[0] == TrimStart(s)[0];
    }
  }
}
