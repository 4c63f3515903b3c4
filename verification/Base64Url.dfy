/** base64url without padding: section 5 of RFC 4648, unpadded as in its section 3.2. */
module Base64Url {
  import opened Base

  type Sextet = v: int | 0 <= v < 64

  /** `A`..`Z`, `a`..`z`, `0`..`9`, `-`, `_`. */
  function Letter(v: Sextet): byte {
    if v < 26 then 65 + v
    else if v < 52 then 71 + v
    else if v < 62 then v - 4
    else if v == 62 then 45
    else 95
  }

  function Value(c: byte): Option<Sextet> {
    if 65 <= c < 91 then Some(c - 65)
    else if 97 <= c < 123 then Some(c - 71)
    else if 48 <= c < 58 then Some(c + 4)
    else if c == 45 then Some(62)
    else if c == 95 then Some(63)
    else None
  }

  lemma LetterValue(v: Sextet, c: byte)
    ensures Letter(v) == c <==> Value(c) == Some(v)
  {
  }

  function EncodedLength(n: nat): nat {
    n / 3 * 4 + if n % 3 == 0 then 0 else n % 3 + 1
  }

  function Sextets(val: nat): (vs: seq<Sextet>)
    requires val < 0x1000000
    ensures |vs| == 4
  {
    [val / 0x40000, val / 0x1000 % 0x40, val / 0x40 % 0x40, val % 0x40]
  }

  function Letters(vs: seq<Sextet>): (t: Bytes)
    ensures |t| == |vs| && forall i | 0 <= i < |t| :: t[i] == Letter(vs[i])
  {
    seq(|vs|, i requires 0 <= i < |vs| => Letter(vs[i]))
  }

  /** Three bytes, the missing ones zero, as one number. */
  function Group(src: Bytes): (val: nat)
    requires 0 < |src|
    ensures val < 0x1000000
  {
    Shift8(Shift8(src[0], if |src| > 1 then src[1] else 0), if |src| > 2 then src[2] else 0)
  }

  function Encode(src: Bytes): (t: Bytes)
    ensures |t| == EncodedLength(|src|)
  {
    if src == [] then []
    else if |src| < 3 then Letters(Sextets(Group(src))[..|src| + 1])
    else Letters(Sextets(Group(src[..3]))) + Encode(src[3..])
  }

  /** Writes the letters of one group at di. */
  method Put(dst: array<byte>, di: nat, vs: seq<Sextet>)
    requires 2 <= |vs| <= 4 && di + |vs| <= dst.Length
    modifies dst
    ensures dst[..di + |vs|] == old(dst[..di]) + Letters(vs)
    ensures dst[di + |vs|..] == old(dst[di + |vs|..])
  {
    dst[di] := Letter(vs[0]);
    dst[di + 1] := Letter(vs[1]);
    if |vs| > 2 {
      dst[di + 2] := Letter(vs[2]);
    }
    if |vs| > 3 {
      dst[di + 3] := Letter(vs[3]);
    }
    ghost var t := Letters(vs);
    assert forall k | 0 <= k < |vs| :: dst[di + k] == t[k];
    assert dst[di..di + |vs|] == t;
    assert dst[..di + |vs|] == dst[..di] + dst[di..di + |vs|];
  }

  /** Writes the letters of `src` into the front of `dst`, and nothing else. */
  method EncodeInto(dst: array<byte>, src: Bytes)
    requires dst.Length >= EncodedLength(|src|)
    modifies dst
    ensures dst[..EncodedLength(|src|)] == Encode(src)
    ensures dst[EncodedLength(|src|)..] == old(dst[EncodedLength(|src|)..])
  {
    GroupsFit(|src|);
    var di, si := PutGroups(dst, src, EncodedLength(|src|));
    TailFits(si, |src|);
    PutTail(dst, di, src, si);
  }

  /** The loop: one whole group of three bytes after the other. */
  method PutGroups(dst: array<byte>, src: Bytes, ghost end: nat) returns (di: nat, si: nat)
    requires 4 * (|src| / 3) <= end <= dst.Length
    modifies dst
    ensures si == |src| / 3 * 3 && di == 4 * (|src| / 3)
    ensures dst[..di] + Encode(src[si..]) == Encode(src)
    ensures dst[end..] == old(dst[end..])
  {
    di, si := 0, 0;
    var n := |src| / 3 * 3;
    ghost var whole, kept := Encode(src), dst[end..];
    assert src[0..] == src && dst[..0] + whole == whole;
    ghost var g := 0;
    while si < n
      invariant 0 <= g <= |src| / 3 && si == 3 * g && di == 4 * g
      invariant dst[..di] + Encode(src[si..]) == whole && dst[end..] == kept
    {
      PutGroup(dst, di, src, si, end);
      si := si + 3;
      di := di + 4;
      g := g + 1;
    }
  }

  lemma GroupsFit(n: nat)
    ensures 3 * (n / 3) == n / 3 * 3 <= n && EncodedLength(3 * (n / 3)) == 4 * (n / 3) <= EncodedLength(n)
  {
    assert 3 * (n / 3) / 3 == n / 3;
  }

  lemma TailFits(si: nat, n: nat)
    requires si == n / 3 * 3
    ensures n - si == n % 3 && EncodedLength(si) + EncodedLength(n - si) == EncodedLength(n)
  {
    assert si / 3 == n / 3;
  }

  /** The one or two bytes after the last whole group. */
  method PutTail(dst: array<byte>, di: nat, src: Bytes, si: nat)
    requires si <= |src| && |src| - si < 3
    requires di + EncodedLength(|src| - si) == EncodedLength(|src|) <= dst.Length
    modifies dst
    ensures dst[..EncodedLength(|src|)] == old(dst[..di]) + Encode(src[si..])
    ensures dst[EncodedLength(|src|)..] == old(dst[EncodedLength(|src|)..])
  {
    var remain := |src| - si;
    if remain == 0 {
      return;
    }
    var vs := Sextets(Group(src[si..]))[..remain + 1];
    assert Encode(src[si..]) == Letters(vs);
    Put(dst, di, vs);
  }

  /** One turn of the loop: the letters of the next three bytes. */
  method PutGroup(dst: array<byte>, di: nat, src: Bytes, si: nat, ghost end: nat)
    requires si + 3 <= |src| && di + 4 <= end <= dst.Length
    modifies dst
    ensures dst[..di + 4] + Encode(src[si + 3..]) == old(dst[..di]) + Encode(src[si..])
    ensures dst[end..] == old(dst[end..])
  {
    var vs := Sextets(Group(src[si..si + 3]));
    NextGroup(src, si);
    SameSplit(dst[..di], Letters(vs), Encode(src[si + 3..]));
    KeepTail(dst[..], di + 4, end);
    Put(dst, di, vs);
    KeepTail(dst[..], di + 4, end);
  }

  lemma SameSplit(a: Bytes, b: Bytes, c: Bytes)
    ensures a + (b + c) == a + b + c
  {
  }

  /** A later tail is a tail of an earlier one. */
  lemma KeepTail(s: Bytes, i: nat, j: nat)
    requires i <= j <= |s|
    ensures s[j..] == s[i..][j - i..]
  {
  }

  lemma NextGroup(src: Bytes, si: nat)
    requires si + 3 <= |src|
    ensures Encode(src[si..]) == Letters(Sextets(Group(src[si..si + 3]))) + Encode(src[si + 3..])
  {
    assert src[si..][..3] == src[si..si + 3];
    assert src[si..][3..] == src[si + 3..];
  }

  // ---------------------------------------------------------------------
  // A strict decoder: no stray letters, no stray bits
  // ---------------------------------------------------------------------

  function Values(t: Bytes): Option<seq<Sextet>> {
    if t == [] then Some([])
    else
      match (Value(t[0]), Values(t[1..]))
      case (Some(v), Some(vs)) => Some([v] + vs)
      case _ => None
  }

  /** Four six-bit values, the missing ones zero, as one number. */
  function Joined(vs: seq<Sextet>): (val: nat)
    requires |vs| == 4
    ensures val < 0x1000000
  {
    ((vs[0] as int * 0x40 + vs[1]) * 0x40 + vs[2]) * 0x40 + vs[3]
  }

  function GroupBytes(val: nat): (b: Bytes)
    requires val < 0x1000000
    ensures |b| == 3
  {
    [val / 0x10000, val / 0x100 % 0x100, val % 0x100]
  }

  function DecodeValues(vs: seq<Sextet>): Option<Bytes> {
    if vs == [] then Some([])
    else if |vs| == 1 then None
    else if |vs| == 2 then
      if vs[1] % 16 == 0 then Some(GroupBytes(Joined(vs + [0, 0]))[..1]) else None
    else if |vs| == 3 then
      if vs[2] % 4 == 0 then Some(GroupBytes(Joined(vs + [0]))[..2]) else None
    else
      match DecodeValues(vs[4..])
      case None => None
      case Some(tail) => Some(GroupBytes(Joined(vs[..4])) + tail)
  }

  function Decode(t: Bytes): Option<Bytes> {
    match Values(t)
    case None => None
    case Some(vs) => DecodeValues(vs)
  }

  lemma {:induction false} ValuesOfLetters(vs: seq<Sextet>, t: Bytes)
    ensures t == Letters(vs) <==> Values(t) == Some(vs)
  {
    if vs == [] || t == [] {
    } else {
      ValuesOfLetters(vs[1..], t[1..]);
      LetterValue(vs[0], t[0]);
      assert vs == [vs[0]] + vs[1..] && t == [t[0]] + t[1..];
      if t == Letters(vs) {
        assert t[1..] == Letters(vs[1..]);
      }
      if Values(t) == Some(vs) {
        assert t == [Letter(vs[0])] + Letters(vs[1..]);
      }
    }
  }

  lemma JoinSextets(val: nat)
    requires val < 0x1000000
    ensures Joined(Sextets(val)) == val
  {
    assert val / 0x1000 == val / 0x40000 * 0x40 + val / 0x1000 % 0x40;
    assert val / 0x40 == val / 0x1000 * 0x40 + val / 0x40 % 0x40;
  }

  lemma SplitJoined(a: Sextet, b: Sextet, c: Sextet, d: Sextet)
    ensures Sextets(Joined([a, b, c, d])) == [a, b, c, d]
  {
    SextetsAre(Joined([a, b, c, d]), a, b, c, d);
  }

  lemma BytesOfGroup(a: byte, b: byte, c: byte)
    ensures GroupBytes(Group([a, b, c])) == [a, b, c]
  {
    BytesAre(Group([a, b, c]), a, b, c);
  }

  lemma GroupOfBytes(val: nat)
    requires val < 0x1000000
    ensures Group(GroupBytes(val)) == val
  {
    assert val / 0x100 == val / 0x10000 * 0x100 + val / 0x100 % 0x100;
  }

  /** The six-bit values that encode src. */
  function SextetsOf(src: Bytes): seq<Sextet> {
    if src == [] then []
    else if |src| < 3 then Sextets(Group(src))[..|src| + 1]
    else Sextets(Group(src[..3])) + SextetsOf(src[3..])
  }

  lemma {:induction false} EncodeIsLetters(src: Bytes)
    ensures Encode(src) == Letters(SextetsOf(src))
  {
    if |src| >= 3 {
      EncodeIsLetters(src[3..]);
      assert Letters(SextetsOf(src)) == Letters(Sextets(Group(src[..3]))) + Letters(SextetsOf(src[3..]));
    }
  }

  lemma DecodeTwo(a: Sextet, b: Sextet)
    requires b % 16 == 0
    ensures DecodeValues([a, b]) == Some(GroupBytes(Joined([a, b, 0, 0]))[..1])
  {
    assert [a, b] + [0, 0] == [a, b, 0, 0];
  }

  lemma DecodeThree(a: Sextet, b: Sextet, c: Sextet)
    requires c % 4 == 0
    ensures DecodeValues([a, b, c]) == Some(GroupBytes(Joined([a, b, c, 0]))[..2])
  {
    assert [a, b, c] + [0] == [a, b, c, 0];
  }

  /** Four six-bit digits are the sextets of their number. */
  lemma SextetsAre(val: nat, a: Sextet, b: Sextet, c: Sextet, d: Sextet)
    requires val == a * 0x40000 + b * 0x1000 + c * 0x40 + d
    ensures val < 0x1000000 && Sextets(val) == [a, b, c, d]
  {
    assert val / 0x40 == a * 0x1000 + b * 0x40 + c;
    assert val / 0x1000 == a * 0x40 + b;
    assert val / 0x40000 == a;
  }

  /** Three bytes are the bytes of their number. */
  lemma BytesAre(val: nat, a: byte, b: byte, c: byte)
    requires val == a * 0x10000 + b * 0x100 + c
    ensures val < 0x1000000 && GroupBytes(val) == [a, b, c]
  {
    assert val / 0x100 == a * 0x100 + b;
    assert val / 0x10000 == a;
  }

  lemma OneByteGroup(a: byte)
    ensures Sextets(Group([a])) == [a / 4, a % 4 * 16, 0, 0]
    ensures GroupBytes(Group([a]))[..1] == [a]
  {
    var val := Group([a]);
    assert val == a * 0x10000;
    SextetsAre(val, a / 4, a % 4 * 16, 0, 0);
    BytesAre(val, a, 0, 0);
  }

  lemma TwoByteGroup(a: byte, b: byte)
    ensures Sextets(Group([a, b])) == [a / 4, a % 4 * 16 + b / 16, b % 16 * 4, 0]
    ensures GroupBytes(Group([a, b]))[..2] == [a, b]
  {
    var val := Group([a, b]);
    assert val == a * 0x10000 + b * 0x100;
    SextetsAre(val, a / 4, a % 4 * 16 + b / 16, b % 16 * 4, 0);
    BytesAre(val, a, b, 0);
  }

  lemma OneByteTail(a: byte)
    ensures DecodeValues(SextetsOf([a])) == Some([a])
  {
    OneByteGroup(a);
    JoinSextets(Group([a]));
    assert SextetsOf([a]) == [a / 4, a % 4 * 16];
    DecodeTwo(a / 4, a % 4 * 16);
  }

  lemma TwoByteTail(a: byte, b: byte)
    ensures DecodeValues(SextetsOf([a, b])) == Some([a, b])
  {
    TwoByteGroup(a, b);
    JoinSextets(Group([a, b]));
    assert SextetsOf([a, b]) == [a / 4, a % 4 * 16 + b / 16, b % 16 * 4];
    DecodeThree(a / 4, a % 4 * 16 + b / 16, b % 16 * 4);
  }

  lemma {:induction false} DecodeSextets(src: Bytes)
    ensures DecodeValues(SextetsOf(src)) == Some(src)
  {
    if src == [] {
    } else if |src| == 1 {
      assert src == [src[0]];
      OneByteTail(src[0]);
    } else if |src| == 2 {
      assert src == [src[0], src[1]];
      TwoByteTail(src[0], src[1]);
    } else {
      DecodeSextets(src[3..]);
      var vs := Sextets(Group(src[..3]));
      assert SextetsOf(src)[..4] == vs && SextetsOf(src)[4..] == SextetsOf(src[3..]);
      JoinSextets(Group(src[..3]));
      assert src[..3] == [src[0], src[1], src[2]];
      BytesOfGroup(src[0], src[1], src[2]);
      assert src == src[..3] + src[3..];
    }
  }

  lemma {:induction false} SextetsDecoded(vs: seq<Sextet>)
    requires DecodeValues(vs).Some?
    ensures SextetsOf(DecodeValues(vs).value) == vs
  {
    if vs == [] {
    } else if |vs| == 2 {
      TwoValues(vs[0], vs[1]);
      assert vs == [vs[0], vs[1]];
    } else if |vs| == 3 {
      ThreeValues(vs[0], vs[1], vs[2]);
      assert vs == [vs[0], vs[1], vs[2]];
    } else {
      SextetsDecoded(vs[4..]);
      FourValues(vs);
    }
  }

  /** The whole-group case of SextetsDecoded. */
  lemma FourValues(vs: seq<Sextet>)
    requires |vs| >= 4 && DecodeValues(vs[4..]).Some?
    requires SextetsOf(DecodeValues(vs[4..]).value) == vs[4..]
    ensures DecodeValues(vs).Some? && SextetsOf(DecodeValues(vs).value) == vs
  {
    var head, tail := GroupBytes(Joined(vs[..4])), DecodeValues(vs[4..]).value;
    GroupOfBytes(Joined(vs[..4]));
    SplitJoined(vs[0], vs[1], vs[2], vs[3]);
    assert vs[..4] == [vs[0], vs[1], vs[2], vs[3]];
    SextetsOfGroup(head, tail);
    assert vs == vs[..4] + vs[4..];
  }

  lemma SextetsOfGroup(head: Bytes, tail: Bytes)
    requires |head| == 3
    ensures SextetsOf(head + tail) == Sextets(Group(head)) + SextetsOf(tail)
  {
    assert (head + tail)[..3] == head && (head + tail)[3..] == tail;
  }

  lemma TwoValues(a: Sextet, b: Sextet)
    requires b % 16 == 0
    ensures DecodeValues([a, b]).Some? && SextetsOf(DecodeValues([a, b]).value) == [a, b]
  {
    DecodeTwo(a, b);
    var x: byte := a * 4 + b / 16;
    BytesAre(Joined([a, b, 0, 0]), x, 0, 0);
    OneByteGroup(x);
    assert SextetsOf([x]) == [x / 4, x % 4 * 16];
  }

  lemma ThreeValues(a: Sextet, b: Sextet, c: Sextet)
    requires c % 4 == 0
    ensures DecodeValues([a, b, c]).Some? && SextetsOf(DecodeValues([a, b, c]).value) == [a, b, c]
  {
    DecodeThree(a, b, c);
    var x: byte, y: byte := a * 4 + b / 16, b % 16 * 16 + c / 4;
    ThreeJoined(a, b, c);
    BytesAre(Joined([a, b, c, 0]), x, y, 0);
    assert GroupBytes(Joined([a, b, c, 0]))[..2] == [x, y];
    TwoByteGroup(x, y);
    assert SextetsOf([x, y]) == [x / 4, x % 4 * 16 + y / 16, y % 16 * 4];
    ThreeSplit(a, b, c);
  }

  lemma ThreeJoined(a: Sextet, b: Sextet, c: Sextet)
    requires c % 4 == 0
    ensures Joined([a, b, c, 0]) == (a * 4 + b / 16) * 0x10000 + (b % 16 * 16 + c / 4) * 0x100
  {
    assert b == b / 16 * 16 + b % 16;
    assert c == c / 4 * 4;
  }

  lemma ThreeSplit(a: Sextet, b: Sextet, c: Sextet)
    requires c % 4 == 0
    ensures
      var x, y := a * 4 + b / 16, b % 16 * 16 + c / 4;
      x / 4 == a && x % 4 * 16 + y / 16 == b && y % 16 * 4 == c
  {
  }

  /** A text is the encoding of some bytes exactly when it strictly decodes to them. */
  lemma DecodeInvertsEncode(src: Bytes, t: Bytes)
    ensures t == Encode(src) <==> Decode(t) == Some(src)
  {
    EncodeIsLetters(src);
    if t == Encode(src) {
      ValuesOfLetters(SextetsOf(src), t);
      DecodeSextets(src);
    }
    if Decode(t) == Some(src) {
      var vs := Values(t).value;
      ValuesOfLetters(vs, t);
      SextetsDecoded(vs);
    }
  }

  lemma EncodeInjective(a: Bytes, b: Bytes)
    requires Encode(a) == Encode(b)
    ensures a == b
  {
    DecodeInvertsEncode(a, Encode(a));
    DecodeInvertsEncode(b, Encode(b));
  }

  lemma AlphabetOnly(src: Bytes)
    ensures forall i | 0 <= i < |Encode(src)| :: Value(Encode(src)[i]).Some?
  {
    EncodeIsLetters(src);
    var vs := SextetsOf(src);
    forall i | 0 <= i < |Encode(src)| ensures Value(Encode(src)[i]).Some? {
      LetterValue(vs[i], Encode(src)[i]);
    }
  }

  // ---------------------------------------------------------------------
  // Letter by letter: table 2 of RFC 4648, and six bits a letter
  // ---------------------------------------------------------------------

  lemma TableTwo(v: Sextet)
    ensures v < 26 ==> Letter(v) == 'A' as int + v
    ensures 26 <= v < 52 ==> Letter(v) == 'a' as int + (v - 26)
    ensures 52 <= v < 62 ==> Letter(v) == '0' as int + (v - 52)
    ensures v == 62 ==> Letter(v) == '-' as int
    ensures v == 63 ==> Letter(v) == '_' as int
  {
  }

  /** The byte at position i, or zero past the end. */
  function ByteAt(src: Bytes, i: nat): byte {
    if i < |src| then src[i] else 0
  }

  /** The six bits that letter i stands for: each three bytes give four of them, the first byte's highest first. */
  function SixBits(src: Bytes, i: nat): Sextet {
    var a, b, c := ByteAt(src, i / 4 * 3), ByteAt(src, i / 4 * 3 + 1), ByteAt(src, i / 4 * 3 + 2);
    if i % 4 == 0 then a / 4
    else if i % 4 == 1 then a % 4 * 16 + b / 16
    else if i % 4 == 2 then b % 16 * 4 + c / 64
    else c % 64
  }

  lemma GroupOfThree(a: byte, b: byte, c: byte)
    ensures Sextets(Group([a, b, c])) == [a / 4, a % 4 * 16 + b / 16, b % 16 * 4 + c / 64, c % 64]
  {
    var val := Group([a, b, c]);
    assert val == a * 0x10000 + b * 0x100 + c;
    SextetsAre(val, a / 4, a % 4 * 16 + b / 16, b % 16 * 4 + c / 64, c % 64);
  }

  /** Every letter of an encoding stands for its six bits of the source, the bits past the end being zero. */
  lemma {:induction false} LettersAre(src: Bytes, i: nat)
    requires i < |Encode(src)|
    ensures Encode(src)[i] == Letter(SixBits(src, i))
    decreases |src|
  {
    if |src| == 1 {
      assert src == [src[0]];
      OneByteGroup(src[0]);
    } else if |src| == 2 {
      assert src == [src[0], src[1]];
      TwoByteGroup(src[0], src[1]);
    } else {
      assert src[..3] == [src[0], src[1], src[2]];
      GroupOfThree(src[0], src[1], src[2]);
      if i >= 4 {
        LettersAre(src[3..], i - 4);
        SixBitsLater(src, i);
      } else {
        FirstSixBits(src, i);
      }
    }
  }

  lemma SixBitsLater(src: Bytes, i: nat)
    requires i >= 4 && |src| >= 3
    ensures SixBits(src[3..], i - 4) == SixBits(src, i)
  {
    var q := i / 4;
    assert (i - 4) / 4 == q - 1 && (i - 4) % 4 == i % 4;
    assert ByteAt(src[3..], (q - 1) * 3) == ByteAt(src, q * 3);
    assert ByteAt(src[3..], (q - 1) * 3 + 1) == ByteAt(src, q * 3 + 1);
    assert ByteAt(src[3..], (q - 1) * 3 + 2) == ByteAt(src, q * 3 + 2);
  }

  lemma FirstSixBits(src: Bytes, i: nat)
    requires i < 4 && |src| >= 3
    ensures
      SixBits(src, i) == [src[0] / 4, src[0] % 4 * 16 + src[1] / 16, src[1] % 16 * 4 + src[2] / 64, src[2] % 64][i]
  {
    assert i / 4 == 0 && i % 4 == i;
  }

  /** As many letters as it takes: four for every three bytes, two for one more and three for two more. */
  lemma LetterCount(src: Bytes)
    ensures |Encode(src)| == (8 * |src| + 5) / 6
  {
  }
}
