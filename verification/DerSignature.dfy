/** From the DER signature a keystore returns to the 64 bytes a contract verifies. */
module DerSignature {
  import opened Base

  /** The order of secp256r1. */
  const CURVE_ORDER: nat := 0xFFFFFFFF00000000FFFFFFFFFFFFFFFFBCE6FAADA7179E84F3B9CAC2FC632551
  const HALF_ORDER: nat := 0x7FFFFFFF800000007FFFFFFFFFFFFFFFDE737D56D38BCF4279DCE5617E3192A8

  datatype FormatError =
    | Ended | NotASequence | WrongSequenceLength | NotAnInteger | IntegerOutOfRange | TrailingBytes | OutsideOrder

  // ---------------------------------------------------------------------
  // Numbers as bytes, most significant first
  // ---------------------------------------------------------------------

  /** The fold `total << 8 | byte`. */
  function BigEndian(bytes: Bytes): nat {
    if bytes == [] then 0 else Shift8(BigEndian(bytes[..|bytes| - 1]), bytes[|bytes| - 1])
  }

  function Pow256(k: nat): (p: nat)
    ensures p > 0
  {
    if k == 0 then 1 else 0x100 * Pow256(k - 1)
  }

  /** The low k bytes of n. */
  function FixedBytes(n: nat, k: nat): (bytes: Bytes)
    ensures |bytes| == k
  {
    if k == 0 then [] else FixedBytes(n / 0x100, k - 1) + [n % 0x100]
  }

  /** `toFixedBytes`: fills 32 bytes from the last to the first. */
  method ToFixedBytes(n: nat) returns (bytes: array<byte>)
    ensures fresh(bytes) && bytes[..] == FixedBytes(n, 32)
  {
    bytes := new byte[32](_ => 0);
    var remaining := n;
    var index := 31;
    while index >= 0
      invariant -1 <= index <= 31
      invariant FixedBytes(remaining, index + 1) + bytes[index + 1..] == FixedBytes(n, 32)
      decreases index
    {
      ghost var filled := bytes[index + 1..];
      ghost var low: byte := remaining % 0x100;
      bytes[index] := remaining % 0x100;
      assert bytes[index..] == [low] + filled;
      assert FixedBytes(remaining / 0x100, index) + ([low] + filled) == FixedBytes(remaining, index + 1) + filled;
      remaining := remaining / 0x100;
      index := index - 1;
    }
    assert bytes[0..] == bytes[..];
  }

  lemma {:induction false} FixedThenFold(n: nat, k: nat)
    requires n < Pow256(k)
    ensures BigEndian(FixedBytes(n, k)) == n
  {
    if k > 0 {
      FixedThenFold(n / 0x100, k - 1);
      assert FixedBytes(n, k)[..k - 1] == FixedBytes(n / 0x100, k - 1);
    }
  }

  lemma {:induction false} FoldThenFixed(bytes: Bytes)
    ensures FixedBytes(BigEndian(bytes), |bytes|) == bytes
  {
    if bytes != [] {
      var front := bytes[..|bytes| - 1];
      FoldThenFixed(front);
      assert BigEndian(bytes) / 0x100 == BigEndian(front);
      assert bytes == front + [bytes[|bytes| - 1]];
    }
  }

  /** Leading zeros change nothing. */
  lemma {:induction false} LeadingZero(bytes: Bytes)
    ensures BigEndian([0] + bytes) == BigEndian(bytes)
  {
    if bytes == [] {
      assert [0] + bytes == [0];
      assert BigEndian([0]) == Shift8(BigEndian([]), 0);
    } else {
      LeadingZero(bytes[..|bytes| - 1]);
      assert ([0] + bytes)[..|bytes|] == [0] + bytes[..|bytes| - 1];
    }
  }

  // ---------------------------------------------------------------------
  // Reading the structure
  // ---------------------------------------------------------------------

  datatype Cursor = Cursor(value: nat, offset: nat)

  function ReadInteger(der: Bytes, offset: nat): (r: Result<Cursor, FormatError>)
    requires offset <= |der|
    ensures r.Ok? ==> offset + 2 < r.value.offset <= |der|
  {
    if offset >= |der| then Err(Ended)
    else if der[offset] != 0x02 then Err(NotAnInteger)
    else if offset + 1 >= |der| then Err(Ended)
    else
      var length := der[offset + 1];
      if length == 0 || offset + 2 + length > |der| then Err(IntegerOutOfRange)
      else Ok(Cursor(BigEndian(der[offset + 2..offset + 2 + length]), offset + 2 + length))
  }

  predicate InOrder(n: nat) {
    0 < n < CURVE_ORDER
  }

  function LowS(s: nat): nat
    requires InOrder(s)
  {
    if s > HALF_ORDER then CURVE_ORDER - s else s
  }

  /** The two integers a well-formed signature holds. */
  function ReadSignature(der: Bytes): (r: Result<(nat, nat), FormatError>)
    ensures r.Ok? ==> InOrder(r.value.0) && InOrder(r.value.1)
  {
    if |der| < 1 then Err(Ended)
    else if der[0] != 0x30 then Err(NotASequence)
    else if |der| < 2 then Err(Ended)
    else if |der| - 2 != der[1] then Err(WrongSequenceLength)
    else
      match ReadInteger(der, 2)
      case Err(e) => Err(e)
      case Ok(Cursor(r, afterR)) =>
        match ReadInteger(der, afterR)
        case Err(e) => Err(e)
        case Ok(Cursor(s, afterS)) =>
          if afterS != |der| then Err(TrailingBytes)
          else if !InOrder(r) || !InOrder(s) then Err(OutsideOrder)
          else Ok((r, s))
  }

  function Compact(r: nat, s: nat): Bytes
    requires InOrder(s)
  {
    FixedBytes(r, 32) + FixedBytes(LowS(s), 32)
  }

  /** The parser: der and a cursor that moves. */
  class DerReader {
    const der: Bytes
    var offset: nat

    constructor (der: Bytes)
      ensures this.der == der && offset == 0
    {
      this.der := der;
      offset := 0;
    }

    method ReadByte() returns (r: Result<byte, FormatError>)
      modifies this
      ensures if old(offset) < |der| then r == Ok(der[old(offset)]) && offset == old(offset) + 1
              else r == Err(Ended) && offset == old(offset)
    {
      if offset >= |der| {
        return Err(Ended);
      }
      r := Ok(der[offset]);
      offset := offset + 1;
    }

    method ReadBigInt() returns (r: Result<nat, FormatError>)
      requires offset <= |der|
      modifies this
      ensures match ReadInteger(der, old(offset))
        case Err(e) => r == Err(e)
        case Ok(Cursor(value, after)) => r == Ok(value) && offset == after
    {
      var tag := ReadByte();
      if tag.Err? { return Err(tag.error); }
      if tag.value != 0x02 { return Err(NotAnInteger); }
      var length := ReadByte();
      if length.Err? { return Err(length.error); }
      if length.value == 0 || offset + length.value > |der| {
        return Err(IntegerOutOfRange);
      }
      var bytes := der[offset..offset + length.value];
      offset := offset + length.value;
      return Ok(BigEndian(bytes));
    }
  }

  method DerToCompactSignature(der: Bytes) returns (compact: Result<Bytes, FormatError>)
    ensures match ReadSignature(der)
      case Err(e) => compact == Err(e)
      case Ok((r, s)) => compact == Ok(Compact(r, s))
  {
    var reader := new DerReader(der);
    var tag := reader.ReadByte();
    if tag.Err? { return Err(tag.error); }
    if tag.value != 0x30 { return Err(NotASequence); }
    var sequenceLength := reader.ReadByte();
    if sequenceLength.Err? { return Err(sequenceLength.error); }
    if |der| - 2 != sequenceLength.value { return Err(WrongSequenceLength); }
    var r := reader.ReadBigInt();
    if r.Err? { return Err(r.error); }
    var s := reader.ReadBigInt();
    if s.Err? { return Err(s.error); }
    if reader.offset != |der| { return Err(TrailingBytes); }
    if !(0 < r.value < CURVE_ORDER && 0 < s.value < CURVE_ORDER) { return Err(OutsideOrder); }
    var left := ToFixedBytes(r.value);
    var right := ToFixedBytes(if s.value > HALF_ORDER then CURVE_ORDER - s.value else s.value);
    return Ok(left[..] + right[..]);
  }

  // ---------------------------------------------------------------------
  // What a keystore produces: section 2.2.3 of RFC 3279, section 8.3 of ITU-T X.690
  // ---------------------------------------------------------------------

  /** The fewest bytes that hold n. */
  function Magnitude(n: nat): (bytes: Bytes)
    ensures bytes != [] && (n > 0 ==> bytes[0] > 0)
  {
    if n < 0x100 then [n] else Magnitude(n / 0x100) + [n % 0x100]
  }

  /** A DER integer; a leading zero keeps a set top bit from reading as a sign. */
  function Content(n: nat): Bytes {
    if Magnitude(n)[0] >= 0x80 then [0] + Magnitude(n) else Magnitude(n)
  }

  function EncodeInteger(n: nat): Bytes
    requires InOrder(n)
  {
    ContentShort(n);
    [0x02, |Content(n)|] + Content(n)
  }

  function EncodeSignature(r: nat, s: nat): Bytes
    requires InOrder(r) && InOrder(s)
  {
    ContentShort(r);
    ContentShort(s);
    [0x30, |EncodeInteger(r)| + |EncodeInteger(s)|] + EncodeInteger(r) + EncodeInteger(s)
  }

  lemma {:induction false} MagnitudeFolds(n: nat)
    ensures BigEndian(Magnitude(n)) == n
  {
    if n < 0x100 {
      assert [n as byte][..0] == [];
      assert BigEndian([n as byte]) == Shift8(BigEndian([]), n);
    } else {
      MagnitudeFolds(n / 0x100);
      assert Magnitude(n)[..|Magnitude(n)| - 1] == Magnitude(n / 0x100);
    }
  }

  lemma {:induction false} MagnitudeShort(n: nat, k: nat)
    requires 0 < k && n < Pow256(k)
    ensures |Magnitude(n)| <= k
  {
    if n >= 0x100 {
      assert Pow256(1) == 0x100 * Pow256(0);
      MagnitudeShort(n / 0x100, k - 1);
    }
  }

  lemma {:induction false} Pow256Splits(a: nat, b: nat)
    ensures Pow256(a + b) == Pow256(a) * Pow256(b)
  {
    if a > 0 {
      Pow256Splits(a - 1, b);
    }
  }

  lemma OrderFits()
    ensures CURVE_ORDER < Pow256(32)
  {
    assert Pow256(4) == 0x1_0000_0000 by {
      assert Pow256(1) == 0x100 && Pow256(2) == 0x1_0000 && Pow256(3) == 0x100_0000;
    }
    Pow256Splits(4, 4);
    Pow256Splits(8, 8);
    Pow256Splits(16, 16);
  }

  lemma ContentShort(n: nat)
    requires InOrder(n)
    ensures 0 < |Content(n)| <= 33
  {
    OrderFits();
    MagnitudeShort(n, 32);
  }

  lemma ContentFolds(n: nat)
    ensures BigEndian(Content(n)) == n
  {
    MagnitudeFolds(n);
    LeadingZero(Magnitude(n));
  }

  /** An encoded integer is read back wherever it stands. */
  lemma ReadEncodedInteger(before: Bytes, n: nat, after: Bytes)
    requires InOrder(n)
    ensures
      var der := before + EncodeInteger(n) + after;
      ReadInteger(der, |before|) == Ok(Cursor(n, |before| + |EncodeInteger(n)|))
  {
    ContentShort(n);
    ContentFolds(n);
    IntegerHeld(before, Content(n), after);
    ReadHeld(before + EncodeInteger(n) + after, |before|, Content(n));
  }

  /** The bytes of an integer stand at o. */
  predicate HoldsInteger(der: Bytes, o: nat, content: Bytes) {
    && 0 < |content| < 0x100 && o + 2 + |content| <= |der|
    && der[o] == 0x02 && der[o + 1] == |content|
    && der[o + 2..o + 2 + |content|] == content
  }

  lemma IntegerHeld(before: Bytes, content: Bytes, after: Bytes)
    requires 0 < |content| < 0x100
    ensures HoldsInteger(before + ([0x02, |content|] + content) + after, |before|, content)
  {
  }

  lemma ReadHeld(der: Bytes, o: nat, content: Bytes)
    requires HoldsInteger(der, o, content)
    ensures ReadInteger(der, o) == Ok(Cursor(BigEndian(content), o + 2 + |content|))
  {
  }

  lemma ReadEncodedSignature(r: nat, s: nat)
    requires InOrder(r) && InOrder(s)
    ensures ReadSignature(EncodeSignature(r, s)) == Ok((r, s))
  {
    ContentShort(r);
    ContentShort(s);
    var der := EncodeSignature(r, s);
    var head := der[..2];
    assert der == head + EncodeInteger(r) + EncodeInteger(s);
    ReadEncodedInteger(head, r, EncodeInteger(s));
    assert der == (head + EncodeInteger(r)) + EncodeInteger(s) + [];
    ReadEncodedInteger(head + EncodeInteger(r), s, []);
  }

  lemma LowSIsLow(s: nat)
    requires InOrder(s)
    ensures InOrder(LowS(s)) && LowS(s) <= HALF_ORDER
    ensures LowS(s) == Min(s, CURVE_ORDER - s) && LowS(LowS(s)) == LowS(s)
  {
  }

  /** The halves of a compact signature are its two numbers, the second in low form. */
  lemma CompactHalves(r: nat, s: nat)
    requires InOrder(r) && InOrder(s)
    ensures |Compact(r, s)| == 64
    ensures BigEndian(Compact(r, s)[..32]) == r
    ensures BigEndian(Compact(r, s)[32..]) == Min(s, CURVE_ORDER - s)
  {
    OrderFits();
    LowSIsLow(s);
    FixedThenFold(r, 32);
    FixedThenFold(LowS(s), 32);
    assert Compact(r, s)[..32] == FixedBytes(r, 32);
    assert Compact(r, s)[32..] == FixedBytes(LowS(s), 32);
  }

  /** Every encoded signature comes out as 64 bytes: r beside the smaller of s and n - s. */
  lemma EncodedSignature(r: nat, s: nat)
    requires InOrder(r) && InOrder(s)
    ensures ReadSignature(EncodeSignature(r, s)) == Ok((r, s))
    ensures |Compact(r, s)| == 64
    ensures BigEndian(Compact(r, s)[..32]) == r
    ensures BigEndian(Compact(r, s)[32..]) == Min(s, CURVE_ORDER - s)
  {
    ReadEncodedSignature(r, s);
    CompactHalves(r, s);
  }

  /** Whatever is accepted, S is at most half the order, and encoding the result again changes nothing. */
  lemma AcceptedIsLowAndStable(der: Bytes)
    requires ReadSignature(der).Ok?
    ensures
      var (r, s) := ReadSignature(der).value;
      var compact := Compact(r, s);
      var r', s' := BigEndian(compact[..32]), BigEndian(compact[32..]);
      && InOrder(r') && InOrder(s') && s' <= HALF_ORDER
      && ReadSignature(EncodeSignature(r', s')) == Ok((r', s'))
      && Compact(r', s') == compact
  {
    var (r, s) := ReadSignature(der).value;
    CompactHalves(r, s);
    LowSIsLow(s);
    ReadEncodedSignature(r, LowS(s));
  }

  /** Two signatures come out alike exactly when their numbers agree up to the sign of s. */
  lemma CompactInjective(r: nat, s: nat, r': nat, s': nat)
    requires InOrder(r) && InOrder(s) && InOrder(r') && InOrder(s')
    ensures Compact(r, s) == Compact(r', s') <==> r == r' && (s == s' || s + s' == CURVE_ORDER)
  {
    CompactHalves(r, s);
    CompactHalves(r', s');
    if r == r' && (s == s' || s + s' == CURVE_ORDER) {
      OddOrder(s, s');
    }
  }

  lemma OddOrder(s: nat, s': nat)
    requires InOrder(s) && InOrder(s') && (s == s' || s + s' == CURVE_ORDER)
    ensures LowS(s) == LowS(s')
  {
    assert CURVE_ORDER == 2 * HALF_ORDER + 1;
  }

  // ---------------------------------------------------------------------
  // What is accepted, and what is refused for which reason
  // ---------------------------------------------------------------------

  /** A sequence of two integers with these contents, and nothing after them. */
  predicate Shaped(der: Bytes, a: Bytes, b: Bytes) {
    && 0 < |a| && 0 < |b| && |a| + |b| + 4 < 0x100
    && der == [0x30, |a| + |b| + 4] + ([0x02, |a|] + a) + ([0x02, |b|] + b)
  }

  /** The fold is the number in base 256. */
  lemma BigEndianMeans(front: Bytes, last: byte)
    ensures BigEndian([]) == 0 && BigEndian(front + [last]) == 256 * BigEndian(front) + last
  {
    assert (front + [last])[..|front|] == front;
  }

  /** Exactly the sequences of two integers are accepted, both between 0 and the order, and read as those numbers. */
  lemma AcceptedWhen(der: Bytes, r: nat, s: nat)
    ensures
      ReadSignature(der) == Ok((r, s))
      <==>
      && 0 < r < CURVE_ORDER && 0 < s < CURVE_ORDER
      && exists a, b :: Shaped(der, a, b) && BigEndian(a) == r && BigEndian(b) == s
  {
    if ReadSignature(der) == Ok((r, s)) {
      AcceptedIsShaped(der, r, s);
    }
    if a, b :| Shaped(der, a, b) && BigEndian(a) == r && BigEndian(b) == s {
      ShapedIsRead(der, a, b);
    }
  }

  /** A sequence of the right length, and in it one integer after the other up to the end. */
  predicate TwoIntegers(der: Bytes, r: nat, s: nat) {
    && |der| >= 2 && der[0] == 0x30 && der[1] == |der| - 2
    && ReadInteger(der, 2).Ok? && ReadInteger(der, 2).value.value == r
    && ReadInteger(der, ReadInteger(der, 2).value.offset) == Ok(Cursor(s, |der|))
  }

  /** What an integer that was read stands for in the bytes. */
  lemma IntegerStands(der: Bytes, o: nat)
    requires o <= |der| && ReadInteger(der, o).Ok?
    ensures
      var c := der[o + 2..ReadInteger(der, o).value.offset];
      && 0 < |c| < 0x100 && BigEndian(c) == ReadInteger(der, o).value.value
      && der[o..ReadInteger(der, o).value.offset] == [0x02, |c|] + c
  {
    var n := ReadInteger(der, o).value.offset;
    var c := der[o + 2..n];
    assert n == o + 2 + der[o + 1] as int && |c| == der[o + 1] as int;
    assert der[o..n] == [der[o], der[o + 1]] + c;
  }

  lemma AcceptedIsShaped(der: Bytes, r: nat, s: nat)
    requires TwoIntegers(der, r, s)
    ensures exists a, b :: Shaped(der, a, b) && BigEndian(a) == r && BigEndian(b) == s
  {
    var m := ReadInteger(der, 2).value.offset;
    IntegerStands(der, 2);
    IntegerStands(der, m);
    var a, b := der[4..m], der[m + 2..|der|];
    assert der == der[..2] + der[2..m] + der[m..|der|];
    assert der[..2] == [0x30, |a| + |b| + 4];
    assert Shaped(der, a, b);
  }

  lemma ShapedIsRead(der: Bytes, a: Bytes, b: Bytes)
    requires Shaped(der, a, b)
    ensures ReadInteger(der, 2) == Ok(Cursor(BigEndian(a), 4 + |a|))
    ensures ReadInteger(der, 4 + |a|) == Ok(Cursor(BigEndian(b), |der|))
    ensures der[0] == 0x30 && der[1] == |der| - 2
  {
    var head: Bytes := [0x30, |a| + |b| + 4];
    var first: Bytes, second: Bytes := [0x02, |a|] + a, [0x02, |b|] + b;
    IntegerHeld(head, a, second);
    ReadHeld(der, 2, a);
    assert der == (head + first) + second + [];
    IntegerHeld(head + first, b, []);
    ReadHeld(der, 4 + |a|, b);
    assert |der| == 6 + |a| + |b|;
  }

  lemma RefusedWhen(der: Bytes)
    ensures ReadSignature(der) == Err(NotASequence) <==> der != [] && der[0] != 0x30
    ensures ReadSignature(der) == Err(WrongSequenceLength) <==> |der| >= 2 && der[0] == 0x30 && der[1] != |der| - 2
    ensures ReadSignature(der) == Err(OutsideOrder) <==>
              exists a, b :: Shaped(der, a, b)
                             && !(0 < BigEndian(a) < CURVE_ORDER && 0 < BigEndian(b) < CURVE_ORDER)
  {
    if ReadSignature(der) == Err(OutsideOrder) {
      var first := ReadInteger(der, 2).value;
      AcceptedIsShaped(der, first.value, ReadInteger(der, first.offset).value.value);
    }
    if a, b :| Shaped(der, a, b) && !(0 < BigEndian(a) < CURVE_ORDER && 0 < BigEndian(b) < CURVE_ORDER) {
      ShapedIsRead(der, a, b);
    }
  }

  lemma IntegerRefusedWhen(der: Bytes, o: nat)
    requires o <= |der|
    ensures ReadInteger(der, o) == Err(NotAnInteger) <==> o < |der| && der[o] != 0x02
    ensures ReadInteger(der, o) == Err(Ended) <==> o == |der| || (der[o] == 0x02 && o + 1 == |der|)
    ensures ReadInteger(der, o) == Err(IntegerOutOfRange) <==>
              o + 1 < |der| && der[o] == 0x02 && (der[o + 1] == 0 || o + 2 + der[o + 1] as int > |der|)
  {
  }

  /** The reference encoding of an integer is the shortest that does not read as a negative number. */
  lemma ContentIsShortest(n: nat)
    ensures Content(n)[0] < 0x80
    ensures |Content(n)| > 1 && Content(n)[0] == 0 ==> Content(n)[1] >= 0x80
  {
  }
}
