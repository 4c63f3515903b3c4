/** Encoding the values the reader accepts, and reading them back. */
module CborRoundTrip {
  import opened Base
  import opened Cbor

  /** The initial byte and argument of an item: section 3 of RFC 8949, shortest form. */
  function Head(major: nat, n: nat): Bytes
    requires major < 8 && n < WIDTH_32
  {
    if n < 24 then [InitialByte(major, n)]
    else if n < 0x100 then [InitialByte(major, 24), n]
    else if n < 0x10000 then [InitialByte(major, 25), n / 0x100, n % 0x100]
    else [InitialByte(major, 26), n / 0x1000000, n / 0x10000 % 0x100, n / 0x100 % 0x100, n % 0x100]
  }

  function InitialByte(major: nat, info: nat): (b: byte)
    requires major < 8 && info < 32
    ensures b / 32 == major && b % 32 == info
  {
    major * 32 + info
  }

  /** What the encoding covers: 32-bit arguments, and each map key once. */
  ghost predicate Encodable(v: Value)
    decreases v, 0
  {
    match v
    case Number(n) => -WIDTH_32 <= n < WIDTH_32
    case ByteString(bytes) => |bytes| < WIDTH_32
    case Text(text) => |text| < WIDTH_32
    case Array(items) => |items| < WIDTH_32 && forall i | 0 <= i < |items| :: Encodable(items[i])
    case Map(entries) =>
      && |entries| < WIDTH_32 && DistinctKeys(entries)
      && forall i | 0 <= i < |entries| :: KeyEncodable(entries[i].key) && Encodable(entries[i].value)
    case _ => true
  }

  ghost predicate KeyEncodable(k: Key) {
    match k
    case NumberKey(n) => -WIDTH_32 <= n < WIDTH_32
    case TextKey(text) => |text| < WIDTH_32
  }

  predicate DistinctKeys(entries: seq<Entry>) {
    forall i, j | 0 <= i < j < |entries| :: entries[i].key != entries[j].key
  }

  ghost function Encode(v: Value): Bytes
    requires Encodable(v)
    decreases v, 1, 0
  {
    match v
    case Number(n) => EncodeNumber(n)
    case ByteString(bytes) => Head(2, |bytes|) + bytes
    case Text(text) => Head(3, |text|) + text
    case Boolean(truth) => [InitialByte(7, if truth then 21 else 20)]
    case Null => [InitialByte(7, 22)]
    case Array(items) => Head(4, |items|) + EncodeItems(v, 0)
    case Map(entries) => Head(5, |entries|) + EncodeEntries(v, 0)
  }

  function EncodeNumber(n: int): Bytes
    requires -WIDTH_32 <= n < WIDTH_32
  {
    if n >= 0 then Head(0, n) else Head(1, -1 - n)
  }

  ghost function EncodeKey(k: Key): Bytes
    requires KeyEncodable(k)
  {
    match k
    case NumberKey(n) => EncodeNumber(n)
    case TextKey(text) => Head(3, |text|) + text
  }

  /** The items of an array from position i on. */
  ghost function EncodeItems(v: Value, i: nat): Bytes
    requires v.Array? && Encodable(v) && i <= |v.items|
    decreases v, 0, |v.items| - i
  {
    if i == |v.items| then [] else Encode(v.items[i]) + EncodeItems(v, i + 1)
  }

  ghost function EncodeEntry(v: Value, i: nat): Bytes
    requires v.Map? && Encodable(v) && i < |v.entries|
    decreases v, 0, 0
  {
    EncodeKey(v.entries[i].key) + Encode(v.entries[i].value)
  }

  /** The entries of a map from position i on. */
  ghost function EncodeEntries(v: Value, i: nat): Bytes
    requires v.Map? && Encodable(v) && i <= |v.entries|
    decreases v, 0, |v.entries| - i + 1
  {
    if i == |v.entries| then [] else EncodeEntry(v, i) + EncodeEntries(v, i + 1)
  }

  /** Every head width reads back to its argument. */
  lemma HeadArgument(major: nat, n: nat, rest: Bytes)
    requires major < 8 && n < WIDTH_32
    ensures
      var h := Head(major, n);
      && (h + rest)[0] / 32 == major
      && Argument((h + rest)[0] % 32, (h + rest)[1..]) == Ok(Reading(n, |h| - 1))
      && (h + rest)[1..][|h| - 1..] == rest
  {
    var h := Head(major, n);
    assert (h + rest)[1..] == h[1..] + rest;
    if n >= 0x10000 {
      FourBytes(n);
    }
  }

  /** After its head, an item is what its body reads as. */
  lemma HeadReads(major: nat, n: nat, rest: Bytes)
    requires major < 6 && n < WIDTH_32
    ensures Read(Head(major, n) + rest) == Advance(|Head(major, n)|, ReadBody(major, n, rest))
  {
    var s := Head(major, n) + rest;
    HeadArgument(major, n, rest);
    assert ReadMajor(s[0] / 32, s[0] % 32, s[1..]) == Advance(|Head(major, n)| - 1, ReadBody(major, n, rest));
  }

  lemma FourBytes(n: nat)
    requires n < WIDTH_32
    ensures n == ((n / 0x1000000 * 0x100 + n / 0x10000 % 0x100) * 0x100 + n / 0x100 % 0x100) * 0x100 + n % 0x100
  {
    assert n / 0x10000 == n / 0x1000000 * 0x100 + n / 0x10000 % 0x100;
    assert n / 0x100 == n / 0x10000 * 0x100 + n / 0x100 % 0x100;
  }

  lemma ReadNumber(n: int, rest: Bytes)
    requires -WIDTH_32 <= n < WIDTH_32
    ensures Read(EncodeNumber(n) + rest) == Ok(Reading(Number(n), |EncodeNumber(n)|))
  {
    if n >= 0 {
      HeadReads(0, n, rest);
    } else {
      HeadReads(1, -1 - n, rest);
    }
  }

  lemma TakeFirst(bytes: Bytes, rest: Bytes)
    ensures Take(|bytes|, bytes + rest) == Ok(Reading(bytes, |bytes|))
  {
    assert (bytes + rest)[..|bytes|] == bytes;
  }

  /** `h` heads an item of this major type whose argument is n. */
  ghost predicate Heads(h: Bytes, major: nat, n: nat, rest: Bytes)
    requires major < 6
  {
    Read(h + rest) == Advance(|h|, ReadBody(major, n, rest))
  }

  lemma StringAfter(h: Bytes, text: bool, bytes: Bytes, rest: Bytes)
    requires Heads(h, if text then 3 else 2, |bytes|, bytes + rest)
    ensures Read(h + bytes + rest) == Ok(Reading(if text then Text(bytes) else ByteString(bytes), |h + bytes|))
  {
    TakeFirst(bytes, rest);
    assert h + bytes + rest == h + (bytes + rest);
  }

  lemma ReadString(text: bool, bytes: Bytes, rest: Bytes)
    requires |bytes| < WIDTH_32
    ensures
      var s := Head(if text then 3 else 2, |bytes|) + bytes;
      Read(s + rest) == Ok(Reading(if text then Text(bytes) else ByteString(bytes), |s|))
  {
    HeadReads(if text then 3 else 2, |bytes|, bytes + rest);
    StringAfter(Head(if text then 3 else 2, |bytes|), text, bytes, rest);
  }

  /**
   * Reading is the left inverse of encoding: whatever follows, the value comes
   * back and exactly its encoding is consumed.
   */
  lemma {:induction false} ReadEncoded(v: Value, rest: Bytes)
    requires Encodable(v)
    ensures Read(Encode(v) + rest) == Ok(Reading(v, |Encode(v)|))
    decreases v, 1, 0
  {
    match v
    case Number(n) => ReadNumber(n, rest);
    case ByteString(bytes) => ReadString(false, bytes, rest);
    case Text(text) => ReadString(true, text, rest);
    case Boolean(truth) => ReadSimple(if truth then 21 else 20, rest);
    case Null => ReadSimple(22, rest);
    case Array(items) =>
      ReadItemsEncoded(v, 0, rest);
      HeadReads(4, |items|, EncodeItems(v, 0) + rest);
      ArrayAfter(v, Head(4, |items|), EncodeItems(v, 0), rest);
    case Map(entries) =>
      ReadEntriesEncoded(v, 0, rest);
      HeadReads(5, |entries|, EncodeEntries(v, 0) + rest);
      MapAfter(v, Head(5, |entries|), EncodeEntries(v, 0), rest);
  }

  lemma ReadSimple(info: nat, rest: Bytes)
    requires 20 <= info <= 22
    ensures Read([InitialByte(7, info)] + rest)
         == Ok(Reading(if info == 20 then Boolean(false) else if info == 21 then Boolean(true) else Null, 1))
  {
    var s := [InitialByte(7, info)] + rest;
    assert ReadMajor(s[0] / 32, s[0] % 32, s[1..]).Ok?;
  }

  lemma ArrayAfter(v: Value, h: Bytes, body: Bytes, rest: Bytes)
    requires v.Array? && Heads(h, 4, |v.items|, body + rest)
    requires ReadItems(|v.items|, v.items[..0], body + rest) == Ok(Reading(v.items, |body|))
    ensures Read(h + body + rest) == Ok(Reading(v, |h + body|))
  {
    assert v.items[..0] == [];
    assert h + body + rest == h + (body + rest);
  }

  lemma MapAfter(v: Value, h: Bytes, body: Bytes, rest: Bytes)
    requires v.Map? && Heads(h, 5, |v.entries|, body + rest)
    requires ReadEntries(|v.entries|, v.entries[..0], body + rest) == Ok(Reading(v.entries, |body|))
    ensures Read(h + body + rest) == Ok(Reading(v, |h + body|))
  {
    assert v.entries[..0] == [];
    assert h + body + rest == h + (body + rest);
  }

  /** Reading one item first, then the rest. */
  lemma ItemThenMore(all: seq<Value>, i: nat, x: Bytes, y: Bytes, m: nat)
    requires i < |all| && Read(x + y) == Ok(Reading(all[i], |x|))
    requires ReadItems(|all| - i - 1, all[..i + 1], y) == Ok(Reading(all, m))
    ensures ReadItems(|all| - i, all[..i], x + y) == Ok(Reading(all, |x| + m))
  {
    assert all[..i] + [all[i]] == all[..i + 1];
    assert (x + y)[|x|..] == y;
  }

  lemma EncodeItemsStep(v: Value, i: nat, rest: Bytes)
    requires v.Array? && Encodable(v) && i < |v.items|
    ensures EncodeItems(v, i) + rest == Encode(v.items[i]) + (EncodeItems(v, i + 1) + rest)
    ensures |EncodeItems(v, i)| == |Encode(v.items[i])| + |EncodeItems(v, i + 1)|
  {
  }

  ghost predicate ItemsReadFrom(v: Value, i: nat, rest: Bytes)
    requires v.Array? && Encodable(v) && i <= |v.items|
  {
    ReadItems(|v.items| - i, v.items[..i], EncodeItems(v, i) + rest) == Ok(Reading(v.items, |EncodeItems(v, i)|))
  }

  lemma ItemsStep(v: Value, i: nat, rest: Bytes)
    requires v.Array? && Encodable(v) && i < |v.items|
    requires Read(Encode(v.items[i]) + (EncodeItems(v, i + 1) + rest)) == Ok(Reading(v.items[i], |Encode(v.items[i])|))
    requires ItemsReadFrom(v, i + 1, rest)
    ensures ItemsReadFrom(v, i, rest)
  {
    ItemThenMore(v.items, i, Encode(v.items[i]), EncodeItems(v, i + 1) + rest, |EncodeItems(v, i + 1)|);
    EncodeItemsStep(v, i, rest);
  }

  lemma {:induction false} ReadItemsEncoded(v: Value, i: nat, rest: Bytes)
    requires v.Array? && Encodable(v) && i <= |v.items|
    ensures ItemsReadFrom(v, i, rest)
    decreases v, 0, |v.items| - i
  {
    if i == |v.items| {
      assert v.items[..i] == v.items;
    } else {
      ReadEncoded(v.items[i], EncodeItems(v, i + 1) + rest);
      ReadItemsEncoded(v, i + 1, rest);
      ItemsStep(v, i, rest);
    }
  }

  lemma {:induction false} SetNew(entries: seq<Entry>, e: Entry)
    requires DistinctKeys(entries + [e])
    ensures SetEntry(entries, e.key, e.value) == entries + [e]
  {
    if entries != [] {
      assert (entries + [e])[0] == entries[0] && (entries + [e])[|entries|] == e;
      assert (entries + [e])[1..] == entries[1..] + [e];
      SetNew(entries[1..], e);
    }
  }

  lemma SetNext(entries: seq<Entry>, i: nat)
    requires DistinctKeys(entries) && i < |entries|
    ensures SetEntry(entries[..i], entries[i].key, entries[i].value) == entries[..i + 1]
  {
    assert entries[..i] + [entries[i]] == entries[..i + 1];
    SetNew(entries[..i], entries[i]);
  }

  lemma ReadKeyEncoded(key: Key, rest: Bytes)
    requires KeyEncodable(key)
    ensures
      match Read(EncodeKey(key) + rest)
      case Err(_) => false
      case Ok(Reading(k, n)) => KeyOf(k) == key && n == |EncodeKey(key)|
  {
    match key
    case NumberKey(n) => ReadNumber(n, rest);
    case TextKey(text) => ReadString(true, text, rest);
  }

  lemma KeyThenValue(x: Bytes, y: Bytes, key: Value, value: Value, n: nat)
    requires Read(x + y) == Ok(Reading(key, |x|)) && Read(y) == Ok(Reading(value, n))
    ensures ReadPair(x + y) == Ok(Reading((KeyOf(key), value), |x| + n))
  {
    assert (x + y)[|x|..] == y;
  }

  /** Reading one entry first, then the rest. */
  lemma EntryThenMore(all: seq<Entry>, i: nat, x: Bytes, y: Bytes, m: nat)
    requires DistinctKeys(all) && i < |all|
    requires ReadPair(x + y) == Ok(Reading((all[i].key, all[i].value), |x|))
    requires ReadEntries(|all| - i - 1, all[..i + 1], y) == Ok(Reading(all, m))
    ensures ReadEntries(|all| - i, all[..i], x + y) == Ok(Reading(all, |x| + m))
  {
    SetNext(all, i);
    assert (x + y)[|x|..] == y;
  }

  lemma {:induction false} ReadEntryEncoded(v: Value, i: nat, rest: Bytes)
    requires v.Map? && Encodable(v) && i < |v.entries|
    ensures ReadPair(EncodeEntry(v, i) + rest)
         == Ok(Reading((v.entries[i].key, v.entries[i].value), |EncodeEntry(v, i)|))
    decreases v, 0, 0
  {
    var k, x := EncodeKey(v.entries[i].key), Encode(v.entries[i].value);
    ReadKeyEncoded(v.entries[i].key, x + rest);
    ReadEncoded(v.entries[i].value, rest);
    KeyThenValue(k, x + rest, Read(k + (x + rest)).value.value, v.entries[i].value, |x|);
    assert k + x + rest == k + (x + rest);
  }

  ghost predicate EntriesReadFrom(v: Value, i: nat, rest: Bytes)
    requires v.Map? && Encodable(v) && i <= |v.entries|
  {
    ReadEntries(|v.entries| - i, v.entries[..i], EncodeEntries(v, i) + rest)
    == Ok(Reading(v.entries, |EncodeEntries(v, i)|))
  }

  lemma EntriesStep(v: Value, i: nat, rest: Bytes)
    requires v.Map? && Encodable(v) && i < |v.entries|
    requires ReadPair(EncodeEntry(v, i) + (EncodeEntries(v, i + 1) + rest))
          == Ok(Reading((v.entries[i].key, v.entries[i].value), |EncodeEntry(v, i)|))
    requires EntriesReadFrom(v, i + 1, rest)
    ensures EntriesReadFrom(v, i, rest)
  {
    EntryThenMore(v.entries, i, EncodeEntry(v, i), EncodeEntries(v, i + 1) + rest, |EncodeEntries(v, i + 1)|);
    EncodeStep(v, i, rest);
  }

  lemma {:induction false} ReadEntriesEncoded(v: Value, i: nat, rest: Bytes)
    requires v.Map? && Encodable(v) && i <= |v.entries|
    ensures EntriesReadFrom(v, i, rest)
    decreases v, 0, |v.entries| - i + 1
  {
    if i == |v.entries| {
      assert v.entries[..i] == v.entries;
    } else {
      ReadEntryEncoded(v, i, EncodeEntries(v, i + 1) + rest);
      ReadEntriesEncoded(v, i + 1, rest);
      EntriesStep(v, i, rest);
    }
  }

  lemma EncodeStep(v: Value, i: nat, rest: Bytes)
    requires v.Map? && Encodable(v) && i < |v.entries|
    ensures EncodeEntries(v, i) + rest == EncodeEntry(v, i) + (EncodeEntries(v, i + 1) + rest)
    ensures |EncodeEntries(v, i)| == |EncodeEntry(v, i)| + |EncodeEntries(v, i + 1)|
  {
  }

  /** An encoding is never a proper prefix of another: values are told apart by their bytes. */
  lemma EncodeInjective(v: Value, w: Value, x: Bytes, y: Bytes)
    requires Encodable(v) && Encodable(w) && Encode(v) + x == Encode(w) + y
    ensures v == w && x == y
  {
    ReadEncoded(v, x);
    ReadEncoded(w, y);
    assert x == (Encode(v) + x)[|Encode(v)|..];
    assert y == (Encode(w) + y)[|Encode(w)|..];
  }
}
