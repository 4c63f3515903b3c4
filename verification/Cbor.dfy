/**
 * Reading the part of CBOR that attestation objects use. Everything outside it is
 * an error.
 */
module Cbor {
  import opened Base
  import opened Decimal

  /** Text is held as the bytes it was read from. */
  datatype Value =
    | Number(number: int)
    | ByteString(bytes: Bytes)
    | Text(text: Bytes)
    | Boolean(truth: bool)
    | Null
    | Array(items: seq<Value>)
    | Map(entries: seq<Entry>)

  /** A map entry; keys other than numbers and strings are turned into strings. */
  datatype Entry = Entry(key: Key, value: Value)

  datatype Key = NumberKey(number: int) | TextKey(text: Bytes)

  datatype FormatError = Ended | PastEnd | TooLong | SimpleNotAccepted | MajorNotAccepted

  /** A value and how many bytes it took. */
  datatype Reading<+T> = Reading(value: T, consumed: nat)

  type Outcome<+T> = Result<Reading<T>, FormatError>

  const WIDTH_32 := 0x1_0000_0000

  /** A number as JavaScript's shifts leave it: 32 bits wide, the highest one the sign. */
  function Signed32(n: nat): (r: int)
    ensures -0x8000_0000 <= r < 0x8000_0000 && (n - r) % WIDTH_32 == 0
  {
    var low := n % WIDTH_32;
    if low < 0x8000_0000 then low else low - WIDTH_32
  }

  // ---------------------------------------------------------------------
  // Keys: `String(key)` on everything that is not a number or a string
  // ---------------------------------------------------------------------

  const MAP_TEXT: Bytes := [91, 111, 98, 106, 101, 99, 116, 32, 77, 97, 112, 93]

  function JoinBytes(bytes: Bytes): Bytes {
    if bytes == [] then []
    else if |bytes| == 1 then NumberText(bytes[0])
    else NumberText(bytes[0]) + [COMMA] + JoinBytes(bytes[1..])
  }

  function StringOf(v: Value): Bytes {
    match v
    case Number(n) => NumberText(n)
    case ByteString(bytes) => JoinBytes(bytes)
    case Text(text) => text
    case Boolean(truth) => if truth then TRUE_TEXT else FALSE_TEXT
    case Null => NULL_TEXT
    case Array(items) => JoinItems(items)
    case Map(_) => MAP_TEXT
  }

  /** An array's elements joined with commas, null ones left empty. */
  function JoinItems(items: seq<Value>): Bytes {
    if items == [] then []
    else
      var first := if items[0].Null? then [] else StringOf(items[0]);
      if |items| == 1 then first else first + [COMMA] + JoinItems(items[1..])
  }

  function KeyOf(v: Value): Key {
    match v
    case Number(n) => NumberKey(n)
    case Text(text) => TextKey(text)
    case _ => TextKey(StringOf(v))
  }

  /** `Map.set`: replaces the value in place, or adds the entry at the end. */
  function SetEntry(entries: seq<Entry>, key: Key, value: Value): seq<Entry> {
    if entries == [] then [Entry(key, value)]
    else if entries[0].key == key then [Entry(key, value)] + entries[1..]
    else [entries[0]] + SetEntry(entries[1..], key, value)
  }

  function Lookup(entries: seq<Entry>, key: Key): Option<Value> {
    if entries == [] then None
    else if entries[0].key == key then Some(entries[0].value)
    else Lookup(entries[1..], key)
  }

  // ---------------------------------------------------------------------
  // Reading: what the reader makes of the bytes that are left
  // ---------------------------------------------------------------------

  /** What an initial byte's `info` stands for: itself when small, otherwise a number in the bytes that follow. */
  function Argument(info: nat, s: Bytes): (r: Outcome<nat>)
    ensures r.Ok? ==> r.value.consumed <= |s|
  {
    if info < 24 then Ok(Reading(info, 0))
    else if info == 24 then
      if |s| < 1 then Err(Ended) else Ok(Reading(s[0], 1))
    else if info == 25 then
      if |s| < 2 then Err(Ended) else Ok(Reading(Shift8(s[0], s[1]), 2))
    else if info == 26 then
      if |s| < 4 then Err(Ended)
      else Ok(Reading(Shift8(Shift8(Shift8(s[0], s[1]), s[2]), s[3]), 4))
    else Err(TooLong)
  }

  function Negated(n: int): int {
    -1 - n
  }

  function Take(length: nat, s: Bytes): (r: Outcome<Bytes>)
    ensures r.Ok? ==> r.value.consumed <= |s|
  {
    if length > |s| then Err(PastEnd) else Ok(Reading(s[..length], length))
  }

  /** Every successful reading takes at least one byte and stays inside the data. */
  function Read(s: Bytes): (r: Outcome<Value>)
    ensures r.Ok? ==> 0 < r.value.consumed <= |s|
    decreases |s|, 0, 0
  {
    if s == [] then Err(Ended) else Advance(1, ReadMajor(s[0] / 32, s[0] % 32, s[1..]))
  }

  function Advance<T>(k: nat, r: Outcome<T>): Outcome<T> {
    match r
    case Err(e) => Err(e)
    case Ok(Reading(value, n)) => Ok(Reading(value, k + n))
  }

  /** What the initial byte announced, from the bytes after it. */
  function ReadMajor(major: nat, info: nat, s: Bytes): (r: Outcome<Value>)
    ensures r.Ok? ==> r.value.consumed <= |s|
    decreases |s|, 3, 0
  {
    if major == 7 then
      if info == 20 then Ok(Reading(Boolean(false), 0))
      else if info == 21 then Ok(Reading(Boolean(true), 0))
      else if info == 22 then Ok(Reading(Null, 0))
      else Err(SimpleNotAccepted)
    else if major >= 6 then Err(MajorNotAccepted)
    else
      match Argument(info, s)
      case Err(e) => Err(e)
      case Ok(Reading(n, k)) => Advance(k, ReadBody(major, n, s[k..]))
  }

  /** An item whose argument is n. */
  function ReadBody(major: nat, n: nat, s: Bytes): (r: Outcome<Value>)
    requires major < 6
    ensures r.Ok? ==> r.value.consumed <= |s|
    decreases |s|, 2, n + 1
  {
    if major == 0 then Ok(Reading(Number(n), 0))
    else if major == 1 then Ok(Reading(Number(Negated(n)), 0))
    else if major == 2 then
      match Take(n, s)
      case Err(e) => Err(e)
      case Ok(Reading(bytes, k)) => Ok(Reading(ByteString(bytes), k))
    else if major == 3 then
      match Take(n, s)
      case Err(e) => Err(e)
      case Ok(Reading(bytes, k)) => Ok(Reading(Text(bytes), k))
    else if major == 4 then
      match ReadItems(n, [], s)
      case Err(e) => Err(e)
      case Ok(Reading(items, k)) => Ok(Reading(Array(items), k))
    else
      match ReadEntries(n, [], s)
      case Err(e) => Err(e)
      case Ok(Reading(entries, k)) => Ok(Reading(Map(entries), k))
  }

  /** n more items after those already read. */
  function ReadItems(n: nat, items: seq<Value>, s: Bytes): (r: Outcome<seq<Value>>)
    ensures r.Ok? ==> r.value.consumed <= |s|
    decreases |s|, 2, n
  {
    if n == 0 then Ok(Reading(items, 0))
    else
      match Read(s)
      case Err(e) => Err(e)
      case Ok(Reading(item, k)) =>
        match ReadItems(n - 1, items + [item], s[k..])
        case Err(e) => Err(e)
        case Ok(Reading(all, m)) => Ok(Reading(all, k + m))
  }

  /** A key, then its value. */
  function ReadPair(s: Bytes): (r: Outcome<(Key, Value)>)
    ensures r.Ok? ==> 0 < r.value.consumed <= |s|
    decreases |s|, 1, 0
  {
    match Read(s)
    case Err(e) => Err(e)
    case Ok(Reading(key, k)) =>
      match Read(s[k..])
      case Err(e) => Err(e)
      case Ok(Reading(value, l)) => Ok(Reading((KeyOf(key), value), k + l))
  }

  /** n more entries after those already read. */
  function ReadEntries(n: nat, entries: seq<Entry>, s: Bytes): (r: Outcome<seq<Entry>>)
    ensures r.Ok? ==> r.value.consumed <= |s|
    decreases |s|, 2, n
  {
    if n == 0 then Ok(Reading(entries, 0))
    else
      match ReadPair(s)
      case Err(e) => Err(e)
      case Ok(Reading((key, value), k)) =>
        match ReadEntries(n - 1, SetEntry(entries, key, value), s[k..])
        case Err(e) => Err(e)
        case Ok(Reading(all, m)) => Ok(Reading(all, k + m))
  }

  /** `rest` is what is left of `whole` after `done` bytes. */
  ghost predicate Ahead<T>(whole: Outcome<T>, rest: Outcome<T>, done: nat) {
    match rest
    case Err(e) => whole == Err(e)
    case Ok(Reading(value, consumed)) => whole == Ok(Reading(value, done + consumed))
  }

  lemma FartherAhead<T>(whole: Outcome<T>, middle: Outcome<T>, rest: Outcome<T>, a: nat, b: nat)
    requires Ahead(whole, middle, a) && Ahead(middle, rest, b)
    ensures Ahead(whole, rest, a + b)
  {
  }

  /** The reader: bytes and an offset that moves. */
  class CborReader {
    const bytes: Bytes
    var offset: nat

    constructor (bytes: Bytes)
      ensures this.bytes == bytes && offset == 0
    {
      this.bytes := bytes;
      offset := 0;
    }

    ghost predicate Valid()
      reads this
    {
      offset <= |bytes|
    }

    /** A step agrees with what the bytes left at its start read as. */
    ghost predicate Agrees<T>(start: nat, expected: Outcome<T>, got: Result<T, FormatError>)
      reads this
      requires start <= |bytes|
    {
      match expected
      case Err(e) => got == Err(e)
      case Ok(Reading(value, consumed)) => got == Ok(value) && offset == start + consumed
    }

    method Byte() returns (r: Result<byte, FormatError>)
      requires Valid()
      modifies this
      ensures Valid() && old(offset) <= offset
      ensures
        if old(offset) < |bytes| then r == Ok(bytes[old(offset)]) && offset == old(offset) + 1
        else r == Err(Ended)
    {
      if offset >= |bytes| {
        return Err(Ended);
      }
      r := Ok(bytes[offset]);
      offset := offset + 1;
    }

    method TakeBytes(length: nat) returns (r: Result<Bytes, FormatError>)
      requires Valid()
      modifies this
      ensures Valid() && old(offset) <= offset && Agrees(old(offset), Take(length, bytes[old(offset)..]), r)
    {
      if offset + length > |bytes| {
        return Err(PastEnd);
      }
      r := Ok(bytes[offset..offset + length]);
      assert bytes[offset..][..length] == bytes[offset..offset + length];
      offset := offset + length;
    }

    /** What is shifted stays below 2^24, so 32 bits hold it; the fourth byte comes in by multiplying. */
    method ReadArgument(info: nat) returns (r: Result<nat, FormatError>)
      requires Valid()
      modifies this
      ensures Valid() && old(offset) <= offset && Agrees(old(offset), Argument(info, bytes[old(offset)..]), r)
    {
      if info < 24 {
        return Ok(info);
      }
      if info == 24 {
        var b := Byte();
        return if b.Ok? then Ok(b.value) else Err(b.error);
      }
      if info == 25 {
        var high := Byte();
        if high.Err? { return Err(high.error); }
        var low := Byte();
        if low.Err? { return Err(low.error); }
        return Ok(Signed32(Shift8(high.value, low.value)));
      }
      if info == 26 {
        var b0 := Byte();
        if b0.Err? { return Err(b0.error); }
        var b1 := Byte();
        if b1.Err? { return Err(b1.error); }
        var b2 := Byte();
        if b2.Err? { return Err(b2.error); }
        var b3 := Byte();
        if b3.Err? { return Err(b3.error); }
        return Ok(Signed32(Shift8(Shift8(b0.value, b1.value), b2.value)) * 0x100 + b3.value);
      }
      return Err(TooLong);
    }

    method ReadValue() returns (r: Result<Value, FormatError>)
      requires Valid()
      modifies this
      ensures Valid() && old(offset) <= offset && Agrees(old(offset), Read(bytes[old(offset)..]), r)
      decreases |bytes| - offset, 0
    {
      var initial := Byte();
      if initial.Err? {
        return Err(initial.error);
      }
      assert bytes[old(offset)..][1..] == bytes[offset..];
      r := ReadAnnounced(initial.value / 32, initial.value % 32);
    }

    /** The switch on the major type. */
    method ReadAnnounced(major: nat, info: nat) returns (r: Result<Value, FormatError>)
      requires Valid()
      modifies this
      ensures Valid() && old(offset) <= offset && Agrees(old(offset), ReadMajor(major, info, bytes[old(offset)..]), r)
      decreases |bytes| - offset, 5
    {
      if major == 7 {
        if info == 20 { return Ok(Boolean(false)); }
        if info == 21 { return Ok(Boolean(true)); }
        if info == 22 { return Ok(Null); }
        return Err(SimpleNotAccepted);
      }
      if major >= 6 {
        return Err(MajorNotAccepted);
      }
      var n := ReadArgument(info);
      if n.Err? {
        return Err(n.error);
      }
      assert bytes[old(offset)..][offset - old(offset)..] == bytes[offset..];
      r := ReadSized(major, n.value);
    }

    /** The case of one major type, its argument read. */
    method ReadSized(major: nat, n: nat) returns (r: Result<Value, FormatError>)
      requires Valid() && major < 6
      modifies this
      ensures Valid() && old(offset) <= offset && Agrees(old(offset), ReadBody(major, n, bytes[old(offset)..]), r)
      decreases |bytes| - offset, 4
    {
      if major == 0 { return Ok(Number(n)); }
      if major == 1 { return Ok(Number(Negated(n))); }
      if major == 2 || major == 3 {
        var taken := TakeBytes(n);
        if taken.Err? { return Err(taken.error); }
        return Ok(if major == 2 then ByteString(taken.value) else Text(taken.value));
      }
      if major == 4 {
        var items := ReadArray(n);
        if items.Err? { return Err(items.error); }
        return Ok(Array(items.value));
      }
      var entries := ReadMap(n);
      if entries.Err? { return Err(entries.error); }
      return Ok(Map(entries.value));
    }

    /** One turn of the array loop. */
    method PushItem(ghost n: nat, items: seq<Value>) returns (r: Result<seq<Value>, FormatError>)
      requires Valid() && n > 0
      modifies this
      ensures Valid() && old(offset) <= offset
      ensures match r
        case Err(e) => ReadItems(n, items, bytes[old(offset)..]) == Err(e)
        case Ok(more) =>
          Ahead(ReadItems(n, items, bytes[old(offset)..]), ReadItems(n - 1, more, bytes[offset..]),
                offset - old(offset))
      decreases |bytes| - offset, 1
    {
      var item := ReadValue();
      if item.Err? {
        return Err(item.error);
      }
      assert bytes[old(offset)..][offset - old(offset)..] == bytes[offset..];
      return Ok(items + [item.value]);
    }

    method ReadArray(length: nat) returns (r: Result<seq<Value>, FormatError>)
      requires Valid()
      modifies this
      ensures Valid() && old(offset) <= offset && Agrees(old(offset), ReadItems(length, [], bytes[old(offset)..]), r)
      decreases |bytes| - offset, 2
    {
      var items: seq<Value> := [];
      ghost var start, whole := offset, ReadItems(length, [], bytes[offset..]);
      var index := 0;
      while index < length
        invariant index <= length && start <= offset <= |bytes|
        invariant Ahead(whole, ReadItems(length - index, items, bytes[offset..]), offset - start)
      {
        ghost var before, rest := offset, ReadItems(length - index, items, bytes[offset..]);
        var more := PushItem(length - index, items);
        if more.Err? {
          return Err(more.error);
        }
        items := more.value;
        index := index + 1;
        FartherAhead(whole, rest, ReadItems(length - index, items, bytes[offset..]), before - start, offset - before);
      }
      return Ok(items);
    }

    /** One turn of the map loop. */
    method PushEntry(ghost n: nat, entries: seq<Entry>) returns (r: Result<seq<Entry>, FormatError>)
      requires Valid() && n > 0
      modifies this
      ensures Valid() && old(offset) <= offset
      ensures match r
        case Err(e) => ReadEntries(n, entries, bytes[old(offset)..]) == Err(e)
        case Ok(more) =>
          Ahead(ReadEntries(n, entries, bytes[old(offset)..]), ReadEntries(n - 1, more, bytes[offset..]),
                offset - old(offset))
      decreases |bytes| - offset, 2
    {
      var pair := ReadKeyAndValue();
      if pair.Err? {
        return Err(pair.error);
      }
      return Ok(SetEntry(entries, pair.value.0, pair.value.1));
    }

    method ReadKeyAndValue() returns (r: Result<(Key, Value), FormatError>)
      requires Valid()
      modifies this
      ensures Valid() && old(offset) <= offset && Agrees(old(offset), ReadPair(bytes[old(offset)..]), r)
      ensures r.Ok? ==> bytes[old(offset)..][offset - old(offset)..] == bytes[offset..]
      decreases |bytes| - offset, 1
    {
      var key := ReadValue();
      if key.Err? {
        return Err(key.error);
      }
      assert bytes[old(offset)..][offset - old(offset)..] == bytes[offset..];
      var value := ReadValue();
      if value.Err? {
        return Err(value.error);
      }
      return Ok((KeyOf(key.value), value.value));
    }

    method ReadMap(length: nat) returns (r: Result<seq<Entry>, FormatError>)
      requires Valid()
      modifies this
      ensures Valid() && old(offset) <= offset && Agrees(old(offset), ReadEntries(length, [], bytes[old(offset)..]), r)
      decreases |bytes| - offset, 3
    {
      var entries: seq<Entry> := [];
      ghost var start, whole := offset, ReadEntries(length, [], bytes[offset..]);
      var index := 0;
      while index < length
        invariant index <= length && start <= offset <= |bytes|
        invariant Ahead(whole, ReadEntries(length - index, entries, bytes[offset..]), offset - start)
      {
        ghost var before, rest := offset, ReadEntries(length - index, entries, bytes[offset..]);
        var more := PushEntry(length - index, entries);
        if more.Err? {
          return Err(more.error);
        }
        entries := more.value;
        index := index + 1;
        FartherAhead(whole, rest, ReadEntries(length - index, entries, bytes[offset..]),
                     before - start, offset - before);
      }
      return Ok(entries);
    }
  }

  // ---------------------------------------------------------------------
  // What the bytes stand for, said outright: section 3 of RFC 8949
  // ---------------------------------------------------------------------

  /** Four bytes, the most significant first. */
  function Weighed(a: int, b: int, c: int, d: int): int {
    a * 16777216 + b * 65536 + c * 256 + d
  }

  /** An argument is the info itself, or one, two or four bytes with the most significant first. */
  lemma ArgumentMeans(info: nat, s: Bytes, n: nat, k: nat)
    ensures
      Argument(info, s) == Ok(Reading(n, k))
      <==>
      || (info < 24 && n == info && k == 0)
      || (info == 24 && k == 1 <= |s| && n == s[0])
      || (info == 25 && k == 2 <= |s| && n == Weighed(0, 0, s[0], s[1]))
      || (info == 26 && k == 4 <= |s| && n == Weighed(s[0], s[1], s[2], s[3]))
    ensures Argument(info, s).Err? ==> Argument(info, s).error == if info > 26 then TooLong else Ended
  {
  }

  /** Which initial bytes are accepted at all. */
  lemma InitialByteDecides(s: Bytes)
    ensures s == [] ==> Read(s) == Err(Ended)
    ensures s != [] && s[0] >= 0xE0 ==>
              Read(s) == (if s[0] == 0xF4 then Ok(Reading(Boolean(false), 1))
                          else if s[0] == 0xF5 then Ok(Reading(Boolean(true), 1))
                          else if s[0] == 0xF6 then Ok(Reading(Null, 1))
                          else Err(SimpleNotAccepted))
    ensures s != [] && 0xC0 <= s[0] < 0xE0 ==> Read(s) == Err(MajorNotAccepted)
    ensures s != [] && s[0] < 0xC0 && s[0] % 32 > 26 ==> Read(s) == Err(TooLong)
  {
  }

  /** An initial byte below 0xC0 announces a body by its upper three bits, with an argument n that takes k bytes. */
  lemma BodyFollows(s: Bytes, n: nat, k: nat)
    requires s != [] && s[0] < 0xC0 && Argument(s[0] % 32, s[1..]) == Ok(Reading(n, k))
    ensures Read(s) == Advance(1 + k, ReadBody(s[0] / 32, n, s[1 + k..]))
  {
    assert s[1..][k..] == s[1 + k..];
    assert ReadMajor(s[0] / 32, s[0] % 32, s[1..]) == Advance(k, ReadBody(s[0] / 32, n, s[1 + k..]));
  }

  /** Numbers, bytes and text: the first four kinds of body. */
  lemma BodyMeans(n: nat, s: Bytes)
    ensures ReadBody(0, n, s) == Ok(Reading(Number(n), 0))
    ensures ReadBody(1, n, s) == Ok(Reading(Number(-1 - n), 0))
    ensures ReadBody(2, n, s) == if |s| < n then Err(PastEnd) else Ok(Reading(ByteString(s[..n]), n))
    ensures ReadBody(3, n, s) == if |s| < n then Err(PastEnd) else Ok(Reading(Text(s[..n]), n))
  {
  }

  predicate Spells(bytes: Bytes, word: string) {
    |bytes| == |word| && forall i | 0 <= i < |word| :: bytes[i] == word[i] as int
  }

  /** A key that is neither a number nor a text becomes what JavaScript prints for it. */
  lemma KeysPrinted(b: bool, entries: seq<Entry>, n: int, text: Bytes)
    ensures KeyOf(Number(n)) == NumberKey(n) && KeyOf(Text(text)) == TextKey(text)
    ensures KeyOf(Null).TextKey? && Spells(KeyOf(Null).text, "null")
    ensures KeyOf(Boolean(b)).TextKey? && Spells(KeyOf(Boolean(b)).text, if b then "true" else "false")
    ensures KeyOf(Map(entries)).TextKey? && Spells(KeyOf(Map(entries)).text, "[object Map]")
  {
  }

  /** Bytes and items print with commas between them, a null item as nothing. */
  lemma ListsPrinted(bytes: Bytes, items: seq<Value>)
    ensures KeyOf(ByteString(bytes)) == TextKey(Commas(Numbers(bytes)))
    ensures KeyOf(Array(items)) == TextKey(Commas(Prints(items)))
  {
    BytesPrinted(bytes);
    ItemsPrinted(items);
    assert StringOf(Array(items)) == JoinItems(items);
  }

  /** Texts with a comma between each and the next. */
  function Commas(texts: seq<Bytes>): Bytes {
    if texts == [] then []
    else if |texts| == 1 then texts[0]
    else texts[0] + [',' as int] + Commas(texts[1..])
  }

  function Numbers(bytes: Bytes): (ts: seq<Bytes>)
    ensures |ts| == |bytes|
  {
    seq(|bytes|, i requires 0 <= i < |bytes| => NumberText(bytes[i]))
  }

  function Prints(items: seq<Value>): (ts: seq<Bytes>)
    ensures |ts| == |items|
  {
    seq(|items|, i requires 0 <= i < |items| => if items[i].Null? then [] else StringOf(items[i]))
  }

  lemma {:induction false} BytesPrinted(bytes: Bytes)
    ensures JoinBytes(bytes) == Commas(Numbers(bytes))
  {
    if |bytes| > 1 {
      BytesPrinted(bytes[1..]);
      assert Numbers(bytes)[1..] == Numbers(bytes[1..]);
    }
  }

  lemma {:induction false} ItemsPrinted(items: seq<Value>)
    ensures JoinItems(items) == Commas(Prints(items))
  {
    if |items| > 1 {
      ItemsPrinted(items[1..]);
      assert Prints(items)[1..] == Prints(items[1..]);
    }
  }

  function KeysOf(entries: seq<Entry>): (ks: seq<Key>)
    ensures |ks| == |entries| && forall i | 0 <= i < |entries| :: ks[i] == entries[i].key
  {
    seq(|entries|, i requires 0 <= i < |entries| => entries[i].key)
  }

  /** Setting a key changes what is found under it and nothing else. */
  lemma {:induction false} SetEntryMeans(entries: seq<Entry>, key: Key, value: Value, other: Key)
    ensures Lookup(SetEntry(entries, key, value), other) == if other == key then Some(value) else Lookup(entries, other)
  {
    if entries != [] {
      SetEntryMeans(entries[1..], key, value, other);
    }
  }

  lemma KeysSplit(e: Entry, entries: seq<Entry>)
    ensures KeysOf([e] + entries) == [e.key] + KeysOf(entries)
  {
  }

  /** It keeps its place if it has one, and comes last otherwise. */
  lemma {:induction false} SetEntryPlace(entries: seq<Entry>, key: Key, value: Value)
    ensures KeysOf(SetEntry(entries, key, value))
         == if key in KeysOf(entries) then KeysOf(entries) else KeysOf(entries) + [key]
  {
    if entries == [] {
      assert KeysOf(entries) == [] && [] + [key] == [key];
      KeysSplit(Entry(key, value), []);
      assert [Entry(key, value)] + [] == [Entry(key, value)];
    } else {
      assert entries == [entries[0]] + entries[1..];
      KeysSplit(entries[0], entries[1..]);
      KeysSplit(Entry(key, value), entries[1..]);
      KeysSplit(entries[0], SetEntry(entries[1..], key, value));
      SetEntryPlace(entries[1..], key, value);
    }
  }
}
