/**
 * Byte arrays inside the persisted session: hidden as hexadecimal on the way into
 * JSON and restored on the way out. The hiding runs again at every node JSON visits
 * from the top down, the restoring at every node from the bottom up.
 */
module Secrets {
  import opened Base

  datatype Field = Field(key: string, value: Tree)

  datatype Tree =
    | Null
    | Flag(b: bool)
    | Number(n: int)
    | Str(s: string)
    | Secret(bytes: Bytes)
    | List(items: seq<Tree>)
    | Record(fields: seq<Field>)

  const MARK := "__bytes"

  // ---------------------------------------------------------------------
  // Hexadecimal
  // ---------------------------------------------------------------------

  function HexChar(n: int): char
    requires 0 <= n < 16
  {
    if n < 10 then ('0' as int + n) as char else ('a' as int + n - 10) as char
  }

  function HexValue(c: char): Option<int> {
    if '0' <= c <= '9' then Some(c as int - '0' as int)
    else if 'a' <= c <= 'f' then Some(c as int - 'a' as int + 10)
    else if 'A' <= c <= 'F' then Some(c as int - 'A' as int + 10)
    else None
  }

  lemma HexRange(c: char)
    ensures HexValue(c).Some? ==> 0 <= HexValue(c).value < 16
  {
  }

  predicate IsHex(s: string) {
    forall c | c in s :: HexValue(c).Some?
  }

  function Hex(b: Bytes): string {
    if b == [] then "" else [HexChar(b[0] / 16), HexChar(b[0] % 16)] + Hex(b[1..])
  }

  /** Pairs of digits; an odd one at the end is dropped. */
  function FromHex(s: string): Bytes
    requires IsHex(s)
  {
    if |s| < 2 then []
    else
      HexRange(s[0]);
      HexRange(s[1]);
      [HexValue(s[0]).value * 16 + HexValue(s[1]).value] + FromHex(s[2..])
  }

  lemma {:induction false} HexRoundTrip(b: Bytes)
    ensures IsHex(Hex(b)) && FromHex(Hex(b)) == b
  {
    if b != [] {
      HexRoundTrip(b[1..]);
      var s := Hex(b);
      assert s[2..] == Hex(b[1..]);
      forall c | c in s ensures HexValue(c).Some? {
        assert c == s[0] || c == s[1] || c in s[2..];
      }
    }
  }

  // ---------------------------------------------------------------------
  // Hiding and restoring
  // ---------------------------------------------------------------------

  function EncodeSecrets(t: Tree): Tree {
    match t
    case Secret(b) => Record([Field(MARK, Str(Hex(b)))])
    case List(items) => List(seq(|items|, i requires 0 <= i < |items| => EncodeSecrets(items[i])))
    case Record(fields) =>
      Record(seq(|fields|, i requires 0 <= i < |fields| => Field(fields[i].key, EncodeSecrets(fields[i].value))))
    case _ => t
  }

  predicate Marked(f: Field) {
    f.key == MARK && f.value.Str? && IsHex(f.value.s)
  }

  /** The text of the marked field, if there is one; keys are not repeated in an object. */
  function MarkedText(fields: seq<Field>): (s: Option<string>)
    ensures s.Some? ==> IsHex(s.value)
  {
    if fields == [] then None
    else if Marked(fields[0]) then Some(fields[0].value.s)
    else MarkedText(fields[1..])
  }

  /** An object that could pass for a hidden secret. */
  predicate IsPersistedSecret(t: Tree) {
    t.Record? && MarkedText(t.fields).Some?
  }

  function DecodeSecrets(t: Tree): Tree {
    if IsPersistedSecret(t) then Secret(FromHex(MarkedText(t.fields).value))
    else
      match t
      case List(items) => List(seq(|items|, i requires 0 <= i < |items| => DecodeSecrets(items[i])))
      case Record(fields) =>
        Record(seq(|fields|, i requires 0 <= i < |fields| => Field(fields[i].key, DecodeSecrets(fields[i].value))))
      case _ => t
  }

  // ---------------------------------------------------------------------
  // JSON's own walks
  // ---------------------------------------------------------------------

  /** How deep a tree goes, for the walk that replaces nodes as it goes down. */
  function Depth(t: Tree): nat {
    match t
    case List(items) => 1 + Deepest(items)
    case Record(fields) => 1 + DeepestField(fields)
    case Secret(_) => 1
    case _ => 0
  }

  function Deepest(items: seq<Tree>): (d: nat)
    ensures forall i | 0 <= i < |items| :: Depth(items[i]) <= d
  {
    if items == [] then 0
    else
      assert items[|items| - 1] in items;
      Max(Depth(items[|items| - 1]), Deepest(items[..|items| - 1]))
  }

  function DeepestField(fields: seq<Field>): (d: nat)
    ensures forall i | 0 <= i < |fields| :: Depth(fields[i].value) <= d
  {
    if fields == [] then 0
    else Max(Depth(fields[|fields| - 1].value), DeepestField(fields[..|fields| - 1]))
  }

  lemma {:induction false} DeepestBound(items: seq<Tree>, d: nat)
    requires forall i | 0 <= i < |items| :: Depth(items[i]) <= d
    ensures Deepest(items) <= d
  {
    if items != [] {
      DeepestBound(items[..|items| - 1], d);
    }
  }

  lemma {:induction false} DeepestFieldBound(fields: seq<Field>, d: nat)
    requires forall i | 0 <= i < |fields| :: Depth(fields[i].value) <= d
    ensures DeepestField(fields) <= d
  {
    if fields != [] {
      DeepestFieldBound(fields[..|fields| - 1], d);
    }
  }

  lemma {:induction false} EncodeDepth(t: Tree)
    ensures Depth(EncodeSecrets(t)) <= Depth(t)
  {
    match t
    case Secret(b) => DeepestFieldBound([Field(MARK, Str(Hex(b)))], 0);
    case List(items) =>
      forall i | 0 <= i < |items| ensures Depth(EncodeSecrets(items[i])) <= Deepest(items) {
        EncodeDepth(items[i]);
      }
      DeepestBound(EncodeSecrets(t).items, Deepest(items));
    case Record(fields) =>
      forall i | 0 <= i < |fields| ensures Depth(EncodeSecrets(fields[i].value)) <= DeepestField(fields) {
        EncodeDepth(fields[i].value);
      }
      DeepestFieldBound(EncodeSecrets(t).fields, DeepestField(fields));
    case _ =>
  }

  /** Replacing each node as it is reached, then going into what replaced it. */
  function Replace(t: Tree): Tree
    decreases Depth(t)
  {
    var e := EncodeSecrets(t);
    EncodeDepth(t);
    match e
    case List(items) => List(seq(|items|, i requires 0 <= i < |items| => Replace(items[i])))
    case Record(fields) =>
      Record(seq(|fields|, i requires 0 <= i < |fields| => Field(fields[i].key, Replace(fields[i].value))))
    case _ => e
  }

  /** Restoring each node after everything below it. */
  function Revive(t: Tree): Tree {
    match t
    case List(items) => DecodeSecrets(List(seq(|items|, i requires 0 <= i < |items| => Revive(items[i]))))
    case Record(fields) =>
      DecodeSecrets(Record(
        seq(|fields|, i requires 0 <= i < |fields| => Field(fields[i].key, Revive(fields[i].value)))))
    case _ => DecodeSecrets(t)
  }

  // ---------------------------------------------------------------------
  // Once is enough
  // ---------------------------------------------------------------------

  predicate NoSecrets(t: Tree) {
    match t
    case Secret(_) => false
    case List(items) => forall i | 0 <= i < |items| :: NoSecrets(items[i])
    case Record(fields) => forall i | 0 <= i < |fields| :: NoSecrets(fields[i].value)
    case _ => true
  }

  lemma {:induction false} NothingToHide(t: Tree)
    requires NoSecrets(t)
    ensures EncodeSecrets(t) == t
  {
    match t
    case List(items) =>
      forall i | 0 <= i < |items| ensures EncodeSecrets(items[i]) == items[i] {
        NothingToHide(items[i]);
      }
      assert EncodeSecrets(t).items == items;
    case Record(fields) =>
      forall i | 0 <= i < |fields| ensures EncodeSecrets(t).fields[i] == fields[i] {
        NothingToHide(fields[i].value);
      }
      assert EncodeSecrets(t).fields == fields;
    case _ =>
  }

  lemma {:induction false} AllHidden(t: Tree)
    ensures NoSecrets(EncodeSecrets(t))
  {
    match t
    case List(items) =>
      forall i | 0 <= i < |items| ensures NoSecrets(EncodeSecrets(items[i])) {
        AllHidden(items[i]);
      }
    case Record(fields) =>
      forall i | 0 <= i < |fields| ensures NoSecrets(EncodeSecrets(fields[i].value)) {
        AllHidden(fields[i].value);
      }
    case _ =>
  }

  lemma {:induction false} NothingToReplace(t: Tree)
    requires NoSecrets(t)
    ensures Replace(t) == t
  {
    NothingToHide(t);
    match t
    case List(items) =>
      forall i | 0 <= i < |items| ensures Replace(items[i]) == items[i] {
        NothingToReplace(items[i]);
      }
      assert Replace(t).items == items;
    case Record(fields) =>
      forall i | 0 <= i < |fields| ensures Replace(t).fields[i] == fields[i] {
        NothingToReplace(fields[i].value);
      }
      assert Replace(t).fields == fields;
    case _ =>
  }

  /** Hiding again at every node on the way down changes nothing more. */
  lemma ReplaceIsEncode(t: Tree)
    ensures Replace(t) == EncodeSecrets(t)
  {
    var e := EncodeSecrets(t);
    AllHidden(t);
    match e
    case List(items) =>
      forall i | 0 <= i < |items| ensures Replace(items[i]) == items[i] {
        NothingToReplace(items[i]);
      }
      assert Replace(t).items == items;
    case Record(fields) =>
      forall i | 0 <= i < |fields| ensures Replace(t).fields[i] == fields[i] {
        NothingToReplace(fields[i].value);
      }
      assert Replace(t).fields == fields;
    case _ =>
  }

  /** Two objects with the same marked fields pass for the same secret, or neither does. */
  lemma {:induction false} SameMarks(a: seq<Field>, b: seq<Field>)
    requires |a| == |b|
    requires forall i | 0 <= i < |a| :: SameMark(a[i], b[i])
    ensures MarkedText(a) == MarkedText(b)
  {
    if a != [] {
      assert SameMark(a[0], b[0]);
      SameMarks(a[1..], b[1..]);
    }
  }

  predicate SameMark(f: Field, g: Field) {
    (Marked(f) <==> Marked(g)) && (Marked(f) ==> f == g)
  }

  /** Neither hiding nor restoring makes a text, or changes one. */
  lemma TextsStay(k: string, v: Tree)
    ensures SameMark(Field(k, v), Field(k, DecodeSecrets(v))) && SameMark(Field(k, v), Field(k, EncodeSecrets(v)))
  {
  }

  function Decoded(fields: seq<Field>): seq<Field> {
    seq(|fields|, i requires 0 <= i < |fields| => Field(fields[i].key, DecodeSecrets(fields[i].value)))
  }

  function Encoded(fields: seq<Field>): seq<Field> {
    seq(|fields|, i requires 0 <= i < |fields| => Field(fields[i].key, EncodeSecrets(fields[i].value)))
  }

  lemma MarksStay(fields: seq<Field>)
    ensures MarkedText(Decoded(fields)) == MarkedText(fields) == MarkedText(Encoded(fields))
  {
    forall i | 0 <= i < |fields|
      ensures SameMark(fields[i], Decoded(fields)[i]) && SameMark(fields[i], Encoded(fields)[i])
    {
      TextsStay(fields[i].key, fields[i].value);
    }
    SameMarks(fields, Decoded(fields));
    SameMarks(fields, Encoded(fields));
  }

  /** Restoring never leaves, or makes, an object that passes for a secret. */
  lemma {:induction false} DecodeTwice(t: Tree)
    ensures DecodeSecrets(DecodeSecrets(t)) == DecodeSecrets(t)
  {
    if !IsPersistedSecret(t) {
      match t
      case List(items) =>
        var d := DecodeSecrets(t);
        forall i | 0 <= i < |items| ensures DecodeSecrets(d.items[i]) == d.items[i] {
          DecodeTwice(items[i]);
        }
        assert DecodeSecrets(d).items == d.items;
      case Record(fields) =>
        var d := DecodeSecrets(t);
        MarksStay(fields);
        forall i | 0 <= i < |fields| ensures DecodeSecrets(d).fields[i] == d.fields[i] {
          DecodeTwice(fields[i].value);
        }
        assert DecodeSecrets(d).fields == d.fields;
      case _ =>
    }
  }

  /** Restoring at every node on the way up comes to the same as restoring once from the top. */
  lemma {:induction false} ReviveIsDecode(t: Tree)
    ensures Revive(t) == DecodeSecrets(t)
  {
    match t
    case List(items) =>
      var up := List(seq(|items|, i requires 0 <= i < |items| => Revive(items[i])));
      forall i | 0 <= i < |items| ensures DecodeSecrets(up.items[i]) == DecodeSecrets(items[i]) {
        ReviveIsDecode(items[i]);
        DecodeTwice(items[i]);
      }
      assert DecodeSecrets(up).items == DecodeSecrets(t).items;
    case Record(fields) =>
      var up := Record(seq(|fields|, i requires 0 <= i < |fields| => Field(fields[i].key, Revive(fields[i].value))));
      forall i | 0 <= i < |fields| ensures up.fields[i].value == DecodeSecrets(fields[i].value) {
        ReviveIsDecode(fields[i].value);
      }
      MarksStay(fields);
      assert up.fields == Decoded(fields);
      if MarkedText(fields).None? {
        forall i | 0 <= i < |fields| ensures DecodeSecrets(up).fields[i] == DecodeSecrets(t).fields[i] {
          DecodeTwice(fields[i].value);
        }
        assert DecodeSecrets(up).fields == DecodeSecrets(t).fields;
      }
    case _ =>
  }

  // ---------------------------------------------------------------------
  // The round trip, and exactly when it holds
  // ---------------------------------------------------------------------

  /** Nothing in the tree, at any depth, already passes for a hidden secret. */
  predicate NoLookalike(t: Tree) {
    !IsPersistedSecret(t)
    && match t
       case List(items) => forall i | 0 <= i < |items| :: NoLookalike(items[i])
       case Record(fields) => forall i | 0 <= i < |fields| :: NoLookalike(fields[i].value)
       case _ => true
  }

  lemma SecretBack(b: Bytes)
    ensures DecodeSecrets(EncodeSecrets(Secret(b))) == Secret(b)
  {
    HexRoundTrip(b);
    assert Marked(Field(MARK, Str(Hex(b))));
  }

  lemma {:induction false} RoundTrip(t: Tree)
    ensures DecodeSecrets(EncodeSecrets(t)) == t <==> NoLookalike(t)
  {
    match t
    case Secret(b) => SecretBack(b);
    case List(items) =>
      var back := DecodeSecrets(EncodeSecrets(t)).items;
      forall i | 0 <= i < |items| ensures back[i] == items[i] <==> NoLookalike(items[i]) {
        RoundTrip(items[i]);
      }
      assert back == items <==> forall i | 0 <= i < |items| :: back[i] == items[i];
    case Record(fields) =>
      var e := EncodeSecrets(t);
      MarksStay(fields);
      if MarkedText(fields).None? {
        var back := DecodeSecrets(e).fields;
        forall i | 0 <= i < |fields| ensures back[i] == fields[i] <==> NoLookalike(fields[i].value) {
          RoundTrip(fields[i].value);
        }
        assert back == fields <==> forall i | 0 <= i < |fields| :: back[i] == fields[i];
      }
    case _ =>
  }

  /** A session saved and loaded again is the same session exactly when nothing in it passes for a hidden secret. */
  lemma SessionRestored(t: Tree)
    ensures Revive(Replace(t)) == t <==> NoLookalike(t)
  {
    ReplaceIsEncode(t);
    ReviveIsDecode(EncodeSecrets(t));
    RoundTrip(t);
  }

  /** How a secret is written: an object whose one field, `__bytes`, holds two lower-case digits a byte. */
  lemma HiddenForm(b: Bytes, i: nat)
    requires i < |b|
    ensures EncodeSecrets(Secret(b)) == Record([Field("__bytes", Str(Hex(b)))])
    ensures |Hex(b)| == 2 * |b| && Digit(Hex(b)[2 * i], b[i] / 16) && Digit(Hex(b)[2 * i + 1], b[i] % 16)
  {
    if i == 0 {
      HexLength(b[1..]);
    } else {
      HiddenForm(b[1..], i - 1);
    }
  }

  predicate Digit(c: char, n: int) {
    ('0' <= c <= '9' && n == c as int - '0' as int) || ('a' <= c <= 'f' && n == 10 + c as int - 'a' as int)
  }

  lemma {:induction false} HexLength(b: Bytes)
    ensures |Hex(b)| == 2 * |b|
  {
    if b != [] {
      HexLength(b[1..]);
    }
  }

  /** What passes for a hidden secret: an object with a text of hexadecimal digits, in either case, under `__bytes`. */
  lemma PassesFor(t: Tree)
    ensures
      IsPersistedSecret(t) <==>
        t.Record? && exists i :: 0 <= i < |t.fields| && t.fields[i].key == "__bytes" && t.fields[i].value.Str?
                                 && forall c | c in t.fields[i].value.s ::
                                      '0' <= c <= '9' || 'a' <= c <= 'f' || 'A' <= c <= 'F'
  {
    if t.Record? {
      MarkedSomewhere(t.fields);
    }
  }

  lemma {:induction false} MarkedSomewhere(fields: seq<Field>)
    ensures MarkedText(fields).Some? <==> exists i :: 0 <= i < |fields| && Marked(fields[i])
  {
    if fields != [] {
      MarkedSomewhere(fields[1..]);
      if !Marked(fields[0]) {
        if i :| 0 <= i < |fields| && Marked(fields[i]) {
          assert Marked(fields[1..][i - 1]);
        }
        if i :| 0 <= i < |fields[1..]| && Marked(fields[1..][i]) {
          assert Marked(fields[i + 1]);
        }
      }
    }
  }
}
