/** Reading a canonical text back: what it spells, and in which order. */
module CanonicalReadBack {
  import Base
  import opened Decimal
  import opened JsonText
  import opened JsonReader
  import opened CanonicalJson

  // ---------------------------------------------------------------------
  // Strings and numbers
  // ---------------------------------------------------------------------

  /**
   * How JSON.stringify writes one unit: as itself; a control character that has a short escape, a quote or a
   * backslash by two; and any other control character or lone surrogate by its number in lower-case digits.
   */
  lemma UnitSpelling(c: CodeUnit)
    ensures EscapeUnit(c) == [c] <==> c >= 0x20 && c != '"' as int && c != '\\' as int && !(0xD800 <= c < 0xE000)
    ensures |EscapeUnit(c)| == 2 <==> c in {0x08, 0x09, 0x0A, 0x0C, 0x0D, '"' as int, '\\' as int}
    ensures |EscapeUnit(c)| in {1, 2, 6} && (|EscapeUnit(c)| == 1 ==> EscapeUnit(c) == [c])
    ensures |EscapeUnit(c)| == 6 ==>
              forall i | 2 <= i < 6 ::
                var h := EscapeUnit(c)[i];
                '0' as int <= h <= '9' as int || 'a' as int <= h <= 'f' as int
  {
  }

  lemma HexBack(d: int)
    requires 0 <= d < 16
    ensures HexValue(JsonText.HexDigit(d)) == d
  {
  }

  /** Behind its backslash, an escape is read as the unit it stands for. */
  lemma EscapeBack(c: CodeUnit, x: Text)
    requires |EscapeUnit(c)| > 1
    ensures At(EscapeUnit(c) + x, 0, '\\')
    ensures ReadEscape((EscapeUnit(c) + x)[1..]) == Read(c, x)
  {
    var t := (EscapeUnit(c) + x)[1..];
    if |EscapeUnit(c)| == 2 {
      assert t == [EscapeUnit(c)[1]] + x;
    } else {
      assert t == EscapeUnit(c)[1..] + x;
      assert t[5..] == x;
      HexBack(c / 0x1000);
      HexBack(c / 0x100 % 16);
      HexBack(c / 16 % 16);
      HexBack(c % 16);
      FourHexDigits(c);
      assert HexUnit(t[1..]) == c;
    }
  }

  lemma UnitBack(c: CodeUnit, x: Text)
    ensures ReadString(EscapeUnit(c) + x) == Before(c, ReadString(x))
  {
    if |EscapeUnit(c)| > 1 {
      EscapeBack(c, x);
    } else {
      assert EscapeUnit(c) + x == [c] + x;
      assert ([c] + x)[1..] == x;
    }
  }

  lemma PlainBack(c: CodeUnit, x: Text)
    requires c >= 0x20 && c != '"' as int && c != '\\' as int
    ensures ReadString([c] + x) == Before(c, ReadString(x))
  {
    assert ([c] + x)[1..] == x;
  }

  lemma PairBack(s: Text, r: Text)
    requires IsPair(s) && ReadString(Closed(s[2..], r)) == Read(s[2..], r)
    ensures ReadString(Closed(s, r)) == Read(s, r)
  {
    var x := Closed(s[2..], r);
    ClosedPair(s, r);
    assert [s[0], s[1]] + x == [s[0]] + ([s[1]] + x);
    PlainBack(s[0], [s[1]] + x);
    PlainBack(s[1], x);
    assert [s[0]] + ([s[1]] + s[2..]) == s;
  }

  lemma {:induction false} StringBack(s: Text, r: Text)
    ensures ReadString(Closed(s, r)) == Read(s, r)
    decreases |s|
  {
    if s == [] {
      ClosedEmpty(s, r);
      assert ([QUOTE] + r)[1..] == r;
    } else if IsPair(s) {
      StringBack(s[2..], r);
      PairBack(s, r);
    } else {
      ClosedSingle(s, r);
      StringBack(s[1..], r);
      UnitBack(s[0], Closed(s[1..], r));
      assert [s[0]] + s[1..] == s;
    }
  }

  /** A quoted text is read back as it was, whatever follows. */
  lemma QuotedBack(s: Text, r: Text)
    ensures At(Quoted(s) + r, 0, '"')
    ensures ReadString((Quoted(s) + r)[1..]) == Read(s, r)
  {
    assert Quoted(s) + r == [QUOTE] + Closed(s, r);
    assert ([QUOTE] + Closed(s, r))[1..] == Closed(s, r);
    StringBack(s, r);
  }

  lemma {:induction false} CountBack(ds: seq<Digit>, r: Text)
    requires Ends(r)
    ensures DigitCount(DigitText(ds) + r) == |ds|
  {
    if ds == [] {
      assert DigitText(ds) + r == r;
    } else {
      CountBack(ds[1..], r);
      assert (DigitText(ds) + r)[1..] == DigitText(ds[1..]) + r;
    }
  }

  lemma {:induction false} NaturalBack(ds: seq<Digit>)
    ensures forall i | 0 <= i < |ds| :: IsDigit(DigitText(ds)[i])
    ensures Natural(DigitText(ds)) == ToNat(ds)
  {
    if ds != [] {
      NaturalBack(ds[..|ds| - 1]);
      assert DigitText(ds)[..|ds| - 1] == DigitText(ds[..|ds| - 1]);
    }
  }

  lemma DigitsBack(n: nat, r: Text)
    requires Ends(r)
    ensures
      var u := DigitText(Digits(n)) + r;
      var k := DigitCount(u);
      && k == |Digits(n)| > 0 && Natural(u[..k]) == n && u[k..] == r && !At(u, 0, '-') && (k > 1 ==> !At(u, 0, '0'))
  {
    var ds := Digits(n);
    CountBack(ds, r);
    NaturalBack(ds);
    ToNatDigits(n);
    assert (DigitText(ds) + r)[..|ds|] == DigitText(ds) && (DigitText(ds) + r)[|ds|..] == r;
    assert (DigitText(ds) + r)[0] == DigitText(ds)[0];
  }

  /** Read off digits that end where the text is no number any more. */
  lemma SizeBack(u: Text, negative: bool, n: nat, r: Text)
    requires
      var k := DigitCount(u);
      && k > 0 && Natural(u[..k]) == n && u[k..] == r && !At(u, 0, '-') && (k > 1 ==> !At(u, 0, '0'))
    requires Ends(r)
    ensures ReadNumber(if negative then [MINUS] + u else u) == Read(Num(if negative then -(n as int) else n), r)
  {
    var k := DigitCount(u);
    assert k < |u| ==> u[k] == r[0];
    if negative {
      assert ([MINUS] + u)[1..] == u;
    }
  }

  lemma NumberBack(n: int, r: Text)
    requires Ends(r)
    ensures ReadNumber(NumberText(n) + r) == Read(Num(n), r)
    ensures IsDigit((NumberText(n) + r)[0]) || At(NumberText(n) + r, 0, '-')
  {
    var size := if n < 0 then -n else n;
    var u := DigitText(Digits(size)) + r;
    DigitsBack(size, r);
    SizeBack(u, n < 0, size, r);
    SignThenDigits(n, r);
  }

  lemma SignThenDigits(n: int, r: Text)
    ensures
      var u := DigitText(Digits(if n < 0 then -n else n)) + r;
      && NumberText(n) + r == (if n < 0 then [MINUS] + u else u)
      && u != [] && IsDigit(u[0])
  {
    var ds := Digits(if n < 0 then -n else n);
    assert (DigitText(ds) + r)[0] == DigitByte(ds[0]);
  }

  // ---------------------------------------------------------------------
  // Values
  // ---------------------------------------------------------------------

  /** One key stands before another: it is a proper beginning of it, or smaller where they first differ. */
  ghost predicate Precedes(a: Text, b: Text) {
    exists k: nat :: Base.PartsAt(a, b, k)
  }

  /** Every object, at every depth, has its keys in order. */
  ghost predicate KeysInOrder(v: Json) {
    match v
    case Arr(items) => forall i | 0 <= i < |items| :: KeysInOrder(items[i])
    case Obj(entries) =>
      && (forall i, j | 0 <= i < j < |entries| :: Precedes(entries[i].key, entries[j].key))
      && forall i | 0 <= i < |entries| :: KeysInOrder(entries[i].value)
    case _ => true
  }

  lemma SortPrecedes(es: seq<Entry>)
    requires DistinctKeys(es)
    ensures forall i, j | 0 <= i < j < |Sort(es)| :: Precedes(Sort(es)[i].key, Sort(es)[j].key)
  {
    SortAscends(es);
    forall i, j | 0 <= i < j < |Sort(es)| ensures Precedes(Sort(es)[i].key, Sort(es)[j].key) {
      Base.LessMeans(Sort(es)[i].key, Sort(es)[j].key);
    }
  }

  /** What a canonical text begins with is no white space, and tells the kind of value. */
  lemma FirstBack(v: Json, r: Text)
    ensures
      var t := Canonicalize(v) + r;
      && t != [] && Skip(t) == t
      && (v.Str? <==> At(t, 0, '"')) && (v.Arr? <==> At(t, 0, '[')) && (v.Obj? <==> At(t, 0, '{'))
      && !At(t, 0, ']') && !At(t, 0, '}')
      && (v.Num? ==> !At(t, 0, 'n') && !At(t, 0, 't') && !At(t, 0, 'f'))
      && ((v.Str? || v.Arr? || v.Obj?) ==> !At(t, 0, 'n') && !At(t, 0, 't') && !At(t, 0, 'f'))
  {
    FirstUnit(v, r);
  }

  lemma LiteralBack(v: Json, r: Text)
    requires v.Null? || v.Bool?
    ensures ReadValue(Canonicalize(v) + r) == Read(v, r)
  {
    var t := Canonicalize(v) + r;
    match v
    case Null => assert t[4..] == r;
    case Bool(truth) =>
      if truth {
        assert t[4..] == r && t[0] == 't' as int;
      } else {
        assert t[5..] == r && t[0] == 'f' as int;
      }
  }

  lemma NumberValueBack(n: int, r: Text)
    requires Ends(r)
    ensures ReadValue(Canonicalize(Num(n)) + r) == Read(Num(n), r)
  {
    FirstBack(Num(n), r);
    NumberBack(n, r);
  }

  lemma StringValueBack(s: Text, r: Text)
    ensures ReadValue(Canonicalize(Str(s)) + r) == Read(Str(s), r)
  {
    FirstBack(Str(s), r);
    QuotedBack(s, r);
  }

  /** The same value with the keys of every object sorted. */
  function InOrder(v: Json): (u: Json)
    decreases v, 1
  {
    match v
    case Arr(_) => Arr(ItemsInOrder(v))
    case Obj(_) => Obj(EntriesInOrder(v))
    case _ => v
  }

  function ItemsInOrder(v: Json): (us: seq<Json>)
    requires v.Arr?
    ensures |us| == |v.items|
    decreases v, 0
  {
    seq(|v.items|, i requires 0 <= i < |v.items| => InOrder(v.items[i]))
  }

  function EntriesInOrder(v: Json): (fs: seq<Entry>)
    requires v.Obj?
    ensures |fs| == |Sort(v.entries)|
    decreases v, 0
  {
    SortMembers(v.entries);
    var es := Sort(v.entries);
    assert forall i | 0 <= i < |es| :: es[i] in v.entries;
    seq(|es|, i requires 0 <= i < |es| => Entry(es[i].key, InOrder(es[i].value)))
  }

  lemma {:induction false} SameInOrder(v: Json)
    requires WellFormed(v)
    ensures Same(v, InOrder(v)) && KeysInOrder(InOrder(v))
    decreases v
  {
    match v
    case Arr(items) =>
      forall i | 0 <= i < |items| ensures Same(items[i], ItemsInOrder(v)[i]) && KeysInOrder(ItemsInOrder(v)[i]) {
        SameInOrder(items[i]);
      }
    case Obj(entries) =>
      SortedEntriesOf(v);
      var es := Sort(entries);
      forall k | 0 <= k < |es|
        ensures Same(es[k].value, EntriesInOrder(v)[k].value) && KeysInOrder(EntriesInOrder(v)[k].value)
      {
        assert es[k] in entries;
        SameInOrder(es[k].value);
      }
      SortPrecedes(entries);
      SameEntries(v);
    case _ =>
  }

  lemma SameEntries(v: Json)
    requires v.Obj? && WellFormed(v)
    requires forall k | 0 <= k < |Sort(v.entries)| :: Same(Sort(v.entries)[k].value, EntriesInOrder(v)[k].value)
    ensures Same(v, InOrder(v))
  {
    var es, fs := Sort(v.entries), EntriesInOrder(v);
    assert Keys(es) == Keys(fs);
    SortedKeys(v.entries);
    SortMembers(v.entries);
    SortAscends(v.entries);
    forall i, j | 0 <= i < |v.entries| && 0 <= j < |fs| && v.entries[i].key == fs[j].key
      ensures Same(v.entries[i].value, fs[j].value)
    {
      assert v.entries[i] in es;
      var p :| 0 <= p < |es| && es[p] == v.entries[i];
      Base.LessIrreflexive(es[p].key);
      assert p == j;
    }
  }

  // ---------------------------------------------------------------------
  // Whatever ends it, a canonical text reads as its value with the keys sorted
  // ---------------------------------------------------------------------

  lemma {:induction false} ReadBack(v: Json, r: Text)
    requires WellFormed(v) && Ends(r)
    ensures ReadValue(Canonicalize(v) + r) == Read(InOrder(v), r)
    decreases v, 3, 0
  {
    match v
    case Null => LiteralBack(v, r);
    case Bool(_) => LiteralBack(v, r);
    case Num(n) => NumberValueBack(n, r);
    case Str(s) => StringValueBack(s, r);
    case Arr(_) => ArrayBack(v, r);
    case Obj(_) => ObjectBack(v, r);
  }

  /** What ends an item or entry is no white space. */
  lemma EndsSolid(t: Text)
    requires Ends(t)
    ensures Skip(t) == t
  {
  }

  lemma OpensArray(t: Text, inner: Text)
    requires t == [OPEN_BRACKET] + inner && Skip(inner) == inner
    ensures
      ReadValue(t) == if At(inner, 0, ']') then Read(Arr([]), inner[1..])
                      else match ReadItems(inner)
                           case Unreadable => Unreadable
                           case Read(items, rest) => Read(Arr(items), rest)
  {
    assert t[0] == OPEN_BRACKET && t[1..] == inner;
    assert !At(t, 0, 'n') && !At(t, 0, 't') && !At(t, 0, 'f') && !At(t, 0, '"') && At(t, 0, '[');
  }

  lemma ArrayOpened(v: Json, r: Text)
    requires v.Arr?
    ensures Canonicalize(v) + r == [OPEN_BRACKET] + (Items(v) + ([CLOSE_BRACKET] + r))
  {
    assert Canonicalize(v) == [OPEN_BRACKET] + Items(v) + [CLOSE_BRACKET];
  }

  lemma {:induction false} ArrayBack(v: Json, r: Text)
    requires v.Arr? && WellFormed(v)
    ensures ReadValue(Canonicalize(v) + r) == Read(InOrder(v), r)
    decreases v, 2, 0
  {
    var inner := Items(v) + ([CLOSE_BRACKET] + r);
    ArrayStarts(v, r);
    if v.items != [] {
      ItemsBack(v, 0, r);
    }
    ArrayOpened(v, r);
    OpensArray(Canonicalize(v) + r, inner);
  }

  lemma ArrayStarts(v: Json, r: Text)
    requires v.Arr?
    ensures
      var inner := Items(v) + ([CLOSE_BRACKET] + r);
      && Skip(inner) == inner
      && (v.items == [] ==> At(inner, 0, ']') && inner[1..] == r)
      && (v.items != [] ==> !At(inner, 0, ']') && inner == Canonicalize(v.items[0]) + ArrayRest(v, 1, r))
  {
    ItemsFirst(v, r);
    if v.items != [] {
      FirstBack(v.items[0], ArrayRest(v, 1, r));
    } else {
      assert ([CLOSE_BRACKET] + r)[1..] == r;
    }
  }

  lemma LastItem(t: Text, u: Json, rest: Text)
    requires ReadValue(t) == Read(u, rest) && Skip(rest) == rest && At(rest, 0, ']')
    ensures ReadItems(t) == Read([u], rest[1..])
  {
  }

  lemma NextItem(t: Text, u: Json, rest: Text, next: Text, more: seq<Json>, r: Text)
    requires ReadValue(t) == Read(u, rest) && rest == [COMMA] + next
    requires Skip(next) == next && ReadItems(next) == Read(more, r)
    ensures ReadItems(t) == Read([u] + more, r)
  {
    assert rest[1..] == next;
  }

  lemma FirstAndRest<T>(s: seq<T>, i: nat)
    requires i < |s|
    ensures s[i..] == [s[i]] + s[i + 1..]
    ensures i + 1 == |s| ==> s[i..] == [s[i]]
  {
  }

  /** What follows an item ends it: the bracket, or a comma and the next item. */
  lemma ArrayGoesOn(v: Json, i: nat, r: Text)
    requires v.Arr? && i <= |v.items|
    ensures
      var rest := ArrayRest(v, i, r);
      && Ends(rest) && Skip(rest) == rest
      && (i == |v.items| ==> At(rest, 0, ']') && rest[1..] == r)
      && (i < |v.items| ==>
            var next := Canonicalize(v.items[i]) + ArrayRest(v, i + 1, r);
            rest == [COMMA] + next && Skip(next) == next)
  {
    ArrayRestFirst(v, i, r);
    if i == |v.items| {
      assert ([CLOSE_BRACKET] + r)[1..] == r;
    } else {
      FirstBack(v.items[i], ArrayRest(v, i + 1, r));
    }
  }

  lemma {:induction false} ItemsBack(v: Json, i: nat, r: Text)
    requires v.Arr? && WellFormed(v) && i < |v.items|
    ensures ReadItems(Canonicalize(v.items[i]) + ArrayRest(v, i + 1, r)) == Read(ItemsInOrder(v)[i..], r)
    decreases v, 1, |v.items| - i
  {
    var rest, us := ArrayRest(v, i + 1, r), ItemsInOrder(v);
    var t := Canonicalize(v.items[i]) + rest;
    ArrayGoesOn(v, i + 1, r);
    ReadBack(v.items[i], rest);
    FirstAndRest(us, i);
    if i + 1 == |v.items| {
      LastItem(t, us[i], rest);
    } else {
      var next := Canonicalize(v.items[i + 1]) + ArrayRest(v, i + 2, r);
      ItemsBack(v, i + 1, r);
      NextItem(t, us[i], rest, next, us[i + 1..], r);
    }
  }

  // The same for objects, over the sorted entries.

  lemma ReadsEntry(t: Text, key: Text, u: Text, after: Text, v: Json, r: Text)
    requires At(t, 0, '"') && ReadString(t[1..]) == Read(key, u) && u == [COLON] + after
    requires Skip(after) == after && ReadValue(after) == Read(v, r)
    ensures ReadEntry(t) == Read(Entry(key, v), r)
  {
    assert u[1..] == after;
  }

  lemma {:induction false} EntryBack(v: Json, e: Entry, r: Text)
    requires v.Obj? && e in v.entries && WellFormed(e.value) && Ends(r)
    ensures ReadEntry(EntryText(v, e) + r) == Read(Entry(e.key, InOrder(e.value)), r)
    decreases v, 0, 0
  {
    var after := Canonicalize(e.value) + r;
    EntryFirst(v, e, r);
    QuotedBack(e.key, [COLON] + after);
    FirstBack(e.value, r);
    ReadBack(e.value, r);
    ReadsEntry(EntryText(v, e) + r, e.key, [COLON] + after, after, InOrder(e.value), r);
  }

  lemma LastEntry(t: Text, f: Entry, rest: Text)
    requires ReadEntry(t) == Read(f, rest) && Skip(rest) == rest && At(rest, 0, '}')
    ensures ReadEntries(t) == Read([f], rest[1..])
  {
  }

  lemma NextEntry(t: Text, f: Entry, rest: Text, next: Text, more: seq<Entry>, r: Text)
    requires ReadEntry(t) == Read(f, rest) && rest == [COMMA] + next
    requires Skip(next) == next && ReadEntries(next) == Read(more, r)
    ensures ReadEntries(t) == Read([f] + more, r)
  {
    assert rest[1..] == next;
  }

  lemma ObjectGoesOn(v: Json, es: seq<Entry>, i: nat, r: Text)
    requires EntriesOf(v, es) && i <= |es|
    ensures
      var rest := ObjectRest(v, es, i, r);
      && Ends(rest) && Skip(rest) == rest
      && (i == |es| ==> At(rest, 0, '}') && rest[1..] == r)
      && (i < |es| ==>
            var next := EntryText(v, es[i]) + ObjectRest(v, es, i + 1, r);
            rest == [COMMA] + next && Skip(next) == next)
  {
    ObjectRestFirst(v, es, i, r);
    EndsSolid(ObjectRest(v, es, i, r));
    if i == |es| {
      assert ([CLOSE_BRACE] + r)[1..] == r;
    } else {
      EntrySolid(v, es[i], ObjectRest(v, es, i + 1, r));
    }
  }

  lemma EntrySolid(v: Json, e: Entry, r: Text)
    requires v.Obj? && e in v.entries
    ensures Skip(EntryText(v, e) + r) == EntryText(v, e) + r && At(EntryText(v, e) + r, 0, '"')
  {
    EntryFirst(v, e, r);
  }

  lemma {:induction false} EntriesBack(v: Json, i: nat, r: Text)
    requires v.Obj? && EntriesOf(v, Sort(v.entries)) && i < |Sort(v.entries)|
    ensures
      var es := Sort(v.entries);
      ReadEntries(EntryText(v, es[i]) + ObjectRest(v, es, i + 1, r)) == Read(EntriesInOrder(v)[i..], r)
    decreases v, 1, |Sort(v.entries)| - i
  {
    var es, fs := Sort(v.entries), EntriesInOrder(v);
    var rest := ObjectRest(v, es, i + 1, r);
    var t := EntryText(v, es[i]) + rest;
    ObjectGoesOn(v, es, i + 1, r);
    EntryBack(v, es[i], rest);
    FirstAndRest(fs, i);
    if i + 1 == |es| {
      LastEntry(t, fs[i], rest);
    } else {
      var next := EntryText(v, es[i + 1]) + ObjectRest(v, es, i + 2, r);
      EntriesBack(v, i + 1, r);
      NextEntry(t, fs[i], rest, next, fs[i + 1..], r);
    }
  }

  lemma OpensObject(t: Text, inner: Text)
    requires t == [OPEN_BRACE] + inner && Skip(inner) == inner
    ensures
      ReadValue(t) == if At(inner, 0, '}') then Read(Obj([]), inner[1..])
                      else match ReadEntries(inner)
                           case Unreadable => Unreadable
                           case Read(entries, rest) => Read(Obj(entries), rest)
  {
    assert t[0] == OPEN_BRACE && t[1..] == inner;
    assert !At(t, 0, 'n') && !At(t, 0, 't') && !At(t, 0, 'f') && !At(t, 0, '"') && !At(t, 0, '[') && At(t, 0, '{');
  }

  lemma ObjectOpened(v: Json, r: Text)
    requires v.Obj? && EntriesOf(v, Sort(v.entries))
    ensures Canonicalize(v) + r == [OPEN_BRACE] + (Entries(v, Sort(v.entries)) + ([CLOSE_BRACE] + r))
  {
    assert Canonicalize(v) == [OPEN_BRACE] + Entries(v, Sort(v.entries)) + [CLOSE_BRACE];
  }

  lemma {:induction false} ObjectBack(v: Json, r: Text)
    requires v.Obj? && WellFormed(v)
    ensures ReadValue(Canonicalize(v) + r) == Read(InOrder(v), r)
    decreases v, 2, 0
  {
    var es := Sort(v.entries);
    SortedEntriesOf(v);
    var inner := Entries(v, es) + ([CLOSE_BRACE] + r);
    ObjectStarts(v, es, r);
    if es != [] {
      EntriesBack(v, 0, r);
    }
    ObjectOpened(v, r);
    OpensObject(Canonicalize(v) + r, inner);
  }

  lemma ObjectStarts(v: Json, es: seq<Entry>, r: Text)
    requires EntriesOf(v, es)
    ensures
      var inner := Entries(v, es) + ([CLOSE_BRACE] + r);
      && Skip(inner) == inner
      && (es == [] ==> At(inner, 0, '}') && inner[1..] == r)
      && (es != [] ==> !At(inner, 0, '}') && inner == EntryText(v, es[0]) + ObjectRest(v, es, 1, r))
  {
    EntriesFirst(v, es, r);
    if es != [] {
      EntrySolid(v, es[0], ObjectRest(v, es, 1, r));
    } else {
      assert ([CLOSE_BRACE] + r)[1..] == r;
    }
  }

  /** The whole text is JSON for the value up to the order of keys, with its keys in order at every depth. */
  lemma TextReadBack(v: Json) returns (u: Json)
    requires WellFormed(v)
    ensures ReadText(Canonicalize(v)) == Read(u, []) && Same(v, u) && KeysInOrder(u)
  {
    u := InOrder(v);
    ReadBack(v, []);
    SameInOrder(v);
    FirstBack(v, []);
    assert Canonicalize(v) + [] == Canonicalize(v);
  }
}
