/** The canonical serialisation that a payment intent's hash and signature are made over. */
module CanonicalJson {
  import Base
  import opened Decimal
  import opened JsonText

  // ---------------------------------------------------------------------
  // Key order: compareKeys, by UTF-16 code units
  // ---------------------------------------------------------------------

  function CompareKeys(left: Text, right: Text): int {
    if Base.Less(left, right) then -1 else if Base.Less(right, left) then 1 else 0
  }

  // ---------------------------------------------------------------------
  // Sorting entries by key
  // ---------------------------------------------------------------------

  predicate Ascending(es: seq<Entry>) {
    forall i, j | 0 <= i < j < |es| :: Base.Less(es[i].key, es[j].key)
  }

  function Insert(e: Entry, es: seq<Entry>): seq<Entry> {
    if es == [] || CompareKeys(e.key, es[0].key) < 0 then [e] + es
    else [es[0]] + Insert(e, es[1..])
  }

  function Sort(es: seq<Entry>): seq<Entry> {
    if es == [] then [] else Insert(es[0], Sort(es[1..]))
  }

  lemma {:induction false} InsertKeeps(e: Entry, es: seq<Entry>)
    ensures multiset(Insert(e, es)) == multiset(es) + multiset{e}
  {
    if es == [] || CompareKeys(e.key, es[0].key) < 0 {
    } else {
      InsertKeeps(e, es[1..]);
      assert es == [es[0]] + es[1..];
    }
  }

  lemma {:induction false} SortKeeps(es: seq<Entry>)
    ensures multiset(Sort(es)) == multiset(es)
  {
    if es != [] {
      SortKeeps(es[1..]);
      InsertKeeps(es[0], Sort(es[1..]));
      assert es == [es[0]] + es[1..];
    }
  }

  lemma SortMembers(es: seq<Entry>)
    ensures |Sort(es)| == |es|
    ensures forall e :: e in Sort(es) <==> e in es
  {
    SortKeeps(es);
    assert |multiset(Sort(es))| == |multiset(es)|;
    assert forall e :: e in Sort(es) <==> e in multiset(Sort(es));
  }

  lemma {:induction false} InsertAscends(e: Entry, es: seq<Entry>)
    requires Ascending(es) && forall i | 0 <= i < |es| :: es[i].key != e.key
    ensures Ascending(Insert(e, es))
  {
    if es == [] {
    } else if CompareKeys(e.key, es[0].key) < 0 {
      forall j | 1 <= j < |es| ensures Base.Less(e.key, es[j].key) {
        Base.LessTransitive(e.key, es[0].key, es[j].key);
      }
    } else {
      Base.LessTotal(e.key, es[0].key);
      InsertAscends(e, es[1..]);
      InsertKeeps(e, es[1..]);
      var tail := Insert(e, es[1..]);
      forall j | 0 <= j < |tail| ensures Base.Less(es[0].key, tail[j].key) {
        assert tail[j] in multiset(tail);
        assert tail[j] == e || tail[j] in es[1..];
      }
    }
  }

  lemma {:induction false} SortAscends(es: seq<Entry>)
    requires DistinctKeys(es)
    ensures Ascending(Sort(es))
  {
    if es != [] {
      SortAscends(es[1..]);
      SortMembers(es[1..]);
      var tail := Sort(es[1..]);
      forall i | 0 <= i < |tail| ensures tail[i].key != es[0].key {
        assert tail[i] in es[1..];
      }
      InsertAscends(es[0], tail);
    }
  }

  function Keys(es: seq<Entry>): (ks: seq<Text>)
    ensures |ks| == |es| && forall i | 0 <= i < |es| :: ks[i] == es[i].key
  {
    seq(|es|, i requires 0 <= i < |es| => es[i].key)
  }

  predicate AscendingKeys(ks: seq<Text>) {
    forall i, j | 0 <= i < j < |ks| :: Base.Less(ks[i], ks[j])
  }

  ghost predicate SameKeys(ks: seq<Text>, ls: seq<Text>) {
    forall k :: k in ks <==> k in ls
  }

  lemma LeastFirst(ks: seq<Text>, k: Text)
    requires AscendingKeys(ks) && k in ks
    ensures k == ks[0] || Base.Less(ks[0], k)
  {
  }

  /** The least key comes first in either list. */
  lemma SameFirst(ks: seq<Text>, ls: seq<Text>)
    requires AscendingKeys(ks) && AscendingKeys(ls) && SameKeys(ks, ls) && ks != [] && ls != []
    ensures ks[0] == ls[0]
  {
    LeastFirst(ks, ls[0]);
    LeastFirst(ls, ks[0]);
    if ks[0] != ls[0] {
      Base.LessTransitive(ks[0], ls[0], ks[0]);
      Base.LessIrreflexive(ks[0]);
    }
  }

  lemma RestOf(ks: seq<Text>, k: Text)
    requires AscendingKeys(ks) && ks != []
    ensures k in ks[1..] <==> k in ks && k != ks[0]
  {
    Base.LessIrreflexive(ks[0]);
    if k in ks && k != ks[0] {
      var i :| 0 <= i < |ks| && ks[i] == k;
      assert ks[1..][i - 1] == k;
    }
  }

  lemma EmptyTogether(ks: seq<Text>, ls: seq<Text>)
    requires SameKeys(ks, ls)
    ensures ks == [] <==> ls == []
  {
    if ks != [] {
      assert ks[0] in ks;
    }
    if ls != [] {
      assert ls[0] in ls;
    }
  }

  /** There is only one ascending arrangement of a set of keys. */
  lemma {:induction false} AscendingUnique(ks: seq<Text>, ls: seq<Text>)
    requires AscendingKeys(ks) && AscendingKeys(ls) && SameKeys(ks, ls)
    ensures ks == ls
  {
    EmptyTogether(ks, ls);
    if ks != [] {
      SameFirst(ks, ls);
      forall k ensures k in ks[1..] <==> k in ls[1..] {
        RestOf(ks, k);
        RestOf(ls, k);
      }
      AscendingUnique(ks[1..], ls[1..]);
      assert ks == [ks[0]] + ks[1..] && ls == [ls[0]] + ls[1..];
    }
  }

  // ---------------------------------------------------------------------
  // canonicalize
  // ---------------------------------------------------------------------

  function Canonicalize(v: Json): Text
    decreases v, 2, 0
  {
    match v
    case Null => NULL_TEXT
    case Bool(truth) => if truth then TRUE_TEXT else FALSE_TEXT
    case Num(n) => NumberText(n)
    case Str(s) => Quoted(s)
    case Arr(items) => [OPEN_BRACKET] + Items(v) + [CLOSE_BRACKET]
    case Obj(entries) =>
      SortMembers(entries);
      [OPEN_BRACE] + Entries(v, Sort(entries)) + [CLOSE_BRACE]
  }

  /** The items of v joined with commas. */
  function Items(v: Json): Text
    requires v.Arr?
    decreases v, 1, |v.items| + 1
  {
    if v.items == [] then [] else Canonicalize(v.items[0]) + MoreItems(v, 1)
  }

  /** The items from position i on, each behind its comma. */
  function MoreItems(v: Json, i: nat): Text
    requires v.Arr? && i <= |v.items|
    decreases v, 1, |v.items| - i
  {
    if i == |v.items| then [] else [COMMA] + Canonicalize(v.items[i]) + MoreItems(v, i + 1)
  }

  function EntryText(v: Json, e: Entry): Text
    requires v.Obj? && e in v.entries
    decreases v, 0, 0
  {
    Quoted(e.key) + [COLON] + Canonicalize(e.value)
  }

  /** The entries es of v joined with commas. */
  function Entries(v: Json, es: seq<Entry>): Text
    requires v.Obj? && forall i | 0 <= i < |es| :: es[i] in v.entries
    decreases v, 1, |es| + 1
  {
    if es == [] then [] else EntryText(v, es[0]) + MoreEntries(v, es, 1)
  }

  function MoreEntries(v: Json, es: seq<Entry>, i: nat): Text
    requires v.Obj? && i <= |es| && forall i | 0 <= i < |es| :: es[i] in v.entries
    decreases v, 1, |es| - i
  {
    if i == |es| then [] else [COMMA] + EntryText(v, es[i]) + MoreEntries(v, es, i + 1)
  }

  // ---------------------------------------------------------------------
  // Equality up to the order of object keys
  // ---------------------------------------------------------------------

  ghost predicate Same(a: Json, b: Json)
    decreases a
  {
    match a
    case Arr(items) =>
      b.Arr? && |items| == |b.items| && forall i | 0 <= i < |items| :: Same(items[i], b.items[i])
    case Obj(entries) => b.Obj? && SameKeys(Keys(entries), Keys(b.entries)) && SameValues(a, b)
    case _ => a == b
  }

  /** Entries under one key hold the same values. */
  ghost predicate SameValues(a: Json, b: Json)
    requires a.Obj? && b.Obj?
    decreases a, 0
  {
    forall i, j | 0 <= i < |a.entries| && 0 <= j < |b.entries| && a.entries[i].key == b.entries[j].key ::
      Same(a.entries[i].value, b.entries[j].value)
  }

  /** Sorting makes the entries of two such objects line up. */
  lemma LinedUp(a: seq<Entry>, b: seq<Entry>)
    requires DistinctKeys(a) && DistinctKeys(b)
    ensures SameKeys(Keys(a), Keys(b)) <==> Keys(Sort(a)) == Keys(Sort(b))
  {
    SortAscends(a);
    SortAscends(b);
    SortedKeys(a);
    SortedKeys(b);
    if SameKeys(Keys(a), Keys(b)) {
      AscendingUnique(Keys(Sort(a)), Keys(Sort(b)));
    }
  }

  lemma SortedKeys(es: seq<Entry>)
    ensures SameKeys(Keys(es), Keys(Sort(es)))
  {
    SortMembers(es);
    forall k ensures k in Keys(es) <==> k in Keys(Sort(es)) {
      if k in Keys(es) {
        var i :| 0 <= i < |es| && Keys(es)[i] == k;
        assert es[i] in Sort(es);
        var j :| 0 <= j < |Sort(es)| && Sort(es)[j] == es[i];
        assert Keys(Sort(es))[j] == k;
      }
      if k in Keys(Sort(es)) {
        var j :| 0 <= j < |Sort(es)| && Keys(Sort(es))[j] == k;
        assert Sort(es)[j] in es;
        var i :| 0 <= i < |es| && es[i] == Sort(es)[j];
        assert Keys(es)[i] == k;
      }
    }
  }

  // ---------------------------------------------------------------------
  // The text is read in only one way
  // ---------------------------------------------------------------------

  /** What kind of value a unit can start. */
  function Tag(c: CodeUnit): int {
    if c == 110 then 0
    else if c == 116 || c == 102 then 1
    else if c == MINUS || 48 <= c < 58 then 2
    else if c == QUOTE then 3
    else if c == OPEN_BRACKET then 4
    else if c == OPEN_BRACE then 5
    else 6
  }

  function KindOf(v: Json): int {
    match v
    case Null => 0
    case Bool(_) => 1
    case Num(_) => 2
    case Str(_) => 3
    case Arr(_) => 4
    case Obj(_) => 5
  }

  lemma FirstUnit(v: Json, r: Text)
    ensures Canonicalize(v) != [] && Tag((Canonicalize(v) + r)[0]) == KindOf(v)
  {
    assert Canonicalize(v) != [] ==> (Canonicalize(v) + r)[0] == Canonicalize(v)[0];
  }

  lemma SameBool(s: bool, t: bool, r: Text, u: Text)
    requires Canonicalize(Bool(s)) + r == Canonicalize(Bool(t)) + u
    ensures s == t && r == u
  {
    var x, y := Canonicalize(Bool(s)) + r, Canonicalize(Bool(t)) + u;
    assert x[0] == Canonicalize(Bool(s))[0] && y[0] == Canonicalize(Bool(t))[0];
    DropBoth(Canonicalize(Bool(s)), Canonicalize(Bool(t)), r, u);
  }

  /** Two canonical texts that agree, whatever ends them, are of values equal up to key order. */
  lemma {:induction false} Unique(a: Json, b: Json, r: Text, u: Text)
    requires WellFormed(a) && WellFormed(b) && Ends(r) && Ends(u)
    requires Canonicalize(a) + r == Canonicalize(b) + u
    ensures Same(a, b) && r == u
    decreases a, 2, 0
  {
    FirstUnit(a, r);
    FirstUnit(b, u);
    match a
    case Null => DropBoth(NULL_TEXT, NULL_TEXT, r, u);
    case Bool(s) => SameBool(s, b.truth, r, u);
    case Num(n) => NumberUnique(n, b.number, r, u);
    case Str(s) => QuotedUnique(s, b.text, r, u);
    case Arr(_) => UniqueArrays(a, b, r, u);
    case Obj(_) => UniqueObjects(a, b, r, u);
  }

  lemma {:induction false} UniqueArrays(a: Json, b: Json, r: Text, u: Text)
    requires a.Arr? && b.Arr? && WellFormed(a) && WellFormed(b)
    requires Canonicalize(a) + r == Canonicalize(b) + u
    ensures Same(a, b) && r == u
    decreases a, 1, |a.items| + 2
  {
    var close := [CLOSE_BRACKET];
    assert Canonicalize(a) + r == [OPEN_BRACKET] + (Items(a) + (close + r));
    assert Canonicalize(b) + u == [OPEN_BRACKET] + (Items(b) + (close + u));
    DropBoth([OPEN_BRACKET], [OPEN_BRACKET], Items(a) + (close + r), Items(b) + (close + u));
    UniqueItems(a, b, r, u);
  }

  /** An array's text from position i on, with what follows it. */
  function ArrayRest(v: Json, i: nat, r: Text): Text
    requires v.Arr? && i <= |v.items|
  {
    MoreItems(v, i) + ([CLOSE_BRACKET] + r)
  }

  lemma ItemsFirst(v: Json, r: Text)
    requires v.Arr?
    ensures
      var x := Items(v) + ([CLOSE_BRACKET] + r);
      && (x[0] == CLOSE_BRACKET <==> v.items == [])
      && x == if v.items == [] then [CLOSE_BRACKET] + r else Canonicalize(v.items[0]) + ArrayRest(v, 1, r)
  {
    if v.items != [] {
      FirstUnit(v.items[0], MoreItems(v, 1) + ([CLOSE_BRACKET] + r));
    }
  }

  lemma ArrayRestFirst(v: Json, i: nat, r: Text)
    requires v.Arr? && i <= |v.items|
    ensures
      var x := ArrayRest(v, i, r);
      && Ends(x) && (x[0] == CLOSE_BRACKET <==> i == |v.items|)
      && x == if i == |v.items| then [CLOSE_BRACKET] + r
              else [COMMA] + (Canonicalize(v.items[i]) + ArrayRest(v, i + 1, r))
  {
  }

  lemma {:induction false} UniqueItems(a: Json, b: Json, r: Text, u: Text)
    requires a.Arr? && b.Arr? && WellFormed(a) && WellFormed(b)
    requires Items(a) + ([CLOSE_BRACKET] + r) == Items(b) + ([CLOSE_BRACKET] + u)
    ensures Same(a, b) && r == u
    decreases a, 1, |a.items| + 1
  {
    ItemsFirst(a, r);
    ItemsFirst(b, u);
    if a.items == [] {
      DropBoth([CLOSE_BRACKET], [CLOSE_BRACKET], r, u);
    } else {
      ArrayRestFirst(a, 1, r);
      ArrayRestFirst(b, 1, u);
      Unique(a.items[0], b.items[0], ArrayRest(a, 1, r), ArrayRest(b, 1, u));
      UniqueMoreItems(a, b, 1, r, u);
    }
  }

  /** Past the comma: the same item, and the same text after it. */
  lemma {:induction false} UniqueItem(a: Json, b: Json, i: nat, r: Text, u: Text)
    requires a.Arr? && b.Arr? && WellFormed(a) && WellFormed(b) && i < |a.items| && i < |b.items|
    requires ArrayRest(a, i, r) == ArrayRest(b, i, u)
    ensures Same(a.items[i], b.items[i]) && ArrayRest(a, i + 1, r) == ArrayRest(b, i + 1, u)
    decreases a, 0, 0
  {
    ArrayRestFirst(a, i, r);
    ArrayRestFirst(b, i, u);
    var x, y := ArrayRest(a, i + 1, r), ArrayRest(b, i + 1, u);
    DropBoth([COMMA], [COMMA], Canonicalize(a.items[i]) + x, Canonicalize(b.items[i]) + y);
    ArrayRestFirst(a, i + 1, r);
    ArrayRestFirst(b, i + 1, u);
    Unique(a.items[i], b.items[i], x, y);
  }

  lemma {:induction false} UniqueMoreItems(a: Json, b: Json, i: nat, r: Text, u: Text)
    requires a.Arr? && b.Arr? && WellFormed(a) && WellFormed(b) && i <= |a.items| && i <= |b.items|
    requires ArrayRest(a, i, r) == ArrayRest(b, i, u)
    ensures |a.items| == |b.items| && r == u
    ensures forall k | i <= k < |a.items| :: Same(a.items[k], b.items[k])
    decreases a, 1, |a.items| - i
  {
    BothEnd(a, b, i, r, u);
    if i < |a.items| {
      UniqueItem(a, b, i, r, u);
      UniqueMoreItems(a, b, i + 1, r, u);
    }
  }

  lemma BothEnd(a: Json, b: Json, i: nat, r: Text, u: Text)
    requires a.Arr? && b.Arr? && i <= |a.items| && i <= |b.items|
    requires ArrayRest(a, i, r) == ArrayRest(b, i, u)
    ensures i == |a.items| <==> i == |b.items|
    ensures i == |a.items| ==> r == u
  {
    ArrayRestFirst(a, i, r);
    ArrayRestFirst(b, i, u);
    if i == |a.items| {
      DropBoth([CLOSE_BRACKET], [CLOSE_BRACKET], r, u);
    }
  }

  // The same for objects, over the sorted entries.

  lemma SortedEntriesOf(v: Json)
    requires v.Obj? && WellFormed(v)
    ensures EntriesOf(v, Sort(v.entries))
  {
    SortMembers(v.entries);
    var es := Sort(v.entries);
    forall i | 0 <= i < |es| ensures es[i] in v.entries && WellFormed(es[i].value) {
      assert es[i] in v.entries;
    }
  }

  lemma {:induction false} UniqueObjects(a: Json, b: Json, r: Text, u: Text)
    requires a.Obj? && b.Obj? && WellFormed(a) && WellFormed(b)
    requires Canonicalize(a) + r == Canonicalize(b) + u
    ensures Same(a, b) && r == u
    decreases a, 1, |a.entries| + 2
  {
    var es, fs, close := Sort(a.entries), Sort(b.entries), [CLOSE_BRACE];
    SortMembers(a.entries);
    SortMembers(b.entries);
    assert Canonicalize(a) + r == [OPEN_BRACE] + (Entries(a, es) + (close + r));
    assert Canonicalize(b) + u == [OPEN_BRACE] + (Entries(b, fs) + (close + u));
    DropBoth([OPEN_BRACE], [OPEN_BRACE], Entries(a, es) + (close + r), Entries(b, fs) + (close + u));
    SortedEntriesOf(a);
    SortedEntriesOf(b);
    UniqueEntries(a, b, es, fs, r, u);
    SameFromSorted(a, b);
  }

  /** Entries that line up after sorting are the same entries up to order. */
  lemma SameFromSorted(a: Json, b: Json)
    requires a.Obj? && b.Obj? && WellFormed(a) && WellFormed(b)
    requires
      var es, fs := Sort(a.entries), Sort(b.entries);
      |es| == |fs| && forall k | 0 <= k < |es| :: es[k].key == fs[k].key && Same(es[k].value, fs[k].value)
    ensures Same(a, b)
  {
    var es, fs := Sort(a.entries), Sort(b.entries);
    assert Keys(es) == Keys(fs);
    LinedUp(a.entries, b.entries);
    SortMembers(a.entries);
    SortMembers(b.entries);
    SortAscends(a.entries);
    forall i, j | 0 <= i < |a.entries| && 0 <= j < |b.entries| && a.entries[i].key == b.entries[j].key
      ensures Same(a.entries[i].value, b.entries[j].value)
    {
      assert a.entries[i] in es && b.entries[j] in fs;
      var p :| 0 <= p < |es| && es[p] == a.entries[i];
      var q :| 0 <= q < |fs| && fs[q] == b.entries[j];
      Base.LessIrreflexive(es[p].key);
      assert p == q;
    }
  }

  ghost predicate EntriesOf(v: Json, es: seq<Entry>) {
    v.Obj? && forall i | 0 <= i < |es| :: es[i] in v.entries && WellFormed(es[i].value)
  }

  /** An object's text from position i of es on, with what follows it. */
  ghost function ObjectRest(v: Json, es: seq<Entry>, i: nat, r: Text): Text
    requires EntriesOf(v, es) && i <= |es|
  {
    MoreEntries(v, es, i) + ([CLOSE_BRACE] + r)
  }

  lemma EntryFirst(v: Json, e: Entry, r: Text)
    requires v.Obj? && e in v.entries
    ensures EntryText(v, e) + r == Quoted(e.key) + ([COLON] + (Canonicalize(e.value) + r))
    ensures (EntryText(v, e) + r)[0] == QUOTE
  {
  }

  lemma EntriesFirst(v: Json, es: seq<Entry>, r: Text)
    requires EntriesOf(v, es)
    ensures
      var x := Entries(v, es) + ([CLOSE_BRACE] + r);
      && (x[0] == CLOSE_BRACE <==> es == [])
      && x == if es == [] then [CLOSE_BRACE] + r else EntryText(v, es[0]) + ObjectRest(v, es, 1, r)
  {
    if es != [] {
      Base.Associates(EntryText(v, es[0]), MoreEntries(v, es, 1), [CLOSE_BRACE] + r);
      EntryFirst(v, es[0], ObjectRest(v, es, 1, r));
    }
  }

  lemma ObjectRestFirst(v: Json, es: seq<Entry>, i: nat, r: Text)
    requires EntriesOf(v, es) && i <= |es|
    ensures
      var x := ObjectRest(v, es, i, r);
      && Ends(x) && (x[0] == CLOSE_BRACE <==> i == |es|)
      && x == if i == |es| then [CLOSE_BRACE] + r else [COMMA] + (EntryText(v, es[i]) + ObjectRest(v, es, i + 1, r))
  {
  }

  lemma {:induction false} UniqueEntry(a: Json, b: Json, e: Entry, f: Entry, r: Text, u: Text)
    requires a.Obj? && b.Obj? && e in a.entries && f in b.entries && WellFormed(e.value) && WellFormed(f.value)
    requires Ends(r) && Ends(u) && EntryText(a, e) + r == EntryText(b, f) + u
    ensures e.key == f.key && Same(e.value, f.value) && r == u
    decreases a, 0, 0
  {
    EntryFirst(a, e, r);
    EntryFirst(b, f, u);
    var x, y := Canonicalize(e.value) + r, Canonicalize(f.value) + u;
    QuotedUnique(e.key, f.key, [COLON] + x, [COLON] + y);
    DropBoth([COLON], [COLON], x, y);
    Unique(e.value, f.value, r, u);
  }

  lemma {:induction false} UniqueEntries(a: Json, b: Json, es: seq<Entry>, fs: seq<Entry>, r: Text, u: Text)
    requires EntriesOf(a, es) && EntriesOf(b, fs)
    requires Entries(a, es) + ([CLOSE_BRACE] + r) == Entries(b, fs) + ([CLOSE_BRACE] + u)
    ensures |es| == |fs| && r == u
    ensures forall k | 0 <= k < |es| :: es[k].key == fs[k].key && Same(es[k].value, fs[k].value)
    decreases a, 1, |es| + 1
  {
    EntriesFirst(a, es, r);
    EntriesFirst(b, fs, u);
    if es == [] {
      DropBoth([CLOSE_BRACE], [CLOSE_BRACE], r, u);
    } else {
      ObjectRestFirst(a, es, 1, r);
      ObjectRestFirst(b, fs, 1, u);
      UniqueEntry(a, b, es[0], fs[0], ObjectRest(a, es, 1, r), ObjectRest(b, fs, 1, u));
      UniqueMoreEntries(a, b, es, fs, 1, r, u);
    }
  }

  /** Past the comma: the same entry, and the same text after it. */
  lemma {:induction false} UniqueNextEntry(a: Json, b: Json, es: seq<Entry>, fs: seq<Entry>, i: nat, r: Text, u: Text)
    requires EntriesOf(a, es) && EntriesOf(b, fs) && i < |es| && i < |fs|
    requires ObjectRest(a, es, i, r) == ObjectRest(b, fs, i, u)
    ensures es[i].key == fs[i].key && Same(es[i].value, fs[i].value)
    ensures ObjectRest(a, es, i + 1, r) == ObjectRest(b, fs, i + 1, u)
    decreases a, 0, 1
  {
    ObjectRestFirst(a, es, i, r);
    ObjectRestFirst(b, fs, i, u);
    var x, y := ObjectRest(a, es, i + 1, r), ObjectRest(b, fs, i + 1, u);
    DropBoth([COMMA], [COMMA], EntryText(a, es[i]) + x, EntryText(b, fs[i]) + y);
    ObjectRestFirst(a, es, i + 1, r);
    ObjectRestFirst(b, fs, i + 1, u);
    UniqueEntry(a, b, es[i], fs[i], x, y);
  }

  lemma BothObjectsEnd(a: Json, b: Json, es: seq<Entry>, fs: seq<Entry>, i: nat, r: Text, u: Text)
    requires EntriesOf(a, es) && EntriesOf(b, fs) && i <= |es| && i <= |fs|
    requires ObjectRest(a, es, i, r) == ObjectRest(b, fs, i, u)
    ensures i == |es| <==> i == |fs|
    ensures i == |es| ==> r == u
  {
    ObjectRestFirst(a, es, i, r);
    ObjectRestFirst(b, fs, i, u);
    if i == |es| {
      DropBoth([CLOSE_BRACE], [CLOSE_BRACE], r, u);
    }
  }

  lemma {:induction false} UniqueMoreEntries(a: Json, b: Json, es: seq<Entry>, fs: seq<Entry>, i: nat, r: Text, u: Text)
    requires EntriesOf(a, es) && EntriesOf(b, fs) && i <= |es| && i <= |fs|
    requires ObjectRest(a, es, i, r) == ObjectRest(b, fs, i, u)
    ensures |es| == |fs| && r == u
    ensures forall k | i <= k < |es| :: es[k].key == fs[k].key && Same(es[k].value, fs[k].value)
    decreases a, 1, |es| - i
  {
    BothObjectsEnd(a, b, es, fs, i, r, u);
    if i < |es| {
      UniqueNextEntry(a, b, es, fs, i, r, u);
      UniqueMoreEntries(a, b, es, fs, i + 1, r, u);
    }
  }

  // ---------------------------------------------------------------------
  // The order of object keys never shows
  // ---------------------------------------------------------------------

  lemma {:induction false} Invariant(a: Json, b: Json)
    requires WellFormed(a) && WellFormed(b) && Same(a, b)
    ensures Canonicalize(a) == Canonicalize(b)
    decreases a, 2, 0
  {
    match a
    case Arr(_) =>
      if a.items != [] {
        Invariant(a.items[0], b.items[0]);
        InvariantItems(a, b, 1);
      }
    case Obj(_) =>
      InvariantObjects(a, b);
    case _ =>
  }

  lemma {:induction false} InvariantItems(a: Json, b: Json, i: nat)
    requires a.Arr? && b.Arr? && WellFormed(a) && WellFormed(b) && Same(a, b) && i <= |a.items|
    ensures MoreItems(a, i) == MoreItems(b, i)
    decreases a, 1, |a.items| - i
  {
    if i < |a.items| {
      Invariant(a.items[i], b.items[i]);
      InvariantItems(a, b, i + 1);
    }
  }

  lemma SortedFromSame(a: Json, b: Json)
    requires a.Obj? && b.Obj? && WellFormed(a) && WellFormed(b) && Same(a, b)
    ensures
      var es, fs := Sort(a.entries), Sort(b.entries);
      && |es| == |fs|
      && (forall k | 0 <= k < |es| :: es[k] in a.entries && fs[k] in b.entries)
      && (forall k | 0 <= k < |es| :: es[k].key == fs[k].key && Same(es[k].value, fs[k].value))
  {
    var es, fs := Sort(a.entries), Sort(b.entries);
    LinedUp(a.entries, b.entries);
    SortMembers(a.entries);
    SortMembers(b.entries);
    assert |Keys(es)| == |Keys(fs)|;
    forall k | 0 <= k < |es| ensures es[k].key == fs[k].key && Same(es[k].value, fs[k].value) {
      assert Keys(es)[k] == Keys(fs)[k];
      assert es[k] in a.entries && fs[k] in b.entries;
      var i :| 0 <= i < |a.entries| && a.entries[i] == es[k];
      var j :| 0 <= j < |b.entries| && b.entries[j] == fs[k];
    }
  }

  lemma {:induction false} InvariantObjects(a: Json, b: Json)
    requires a.Obj? && b.Obj? && WellFormed(a) && WellFormed(b) && Same(a, b)
    ensures Canonicalize(a) == Canonicalize(b)
    decreases a, 1, |a.entries| + 1
  {
    var es, fs := Sort(a.entries), Sort(b.entries);
    SortedFromSame(a, b);
    SortMembers(a.entries);
    SortMembers(b.entries);
    if es != [] {
      InvariantEntry(a, b, es[0], fs[0]);
      InvariantEntries(a, b, es, fs, 1);
    }
  }

  lemma {:induction false} InvariantEntry(a: Json, b: Json, e: Entry, f: Entry)
    requires a.Obj? && b.Obj? && WellFormed(a) && WellFormed(b) && e in a.entries && f in b.entries
    requires e.key == f.key && Same(e.value, f.value)
    ensures EntryText(a, e) == EntryText(b, f)
    decreases a, 0, 0
  {
    Invariant(e.value, f.value);
  }

  lemma {:induction false} InvariantEntries(a: Json, b: Json, es: seq<Entry>, fs: seq<Entry>, i: nat)
    requires a.Obj? && b.Obj? && WellFormed(a) && WellFormed(b) && i <= |es| == |fs|
    requires forall k | 0 <= k < |es| :: es[k] in a.entries && fs[k] in b.entries
    requires forall k | 0 <= k < |es| :: es[k].key == fs[k].key && Same(es[k].value, fs[k].value)
    ensures MoreEntries(a, es, i) == MoreEntries(b, fs, i)
    decreases a, 1, |es| - i
  {
    if i < |es| {
      InvariantEntry(a, b, es[i], fs[i]);
      InvariantEntries(a, b, es, fs, i + 1);
    }
  }

  /** The canonical form is a normal form: equal texts exactly for values equal up to key order. */
  lemma NormalForm(a: Json, b: Json)
    requires WellFormed(a) && WellFormed(b)
    ensures Canonicalize(a) == Canonicalize(b) <==> Same(a, b)
  {
    if Canonicalize(a) == Canonicalize(b) {
      assert Canonicalize(a) + [] == Canonicalize(b) + [];
      Unique(a, b, [], []);
    }
    if Same(a, b) {
      Invariant(a, b);
    }
  }

  /** Any ascending arrangement of the entries is the one the sort produced. */
  lemma AnySort(es: seq<Entry>, sorted: seq<Entry>)
    requires DistinctKeys(es) && Ascending(sorted) && multiset(sorted) == multiset(es)
    ensures sorted == Sort(es)
  {
    SortAscends(es);
    SortKeeps(es);
    var other := Sort(es);
    forall k ensures k in Keys(sorted) <==> k in Keys(other) {
      SameMembers(sorted, other, k);
      SameMembers(other, sorted, k);
    }
    AscendingUnique(Keys(sorted), Keys(other));
    assert |sorted| == |other|;
    forall i | 0 <= i < |sorted| ensures sorted[i] == other[i] {
      assert sorted[i] in multiset(other);
      var j :| 0 <= j < |other| && other[j] == sorted[i];
      assert Keys(sorted)[i] == Keys(other)[i];
      Base.LessIrreflexive(other[i].key);
      assert i == j;
    }
  }

  lemma SameMembers(es: seq<Entry>, fs: seq<Entry>, k: Text)
    requires multiset(es) == multiset(fs)
    ensures k in Keys(es) ==> k in Keys(fs)
  {
    if k in Keys(es) {
      var i :| 0 <= i < |es| && Keys(es)[i] == k;
      assert es[i] in multiset(fs);
      var j :| 0 <= j < |fs| && fs[j] == es[i];
      assert Keys(fs)[j] == k;
    }
  }
}
