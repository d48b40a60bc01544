/**
 Canonical JSON text: `canonicalValue` reorders the keys of every object and
 `JSON.stringify(value, null, 2)` prints the result, followed by a line feed.

 The module proves that two values print to the same text exactly when they are
 equal up to the order of object keys at every depth.
 */
module CanonicalJson {
  import opened Wrappers
  import opened Texts
  import opened Sorting

  /** The spelling the runtime gives a finite number; it determines the number. */
  type NumberToken = t: Text | IsNumberToken(t) witness [0x30]

  predicate IsNumberUnit(u: CodeUnit) {
    IsDigit(u) || u in [0x2B, 0x2D, 0x2E, 0x65]
  }

  predicate IsNumberToken(t: Text) {
    t != [] && (IsDigit(t[0]) || t[0] == 0x2D) && forall i :: 0 <= i < |t| ==> IsNumberUnit(t[i])
  }

  /** A JSON-compatible value. An object is its own entries in their current order. */
  datatype Json =
    | Null
    | Bool(b: bool)
    | Num(token: NumberToken)
    | Str(text: Text)
    | Arr(items: seq<Json>)
    | Obj(entries: seq<Entry>)

  datatype Entry = Entry(key: Text, value: Json)

  predicate DistinctKeys(entries: seq<Entry>) {
    forall i, j :: 0 <= i < j < |entries| ==> entries[i].key != entries[j].key
  }

  /** No object holds one key twice. */
  predicate WellFormed(v: Json) {
    match v
    case Arr(items) => forall i :: 0 <= i < |items| ==> WellFormed(items[i])
    case Obj(entries) => DistinctKeys(entries) && forall i :: 0 <= i < |entries| ==> WellFormed(entries[i].value)
    case _ => true
  }

  predicate HasKey(entries: seq<Entry>, key: Text) {
    exists i :: 0 <= i < |entries| && entries[i].key == key
  }

  /** Equal up to the order of object keys, at every depth. */
  predicate Same(v: Json, w: Json) {
    match (v, w)
    case (Arr(xs), Arr(ys)) =>
      |xs| == |ys| && forall i :: 0 <= i < |xs| ==> Same(xs[i], ys[i])
    case (Obj(es), Obj(fs)) =>
      && (forall i :: 0 <= i < |es| ==> HasKey(fs, es[i].key))
      && (forall j :: 0 <= j < |fs| ==> HasKey(es, fs[j].key))
      && (forall i, j :: 0 <= i < |es| && 0 <= j < |fs| && es[i].key == fs[j].key ==>
            Same(es[i].value, fs[j].value))
    case _ => v == w
  }

  // ---------------------------------------------------------------- canonicalValue

  /** Keys that the runtime keeps first, in numeric order, whatever the insertion order. */
  predicate IsArrayIndex(key: Text) {
    && key != []
    && (forall i :: 0 <= i < |key| ==> IsDigit(key[i]))
    && (|key| > 1 ==> key[0] != 0x30)
    && (|key| < 10 || (|key| == 10 && !Before(Ascii("4294967294"), key)))
  }

  predicate IndexBefore(a: Entry, b: Entry) {
    |a.key| < |b.key| || (|a.key| == |b.key| && Before(a.key, b.key))
  }

  function KeyOrder(): (Entry, Entry) -> bool {
    (a: Entry, b: Entry) => Before(a.key, b.key)
  }

  function IndexOrder(): (Entry, Entry) -> bool {
    (a: Entry, b: Entry) => IndexBefore(a, b)
  }

  function Pick(entries: seq<Entry>, index: bool): seq<Entry> {
    if entries == [] then []
    else (if IsArrayIndex(entries[0].key) == index then [entries[0]] else []) + Pick(entries[1..], index)
  }

  /** `Object.fromEntries`: array-index keys first and ascending, the others as inserted. */
  function FromEntries(entries: seq<Entry>): seq<Entry> {
    Sort(Pick(entries, true), IndexOrder()) + Pick(entries, false)
  }

  /**
   Sorting looks at keys only, so the values may be made canonical before the sort
   as well as after it.
   */
  function Canonical(v: Json): Json
    decreases v, 1
  {
    match v
    case Arr(items) => Arr(CanonicalItems(items))
    case Obj(entries) => Obj(FromEntries(Sort(CanonicalEntries(entries), KeyOrder())))
    case _ => v
  }

  function CanonicalItems(items: seq<Json>): (r: seq<Json>)
    ensures |r| == |items|
    ensures forall i :: 0 <= i < |items| ==> r[i] == Canonical(items[i])
    decreases items, 0
  {
    if items == [] then [] else [Canonical(items[0])] + CanonicalItems(items[1..])
  }

  function CanonicalEntries(entries: seq<Entry>): (r: seq<Entry>)
    ensures |r| == |entries|
    ensures forall i :: 0 <= i < |entries| ==> r[i].key == entries[i].key && r[i].value == Canonical(entries[i].value)
    decreases entries, 0
  {
    if entries == [] then []
    else [Entry(entries[0].key, Canonical(entries[0].value))] + CanonicalEntries(entries[1..])
  }

  // ---------------------------------------------------------------- JSON.stringify

  const QUOTE: CodeUnit := 0x22
  const BACKSLASH: CodeUnit := 0x5C

  predicate IsHigh(u: CodeUnit) { 0xD800 <= u <= 0xDBFF }

  predicate IsLow(u: CodeUnit) { 0xDC00 <= u <= 0xDFFF }

  predicate StartsPair(s: Text) {
    |s| >= 2 && IsHigh(s[0]) && IsLow(s[1])
  }

  function HexDigit(d: int): CodeUnit
    requires 0 <= d < 16
  {
    if d < 10 then 0x30 + d else 0x57 + d
  }

  function UnicodeEscape(u: CodeUnit): Text {
    [BACKSLASH, 0x75, HexDigit(u / 0x1000), HexDigit(u / 0x100 % 0x10), HexDigit(u / 0x10 % 0x10), HexDigit(u % 0x10)]
  }

  /** How the first character of `s` is written inside a string literal (RFC 8259, section 7). */
  function Piece(s: Text): Text
    requires s != []
  {
    var u := s[0];
    if u == QUOTE || u == BACKSLASH then [BACKSLASH, u]
    else if u == 0x08 then [BACKSLASH, 0x62]
    else if u == 0x09 then [BACKSLASH, 0x74]
    else if u == 0x0A then [BACKSLASH, 0x6E]
    else if u == 0x0C then [BACKSLASH, 0x66]
    else if u == 0x0D then [BACKSLASH, 0x72]
    else if u < 0x20 then UnicodeEscape(u)
    else if StartsPair(s) then s[..2]
    else if IsHigh(u) || IsLow(u) then UnicodeEscape(u)
    else [u]
  }

  function Taken(s: Text): (r: nat)
    requires s != []
    ensures r <= |s|
  {
    if StartsPair(s) then 2 else 1
  }

  function Escape(s: Text): Text {
    if s == [] then [] else Piece(s) + Escape(s[Taken(s)..])
  }

  function Quote(s: Text): Text {
    [QUOTE] + Escape(s) + [QUOTE]
  }

  function Break(depth: nat): Text {
    [0x0A] + seq(2 * depth, _ => 0x20)
  }

  function Print(v: Json, depth: nat): Text
    decreases v, 2
  {
    match v
    case Null => Ascii("null")
    case Bool(b) => if b then Ascii("true") else Ascii("false")
    case Num(token) => token
    case Str(text) => Quote(text)
    case Arr(items) => if items == [] then Ascii("[]") else [0x5B] + PrintItems(items, depth)
    case Obj(entries) => if entries == [] then Ascii("{}") else [0x7B] + PrintEntries(entries, depth)
  }

  function PrintItems(items: seq<Json>, depth: nat): Text
    requires items != []
    decreases items, 0
  {
    Break(depth + 1) + Print(items[0], depth + 1) + MoreItems(items[1..], depth)
  }

  function MoreItems(items: seq<Json>, depth: nat): Text
    decreases items, 1
  {
    if items == [] then Break(depth) + [0x5D] else [0x2C] + PrintItems(items, depth)
  }

  function PrintEntry(entry: Entry, depth: nat): Text
    decreases entry, 0
  {
    Quote(entry.key) + [0x3A, 0x20] + Print(entry.value, depth + 1)
  }

  function PrintEntries(entries: seq<Entry>, depth: nat): Text
    requires entries != []
    decreases entries, 0
  {
    Break(depth + 1) + PrintEntry(entries[0], depth) + MoreEntries(entries[1..], depth)
  }

  function MoreEntries(entries: seq<Entry>, depth: nat): Text
    decreases entries, 1
  {
    if entries == [] then Break(depth) + [0x7D] else [0x2C] + PrintEntries(entries, depth)
  }

  /** `stringifyCanonical`. */
  function CanonicalText(v: Json): Text {
    Print(Canonical(v), 0) + [0x0A]
  }

  // ------------------------------------------------- the printed text decodes uniquely

  lemma Strip(p: Text, x: Text, y: Text)
    requires p + x == p + y
    ensures x == y
  {
    assert x == (p + x)[|p|..] && y == (p + y)[|p|..];
  }

  lemma Assoc2(a: Text, b: Text, x: Text)
    ensures a + b + x == a + (b + x)
  {}

  lemma Assoc(a: Text, b: Text, c: Text, x: Text)
    ensures a + b + c + x == a + (b + c + x)
    ensures a + b + c + x == a + (b + (c + x))
  {}

  /** What a JSON reader makes of a hexadecimal digit. */
  function HexValue(u: CodeUnit): Option<nat> {
    if IsDigit(u) then Some(u - 0x30)
    else if 0x61 <= u <= 0x66 then Some(u - 0x57)
    else if 0x41 <= u <= 0x46 then Some(u - 0x37)
    else None
  }

  /** The character a two-character escape stands for (RFC 8259, section 7). */
  function ShortEscape(u: CodeUnit): Option<CodeUnit> {
    if u == QUOTE || u == BACKSLASH || u == 0x2F then Some(u)
    else if u == 0x62 then Some(0x08)
    else if u == 0x66 then Some(0x0C)
    else if u == 0x6E then Some(0x0A)
    else if u == 0x72 then Some(0x0D)
    else if u == 0x74 then Some(0x09)
    else None
  }

  function LongEscape(t: Text): Option<CodeUnit>
    requires |t| >= 4
  {
    var a, b, c, d := HexValue(t[0]), HexValue(t[1]), HexValue(t[2]), HexValue(t[3]);
    if a.Some? && b.Some? && c.Some? && d.Some?
    then Some(0x1000 * a.value + 0x100 * b.value + 0x10 * c.value + d.value)
    else None
  }

  function Prepend(u: CodeUnit, r: Option<(Text, Text)>): Option<(Text, Text)> {
    if r.Some? then Some(([u] + r.value.0, r.value.1)) else None
  }

  /** A reader for string bodies as RFC 8259 section 7 defines them: the string and the text after its closing quote. */
  function ReadString(t: Text): Option<(Text, Text)>
    decreases |t|
  {
    if t == [] then None
    else if t[0] == QUOTE then Some(([], t[1..]))
    else if t[0] == BACKSLASH then
      if |t| >= 6 && t[1] == 0x75 && LongEscape(t[2..6]).Some? then Prepend(LongEscape(t[2..6]).value, ReadString(t[6..]))
      else if |t| >= 2 && ShortEscape(t[1]).Some? then Prepend(ShortEscape(t[1]).value, ReadString(t[2..]))
      else None
    else if t[0] < 0x20 then None
    else Prepend(t[0], ReadString(t[1..]))
  }

  lemma HexReads(d: int)
    requires 0 <= d < 16
    ensures HexValue(HexDigit(d)) == Some(d)
  {}

  lemma HexParts(u: CodeUnit)
    ensures u == 0x1000 * (u / 0x1000) + 0x100 * (u / 0x100 % 0x10) + 0x10 * (u / 0x10 % 0x10) + u % 0x10
  {
    var a, b := u / 0x10, u / 0x100;
    assert u == 0x10 * a + u % 0x10;
    assert b == a / 0x10 && a == 0x10 * b + a % 0x10;
    assert u / 0x1000 == b / 0x10 && b == 0x10 * (b / 0x10) + b % 0x10;
  }

  lemma LongEscapeReads(u: CodeUnit)
    ensures LongEscape(UnicodeEscape(u)[2..6]) == Some(u)
  {
    HexReads(u / 0x1000);
    HexReads(u / 0x100 % 0x10);
    HexReads(u / 0x10 % 0x10);
    HexReads(u % 0x10);
    HexParts(u);
  }

  lemma PairReads(s: Text, x: Text)
    requires StartsPair(s)
    ensures var r := ReadString(x);
      ReadString(s[..2] + x) == if r.Some? then Some((s[..2] + r.value.0, r.value.1)) else None
  {
    var t := s[..2] + x;
    assert t[1..][0] == s[1] && t[1..][1..] == x;
    var r := ReadString(x);
    if r.Some? { assert [s[0]] + ([s[1]] + r.value.0) == s[..2] + r.value.0; }
  }

  lemma PieceReads(s: Text, x: Text)
    requires s != []
    ensures var r := ReadString(x);
      ReadString(Piece(s) + x) == if r.Some? then Some((s[..Taken(s)] + r.value.0, r.value.1)) else None
  {
    var p := Piece(s);
    var t := p + x;
    assert t[0] == p[0] && t[|p|..] == x;
    if Taken(s) == 2 {
      PairReads(s, x);
    } else {
      assert s[..1] == [s[0]];
      assert |p| > 1 ==> t[1] == p[1];
      if |p| == 6 {
        LongEscapeReads(s[0]);
        assert t[2..6] == p[2..6];
      }
    }
  }

  /** String escaping is exact: an RFC 8259 reader gets the string back, lone surrogates included. */
  lemma {:induction false} EscapeReads(s: Text, x: Text)
    ensures ReadString(Escape(s) + [QUOTE] + x) == Some((s, x))
  {
    if s == [] {
      assert Escape(s) + [QUOTE] + x == [QUOTE] + x;
    } else {
      var s' := s[Taken(s)..];
      EscapeReads(s', x);
      Assoc(Piece(s), Escape(s'), [QUOTE], x);
      PieceReads(s, Escape(s') + [QUOTE] + x);
      assert s == s[..Taken(s)] + s';
    }
  }

  lemma QuoteDecodes(s: Text, t: Text, x: Text, y: Text)
    requires Quote(s) + x == Quote(t) + y
    ensures s == t && x == y
  {
    Assoc([QUOTE], Escape(s), [QUOTE], x);
    Assoc([QUOTE], Escape(t), [QUOTE], y);
    Strip([QUOTE], Escape(s) + [QUOTE] + x, Escape(t) + [QUOTE] + y);
    EscapeReads(s, x);
    EscapeReads(t, y);
  }

  /** What may follow a printed value. */
  predicate Ends(x: Text) {
    x == [] || !IsNumberUnit(x[0])
  }

  lemma {:induction false} NumberDecodes(t: Text, u: Text, x: Text, y: Text)
    requires forall i :: 0 <= i < |t| ==> IsNumberUnit(t[i])
    requires forall i :: 0 <= i < |u| ==> IsNumberUnit(u[i])
    requires Ends(x) && Ends(y) && t + x == u + y
    ensures t == u && x == y
  {
    if t == [] || u == [] {
      assert t + x == x || u + y == y;
      assert t == [] && u == [] ==> x == t + x && y == u + y;
    } else {
      assert (t + x)[1..] == t[1..] + x && (u + y)[1..] == u[1..] + y;
      NumberDecodes(t[1..], u[1..], x, y);
      assert t[0] == (t + x)[0] == (u + y)[0] == u[0];
      assert t == [t[0]] + t[1..] && u == [u[0]] + u[1..];
    }
  }

  /** The first unit tells which kind of value was printed. */
  lemma PrintHead(v: Json, depth: nat, x: Text)
    ensures |Print(v, depth)| > 0
    ensures var h := (Print(v, depth) + x)[0];
      match v
      case Null => h == 0x6E
      case Bool(b) => h == (if b then 0x74 else 0x66)
      case Num(token) => h == token[0]
      case Str(_) => h == QUOTE
      case Arr(_) => h == 0x5B
      case Obj(_) => h == 0x7B
  {
    match v
    case Arr(items) => if items == [] { assert Print(v, depth)[0] == Ascii("[]")[0]; }
    case Obj(entries) => if entries == [] { assert Print(v, depth)[0] == Ascii("{}")[0]; }
    case _ =>
  }

  /** The unit after an opening bracket tells an empty list from another. */
  lemma SecondUnit(v: Json, depth: nat, x: Text)
    requires v.Arr? || v.Obj?
    ensures |Print(v, depth)| > 1
    ensures ((Print(v, depth) + x)[1] == 0x0A) == if v.Arr? then v.items != [] else v.entries != []
  {
    if v.Arr? && v.items == [] {
      assert Print(v, depth)[1] == Ascii("[]")[1];
    } else if v.Arr? {
      assert Print(v, depth)[1] == PrintItems(v.items, depth)[0] == Break(depth + 1)[0];
    } else if v.entries == [] {
      assert Print(v, depth)[1] == Ascii("{}")[1];
    } else {
      assert Print(v, depth)[1] == PrintEntries(v.entries, depth)[0] == Break(depth + 1)[0];
    }
  }

  lemma MoreItemsHead(items: seq<Json>, depth: nat, x: Text)
    ensures Ends(MoreItems(items, depth) + x)
    ensures (MoreItems(items, depth) + x)[0] == if items == [] then 0x0A else 0x2C
  {}

  lemma MoreEntriesHead(entries: seq<Entry>, depth: nat, x: Text)
    ensures Ends(MoreEntries(entries, depth) + x)
    ensures (MoreEntries(entries, depth) + x)[0] == if entries == [] then 0x0A else 0x2C
  {}

  /** Nothing shorter or longer prints to the same text: the printer is injective, even inside a longer text. */
  lemma {:induction false} PrintDecodes(v: Json, w: Json, depth: nat, x: Text, y: Text)
    requires Ends(x) && Ends(y)
    requires Print(v, depth) + x == Print(w, depth) + y
    ensures v == w && x == y
    decreases v, 2
  {
    PrintHead(v, depth, x);
    PrintHead(w, depth, y);
    match v
    case Num(t) => NumberDecodes(t, w.token, x, y);
    case Str(s) => QuoteDecodes(s, w.text, x, y);
    case Arr(xs) =>
      SecondUnit(v, depth, x);
      SecondUnit(w, depth, y);
      if xs == [] { Strip(Print(v, depth), x, y); } else { ArrayDecodes(xs, w.items, depth, x, y); }
    case Obj(es) =>
      SecondUnit(v, depth, x);
      SecondUnit(w, depth, y);
      if es == [] { Strip(Print(v, depth), x, y); } else { ObjectDecodes(es, w.entries, depth, x, y); }
    case _ =>
      assert v == w;
      Strip(Print(v, depth), x, y);
  }

  lemma {:induction false} ArrayDecodes(xs: seq<Json>, ys: seq<Json>, depth: nat, x: Text, y: Text)
    requires xs != [] && ys != []
    requires [0x5B] + PrintItems(xs, depth) + x == [0x5B] + PrintItems(ys, depth) + y
    ensures xs == ys && x == y
    decreases xs, 1
  {
    Assoc2([0x5B], PrintItems(xs, depth), x);
    Assoc2([0x5B], PrintItems(ys, depth), y);
    Strip([0x5B], PrintItems(xs, depth) + x, PrintItems(ys, depth) + y);
    ItemsDecode(xs, ys, depth, x, y);
  }

  lemma {:induction false} ObjectDecodes(es: seq<Entry>, fs: seq<Entry>, depth: nat, x: Text, y: Text)
    requires es != [] && fs != []
    requires [0x7B] + PrintEntries(es, depth) + x == [0x7B] + PrintEntries(fs, depth) + y
    ensures es == fs && x == y
    decreases es, 1
  {
    Assoc2([0x7B], PrintEntries(es, depth), x);
    Assoc2([0x7B], PrintEntries(fs, depth), y);
    Strip([0x7B], PrintEntries(es, depth) + x, PrintEntries(fs, depth) + y);
    EntriesDecode(es, fs, depth, x, y);
  }

  lemma {:induction false} ItemsDecode(xs: seq<Json>, ys: seq<Json>, depth: nat, x: Text, y: Text)
    requires xs != [] && ys != []
    requires PrintItems(xs, depth) + x == PrintItems(ys, depth) + y
    ensures xs == ys && x == y
    decreases xs, 0
  {
    var line, x', y' := Break(depth + 1), MoreItems(xs[1..], depth) + x, MoreItems(ys[1..], depth) + y;
    Assoc(line, Print(xs[0], depth + 1), MoreItems(xs[1..], depth), x);
    Assoc(line, Print(ys[0], depth + 1), MoreItems(ys[1..], depth), y);
    Strip(line, Print(xs[0], depth + 1) + x', Print(ys[0], depth + 1) + y');
    MoreItemsHead(xs[1..], depth, x);
    MoreItemsHead(ys[1..], depth, y);
    PrintDecodes(xs[0], ys[0], depth + 1, x', y');
    assert xs == [xs[0]] + xs[1..] && ys == [ys[0]] + ys[1..];
    if |xs| == 1 {
      Strip(Break(depth) + [0x5D], x, y);
    } else {
      var xt, yt := PrintItems(xs[1..], depth), PrintItems(ys[1..], depth);
      Assoc2([0x2C], xt, x);
      Assoc2([0x2C], yt, y);
      Strip([0x2C], xt + x, yt + y);
      ItemsDecode(xs[1..], ys[1..], depth, x, y);
    }
  }

  lemma {:induction false} EntriesDecode(es: seq<Entry>, fs: seq<Entry>, depth: nat, x: Text, y: Text)
    requires es != [] && fs != []
    requires PrintEntries(es, depth) + x == PrintEntries(fs, depth) + y
    ensures es == fs && x == y
    decreases es, 0
  {
    var line, x', y' := Break(depth + 1), MoreEntries(es[1..], depth) + x, MoreEntries(fs[1..], depth) + y;
    Assoc(line, PrintEntry(es[0], depth), MoreEntries(es[1..], depth), x);
    Assoc(line, PrintEntry(fs[0], depth), MoreEntries(fs[1..], depth), y);
    Strip(line, PrintEntry(es[0], depth) + x', PrintEntry(fs[0], depth) + y');
    MoreEntriesHead(es[1..], depth, x);
    MoreEntriesHead(fs[1..], depth, y);
    EntryDecodes(es[0], fs[0], depth, x', y');
    assert es == [es[0]] + es[1..] && fs == [fs[0]] + fs[1..];
    if |es| == 1 {
      Strip(Break(depth) + [0x7D], x, y);
    } else {
      var et, ft := PrintEntries(es[1..], depth), PrintEntries(fs[1..], depth);
      Assoc2([0x2C], et, x);
      Assoc2([0x2C], ft, y);
      Strip([0x2C], et + x, ft + y);
      EntriesDecode(es[1..], fs[1..], depth, x, y);
    }
  }

  lemma {:induction false} EntryDecodes(e: Entry, f: Entry, depth: nat, x: Text, y: Text)
    requires Ends(x) && Ends(y)
    requires PrintEntry(e, depth) + x == PrintEntry(f, depth) + y
    ensures e == f && x == y
    decreases e, 0
  {
    var colon := [0x3A, 0x20];
    var x', y' := Print(e.value, depth + 1) + x, Print(f.value, depth + 1) + y;
    Assoc(Quote(e.key), colon, Print(e.value, depth + 1), x);
    Assoc(Quote(f.key), colon, Print(f.value, depth + 1), y);
    QuoteDecodes(e.key, f.key, colon + x', colon + y');
    Strip(colon, x', y');
    PrintDecodes(e.value, f.value, depth + 1, x, y);
  }

  // ------------------------------------------- canonical values agree with `Same`

  ghost predicate Ascending(entries: seq<Entry>) {
    forall i, j :: 0 <= i < j < |entries| ==> Before(entries[i].key, entries[j].key)
  }

  lemma MembersOf<T>(xs: seq<T>, ys: seq<T>)
    requires multiset(xs) == multiset(ys)
    ensures forall x :: x in xs <==> x in ys
  {
    forall x ensures x in xs <==> x in ys {
      assert x in xs <==> x in multiset(xs);
      assert x in ys <==> x in multiset(ys);
    }
  }

  lemma {:induction false} InsertAscends(x: Entry, xs: seq<Entry>)
    requires Ascending(xs) && forall i :: 0 <= i < |xs| ==> xs[i].key != x.key
    ensures Ascending(Insert(x, xs, KeyOrder()))
  {
    var r := Insert(x, xs, KeyOrder());
    if xs == [] {
    } else if !Before(xs[0].key, x.key) {
      BeforeTotal(x.key, xs[0].key);
      forall j | 0 < j < |r| ensures Before(r[0].key, r[j].key) {
        if j > 1 { BeforeTransitive(x.key, xs[0].key, xs[j - 1].key); }
      }
    } else {
      InsertAscends(x, xs[1..]);
      InsertPermutes(x, xs[1..], KeyOrder());
      forall j | 0 < j < |r| ensures Before(r[0].key, r[j].key) {
        assert r[j] in multiset(r[1..]);
        assert r[j] == x || r[j] in xs[1..];
      }
    }
  }

  lemma {:induction false} SortAscends(entries: seq<Entry>)
    requires DistinctKeys(entries)
    ensures Ascending(Sort(entries, KeyOrder()))
    ensures forall e :: e in Sort(entries, KeyOrder()) <==> e in entries
  {
    SortPermutes(entries, KeyOrder());
    MembersOf(Sort(entries, KeyOrder()), entries);
    if entries != [] {
      var rest := Sort(entries[1..], KeyOrder());
      SortAscends(entries[1..]);
      assert forall i :: 0 <= i < |rest| ==> rest[i] in entries[1..];
      InsertAscends(entries[0], rest);
    }
  }

  /** Entries in strictly ascending key order are determined by which entries they are. */
  lemma {:induction false} AscendingUnique(xs: seq<Entry>, ys: seq<Entry>)
    requires Ascending(xs) && Ascending(ys)
    requires forall e :: e in xs <==> e in ys
    ensures xs == ys
  {
    assert ys != [] ==> ys[0] in ys;
    if xs != [] {
      assert xs[0] in xs;
      var i :| 0 <= i < |ys| && ys[i] == xs[0];
      assert ys[0] in ys;
      var j :| 0 <= j < |xs| && xs[j] == ys[0];
      if i > 0 {
        assert Before(ys[0].key, ys[i].key);
        if j > 0 { assert Before(xs[0].key, xs[j].key); BeforeTransitive(xs[0].key, ys[0].key, xs[0].key); }
        BeforeIrreflexive(xs[0].key);
      }
      TailMembers(xs, ys);
      AscendingUnique(xs[1..], ys[1..]);
      assert xs == [xs[0]] + xs[1..] && ys == [ys[0]] + ys[1..];
    }
  }

  lemma TailMembers(xs: seq<Entry>, ys: seq<Entry>)
    requires Ascending(xs) && Ascending(ys) && xs != [] && ys != [] && xs[0] == ys[0]
    requires forall e :: e in xs <==> e in ys
    ensures forall e :: e in xs[1..] <==> e in ys[1..]
  {
    BeforeIrreflexive(xs[0].key);
    assert xs[0] !in xs[1..] && ys[0] !in ys[1..];
    forall e ensures e in xs[1..] <==> e in ys[1..] {
      assert e in xs <==> e == xs[0] || e in xs[1..];
      assert e in ys <==> e == ys[0] || e in ys[1..];
    }
  }

  lemma {:induction false} PickSplits(entries: seq<Entry>)
    ensures multiset(Pick(entries, true)) + multiset(Pick(entries, false)) == multiset(entries)
  {
    if entries != [] {
      PickSplits(entries[1..]);
      assert entries == [entries[0]] + entries[1..];
    }
  }

  lemma FromEntriesPermutes(entries: seq<Entry>)
    ensures multiset(FromEntries(entries)) == multiset(entries)
  {
    PickSplits(entries);
    SortPermutes(Pick(entries, true), IndexOrder());
  }

  lemma {:induction false} SameGivesCanonical(v: Json, w: Json)
    requires WellFormed(v) && WellFormed(w) && Same(v, w)
    ensures Canonical(v) == Canonical(w)
    decreases v
  {
    match v
    case Arr(xs) =>
      forall i | 0 <= i < |xs| ensures Canonical(xs[i]) == Canonical(w.items[i]) {
        SameGivesCanonical(xs[i], w.items[i]);
      }
      assert CanonicalItems(xs) == CanonicalItems(w.items);
    case Obj(es) =>
      forall i, j | 0 <= i < |es| && 0 <= j < |w.entries| && es[i].key == w.entries[j].key
        ensures Canonical(es[i].value) == Canonical(w.entries[j].value)
      {
        SameGivesCanonical(es[i].value, w.entries[j].value);
      }
      EntriesAgree(es, w.entries);
    case _ =>
  }

  lemma EntriesAgree(es: seq<Entry>, fs: seq<Entry>)
    requires DistinctKeys(es) && DistinctKeys(fs)
    requires forall i :: 0 <= i < |es| ==> HasKey(fs, es[i].key)
    requires forall j :: 0 <= j < |fs| ==> HasKey(es, fs[j].key)
    requires forall i, j :: 0 <= i < |es| && 0 <= j < |fs| && es[i].key == fs[j].key ==>
               Canonical(es[i].value) == Canonical(fs[j].value)
    ensures Sort(CanonicalEntries(es), KeyOrder()) == Sort(CanonicalEntries(fs), KeyOrder())
  {
    var a, b := CanonicalEntries(es), CanonicalEntries(fs);
    forall i | 0 <= i < |a| ensures a[i] in b { assert HasKey(fs, es[i].key); }
    forall j | 0 <= j < |b| ensures b[j] in a { assert HasKey(es, fs[j].key); }
    SortAscends(a);
    SortAscends(b);
    AscendingUnique(Sort(a, KeyOrder()), Sort(b, KeyOrder()));
  }

  lemma {:induction false} CanonicalGivesSame(v: Json, w: Json)
    requires WellFormed(v) && WellFormed(w) && Canonical(v) == Canonical(w)
    ensures Same(v, w)
    decreases v
  {
    match v
    case Arr(xs) =>
      forall i | 0 <= i < |xs| ensures Same(xs[i], w.items[i]) {
        assert CanonicalItems(xs)[i] == CanonicalItems(w.items)[i];
        CanonicalGivesSame(xs[i], w.items[i]);
      }
    case Obj(es) =>
      var fs := w.entries;
      CanonicalMembers(CanonicalEntries(es), CanonicalEntries(fs));
      KeysAgree(es, fs);
      forall i, j | 0 <= i < |es| && 0 <= j < |fs| && es[i].key == fs[j].key
        ensures Same(es[i].value, fs[j].value)
      {
        CanonicalGivesSame(es[i].value, fs[j].value);
      }
    case _ =>
  }

  lemma CanonicalMembers(a: seq<Entry>, b: seq<Entry>)
    requires FromEntries(Sort(a, KeyOrder())) == FromEntries(Sort(b, KeyOrder()))
    ensures forall e :: e in a <==> e in b
  {
    FromEntriesPermutes(Sort(a, KeyOrder()));
    FromEntriesPermutes(Sort(b, KeyOrder()));
    SortPermutes(a, KeyOrder());
    SortPermutes(b, KeyOrder());
    MembersOf(a, b);
  }

  lemma Carried(es: seq<Entry>, fs: seq<Entry>, i: nat) returns (k: nat)
    requires i < |es| && forall e :: e in CanonicalEntries(es) ==> e in CanonicalEntries(fs)
    ensures k < |fs| && fs[k].key == es[i].key && Canonical(fs[k].value) == Canonical(es[i].value)
  {
    var a, b := CanonicalEntries(es), CanonicalEntries(fs);
    assert a[i] in a;
    k :| 0 <= k < |b| && b[k] == a[i];
  }

  lemma KeysAgree(es: seq<Entry>, fs: seq<Entry>)
    requires DistinctKeys(es) && DistinctKeys(fs)
    requires forall e :: e in CanonicalEntries(es) <==> e in CanonicalEntries(fs)
    ensures forall i :: 0 <= i < |es| ==> HasKey(fs, es[i].key)
    ensures forall j :: 0 <= j < |fs| ==> HasKey(es, fs[j].key)
    ensures forall i, j :: 0 <= i < |es| && 0 <= j < |fs| && es[i].key == fs[j].key ==>
              Canonical(es[i].value) == Canonical(fs[j].value)
  {
    forall i | 0 <= i < |es| ensures HasKey(fs, es[i].key) { var _ := Carried(es, fs, i); }
    forall j | 0 <= j < |fs| ensures HasKey(es, fs[j].key) { var _ := Carried(fs, es, j); }
    forall i, j | 0 <= i < |es| && 0 <= j < |fs| && es[i].key == fs[j].key
      ensures Canonical(es[i].value) == Canonical(fs[j].value)
    {
      var k := Carried(es, fs, i);
      assert k == j;
    }
  }

  /**
   Canonical text is insensitive to key order and injective otherwise.
   */
  lemma CanonicalTextDecides(v: Json, w: Json)
    requires WellFormed(v) && WellFormed(w)
    ensures CanonicalText(v) == CanonicalText(w) <==> Same(v, w)
  {
    if CanonicalText(v) == CanonicalText(w) {
      PrintDecodes(Canonical(v), Canonical(w), 0, [0x0A], [0x0A]);
      CanonicalGivesSame(v, w);
    }
    if Same(v, w) { SameGivesCanonical(v, w); }
  }
}
