/** The structural limits on transaction evidence, checked with an explicit stack. */
module EvidenceLimits {
  import opened Texts
  import opened CanonicalJson

  const MAX_DEPTH := 32
  const MAX_NODES := 50_000
  const MAX_ARRAY_LENGTH := 4_096
  const MAX_OBJECT_PROPERTIES := 512
  const MAX_STRING_BYTES := 65_536

  /** UTF-8 length of a string; a surrogate on its own is encoded as the replacement character. */
  function Utf8Length(t: Text): nat {
    if t == [] then 0
    else if t[0] < 0x80 then 1 + Utf8Length(t[1..])
    else if t[0] < 0x800 then 2 + Utf8Length(t[1..])
    else if StartsPair(t) then 4 + Utf8Length(t[2..])
    else 3 + Utf8Length(t[1..])
  }

  /** UTF-8, as RFC 3629 has it in section 3. */
  function Utf8(t: Text): seq<nat> {
    if t == [] then []
    else if t[0] < 0x80 then [t[0]] + Utf8(t[1..])
    else if t[0] < 0x800 then [0xC0 + t[0] / 0x40, 0x80 + t[0] % 0x40] + Utf8(t[1..])
    else if StartsPair(t) then
      var high: int, low: int := t[0], t[1];
      var point: int := 0x1_0000 + (high - 0xD800) * 0x400 + (low - 0xDC00);
      [0xF0 + point / 0x4_0000, 0x80 + point / 0x1000 % 0x40, 0x80 + point / 0x40 % 0x40, 0x80 + point % 0x40] + Utf8(t[2..])
    else
      var point := if 0xD800 <= t[0] <= 0xDFFF then 0xFFFD else t[0];
      [0xE0 + point / 0x1000, 0x80 + point / 0x40 % 0x40, 0x80 + point % 0x40] + Utf8(t[1..])
  }

  /** The length is that of the encoded string, without encoding it. */
  lemma {:induction false} Utf8LengthIs(t: Text)
    ensures Utf8Length(t) == |Utf8(t)|
  {
    if t != [] {
      Utf8LengthIs(t[1..]);
      if StartsPair(t) { Utf8LengthIs(t[2..]); }
    }
  }

  // ------------------------------------------------------------------ what the limits mean

  /** Values and object keys, counted at every depth. */
  function Nodes(v: Json): nat {
    match v
    case Arr(items) => 1 + NodesOfItems(items)
    case Obj(entries) => 1 + NodesOfEntries(entries)
    case _ => 1
  }

  function NodesOfItems(items: seq<Json>): nat {
    if items == [] then 0 else Nodes(items[0]) + NodesOfItems(items[1..])
  }

  function NodesOfEntries(entries: seq<Entry>): nat {
    if entries == [] then 0 else 1 + Nodes(entries[0].value) + NodesOfEntries(entries[1..])
  }

  /** No string is too long, no array or object too wide, and nothing too deep. */
  predicate ShapeWithin(v: Json, depth: nat) {
    && depth <= MAX_DEPTH
    && match v
       case Str(t) => Utf8Length(t) <= MAX_STRING_BYTES
       case Arr(items) => |items| <= MAX_ARRAY_LENGTH && forall i :: 0 <= i < |items| ==> ShapeWithin(items[i], depth + 1)
       case Obj(entries) =>
         && |entries| <= MAX_OBJECT_PROPERTIES
         && forall i :: 0 <= i < |entries| ==>
              depth + 1 <= MAX_DEPTH && Utf8Length(entries[i].key) <= MAX_STRING_BYTES && ShapeWithin(entries[i].value, depth + 1)
       case _ => true
  }

  predicate WithinLimits(v: Json) {
    Nodes(v) <= MAX_NODES && ShapeWithin(v, 0)
  }

  // ------------------------------------------------------------------ the stack

  datatype Frame = Frame(value: Json, depth: nat)

  function FramesOfItems(items: seq<Json>, depth: nat): (frames: seq<Frame>)
    ensures |frames| == |items| && forall i :: 0 <= i < |items| ==> frames[i] == Frame(items[i], depth)
  {
    seq(|items|, i requires 0 <= i < |items| => Frame(items[i], depth))
  }

  /** Each entry pushes its key, then its value. */
  function FramesOfEntries(entries: seq<Entry>, depth: nat): seq<Frame> {
    if entries == [] then [] else [Frame(Str(entries[0].key), depth), Frame(entries[0].value, depth)] + FramesOfEntries(entries[1..], depth)
  }

  function Children(f: Frame): seq<Frame> {
    match f.value
    case Arr(items) => FramesOfItems(items, f.depth + 1)
    case Obj(entries) => FramesOfEntries(entries, f.depth + 1)
    case _ => []
  }

  function NodesOnStack(stack: seq<Frame>): nat {
    if stack == [] then 0 else Nodes(stack[0].value) + NodesOnStack(stack[1..])
  }

  predicate StackWithin(stack: seq<Frame>) {
    forall i :: 0 <= i < |stack| ==> ShapeWithin(stack[i].value, stack[i].depth)
  }

  lemma {:induction false} NodesOfBoth(a: seq<Frame>, b: seq<Frame>)
    ensures NodesOnStack(a + b) == NodesOnStack(a) + NodesOnStack(b)
  {
    if a == [] {
      assert a + b == b;
    } else {
      NodesOfBoth(a[1..], b);
      assert (a + b)[1..] == a[1..] + b;
    }
  }

  lemma {:induction false} ItemNodes(items: seq<Json>, depth: nat)
    ensures NodesOnStack(FramesOfItems(items, depth)) == NodesOfItems(items)
  {
    if items != [] {
      ItemNodes(items[1..], depth);
      assert FramesOfItems(items, depth)[1..] == FramesOfItems(items[1..], depth);
    }
  }

  lemma {:induction false} EntryNodes(entries: seq<Entry>, depth: nat)
    ensures NodesOnStack(FramesOfEntries(entries, depth)) == NodesOfEntries(entries)
  {
    if entries != [] {
      var pair := [Frame(Str(entries[0].key), depth), Frame(entries[0].value, depth)];
      EntryNodes(entries[1..], depth);
      NodesOfBoth(pair, FramesOfEntries(entries[1..], depth));
      assert pair[1..] == [Frame(entries[0].value, depth)] && pair[1..][1..] == [];
      assert NodesOnStack(pair) == 1 + Nodes(entries[0].value);
    }
  }

  /** A frame and what it pushes hold the same nodes, up to the frame itself. */
  lemma ChildNodes(f: Frame)
    ensures Nodes(f.value) == 1 + NodesOnStack(Children(f))
  {
    match f.value
    case Arr(items) => ItemNodes(items, f.depth + 1);
    case Obj(entries) => EntryNodes(entries, f.depth + 1);
    case _ =>
  }

  lemma {:induction false} EntriesWithin(entries: seq<Entry>, depth: nat)
    ensures StackWithin(FramesOfEntries(entries, depth)) <==>
      forall i :: 0 <= i < |entries| ==>
        depth <= MAX_DEPTH && Utf8Length(entries[i].key) <= MAX_STRING_BYTES && ShapeWithin(entries[i].value, depth)
  {
    if entries != [] {
      EntriesWithin(entries[1..], depth);
      var rest := FramesOfEntries(entries[1..], depth);
      var all := FramesOfEntries(entries, depth);
      assert all[0] == Frame(Str(entries[0].key), depth) && all[1] == Frame(entries[0].value, depth);
      assert forall i :: 0 <= i < |rest| ==> all[i + 2] == rest[i];
      StackSplits([all[0], all[1]], rest);
      assert all == [all[0], all[1]] + rest;
      assert forall i :: 0 <= i < |entries[1..]| ==> entries[1..][i] == entries[i + 1];
      assert forall i :: 0 < i < |entries| ==> entries[i] == entries[1..][i - 1];
    }
  }

  lemma StackSplits(a: seq<Frame>, b: seq<Frame>)
    ensures StackWithin(a + b) <==> StackWithin(a) && StackWithin(b)
  {
    if StackWithin(a + b) {
      forall i | 0 <= i < |a| ensures ShapeWithin(a[i].value, a[i].depth) { assert (a + b)[i] == a[i]; }
      forall i | 0 <= i < |b| ensures ShapeWithin(b[i].value, b[i].depth) { assert (a + b)[|a| + i] == b[i]; }
    }
  }

  /** What the loop checks of a frame itself. */
  predicate FrameWithin(f: Frame) {
    && f.depth <= MAX_DEPTH
    && match f.value
       case Str(t) => Utf8Length(t) <= MAX_STRING_BYTES
       case Arr(items) => |items| <= MAX_ARRAY_LENGTH
       case Obj(entries) => |entries| <= MAX_OBJECT_PROPERTIES
       case _ => true
  }

  lemma ChildrenWithin(f: Frame)
    ensures ShapeWithin(f.value, f.depth) <==> FrameWithin(f) && StackWithin(Children(f))
  {
    match f.value
    case Obj(entries) => EntriesWithin(entries, f.depth + 1);
    case Arr(items) =>
      var frames := FramesOfItems(items, f.depth + 1);
      assert forall i :: 0 <= i < |items| ==> frames[i].value == items[i] && frames[i].depth == f.depth + 1;
    case _ =>
  }

  /**
   The check is exact: it accepts precisely the evidence whose nodes, depth, strings, arrays and
   objects are all within limits.
   */
  method StructuralEvidenceWithinLimits(value: Json) returns (ok: bool)
    ensures ok <==> WithinLimits(value)
  {
    var stack, nodes := [Frame(value, 0)], 0;
    assert stack[1..] == [];
    while stack != []
      invariant nodes + NodesOnStack(stack) == Nodes(value)
      invariant nodes <= MAX_NODES
      invariant ShapeWithin(value, 0) <==> StackWithin(stack)
      decreases NodesOnStack(stack)
    {
      var top := |stack| - 1;
      var current, rest := stack[top], stack[..top];
      assert stack == rest + [current] && [current][1..] == [];
      NodesOfBoth(rest, [current]);
      StackSplits(rest, [current]);
      assert StackWithin([current]) <==> ShapeWithin([current][0].value, [current][0].depth);
      ChildNodes(current);
      ChildrenWithin(current);
      nodes := nodes + 1;
      if nodes > MAX_NODES || current.depth > MAX_DEPTH { return false; }
      match current.value {
        case Str(t) => if Utf8Length(t) > MAX_STRING_BYTES { return false; }
        case Arr(items) => if |items| > MAX_ARRAY_LENGTH { return false; }
        case Obj(entries) => if |entries| > MAX_OBJECT_PROPERTIES { return false; }
        case _ =>
      }
      NodesOfBoth(rest, Children(current));
      StackSplits(rest, Children(current));
      stack := rest + Children(current);
    }
    ok := true;
  }

  // ------------------------------------------------------------------ key order does not matter

  predicate SameKeys(es: seq<Entry>, fs: seq<Entry>) {
    && DistinctKeys(es) && DistinctKeys(fs)
    && (forall i :: 0 <= i < |es| ==> HasKey(fs, es[i].key))
    && (forall j :: 0 <= j < |fs| ==> HasKey(es, fs[j].key))
  }

  lemma {:induction false} NodesWithout(fs: seq<Entry>, j: nat)
    requires j < |fs|
    ensures NodesOfEntries(fs) == 1 + Nodes(fs[j].value) + NodesOfEntries(fs[..j] + fs[j + 1..])
  {
    var rest := fs[..j] + fs[j + 1..];
    if j == 0 {
      assert rest == fs[1..];
    } else {
      NodesWithout(fs[1..], j - 1);
      assert fs[1..][..j - 1] == fs[1..j] && fs[1..][j..] == fs[j + 1..];
      assert rest == [fs[0]] + (fs[1..j] + fs[j + 1..]);
      assert rest[1..] == fs[1..j] + fs[j + 1..];
    }
  }

  lemma SameKeysWithout(es: seq<Entry>, fs: seq<Entry>, j: nat)
    requires SameKeys(es, fs) && es != [] && j < |fs| && fs[j].key == es[0].key
    ensures SameKeys(es[1..], fs[..j] + fs[j + 1..])
  {
    var rest := fs[..j] + fs[j + 1..];
    forall i | 0 <= i < |es[1..]| ensures HasKey(rest, es[1..][i].key) {
      var k :| 0 <= k < |fs| && fs[k].key == es[i + 1].key;
      assert rest[if k < j then k else k - 1] == fs[k];
    }
    forall k | 0 <= k < |rest| ensures HasKey(es[1..], rest[k].key) {
      var l := if k < j then k else k + 1;
      assert rest[k] == fs[l];
      var i :| 0 <= i < |es| && es[i].key == fs[l].key;
      assert es[1..][i - 1] == es[i];
    }
  }

  lemma NoKeysLeft(fs: seq<Entry>)
    requires forall j :: 0 <= j < |fs| ==> HasKey([], fs[j].key)
    ensures fs == []
  {
    if |fs| > 0 {
      var key := fs[0].key;
      NoKey(key);
    }
  }

  lemma NoKey(key: Text)
    ensures !HasKey([], key)
  {
  }

  lemma {:induction false} SameEntries(es: seq<Entry>, fs: seq<Entry>)
    requires SameKeys(es, fs)
    requires forall i, j ::
      0 <= i < |es| && 0 <= j < |fs| && es[i].key == fs[j].key ==> Nodes(es[i].value) == Nodes(fs[j].value)
    ensures |es| == |fs| && NodesOfEntries(es) == NodesOfEntries(fs)
  {
    if es == [] {
      NoKeysLeft(fs);
    } else {
      assert HasKey(fs, es[0].key);
      var j :| 0 <= j < |fs| && fs[j].key == es[0].key;
      var rest := fs[..j] + fs[j + 1..];
      SameKeysWithout(es, fs, j);
      forall i, k | 0 <= i < |es[1..]| && 0 <= k < |rest| && es[1..][i].key == rest[k].key
        ensures Nodes(es[1..][i].value) == Nodes(rest[k].value)
      {
        assert rest[k] == fs[if k < j then k else k + 1] && es[1..][i] == es[i + 1];
      }
      SameEntries(es[1..], rest);
      NodesWithout(fs, j);
    }
  }

  lemma {:induction false} SameItems(xs: seq<Json>, ys: seq<Json>)
    requires |xs| == |ys| && forall i :: 0 <= i < |xs| ==> Nodes(xs[i]) == Nodes(ys[i])
    ensures NodesOfItems(xs) == NodesOfItems(ys)
  {
    if xs != [] { SameItems(xs[1..], ys[1..]); }
  }

  lemma {:induction false} SameNodes(v: Json, w: Json)
    requires WellFormed(v) && WellFormed(w) && Same(v, w)
    ensures Nodes(v) == Nodes(w)
    decreases v
  {
    match (v, w)
    case (Arr(xs), Arr(ys)) =>
      forall i | 0 <= i < |xs| ensures Nodes(xs[i]) == Nodes(ys[i]) { SameNodes(xs[i], ys[i]); }
      SameItems(xs, ys);
    case (Obj(es), Obj(fs)) =>
      forall i, j | 0 <= i < |es| && 0 <= j < |fs| && es[i].key == fs[j].key
        ensures Nodes(es[i].value) == Nodes(fs[j].value)
      {
        SameNodes(es[i].value, fs[j].value);
      }
      SameEntries(es, fs);
    case _ =>
  }

  lemma {:induction false} SameShape(v: Json, w: Json, depth: nat)
    requires WellFormed(v) && WellFormed(w) && Same(v, w) && ShapeWithin(v, depth)
    ensures ShapeWithin(w, depth)
    decreases v
  {
    match (v, w)
    case (Arr(xs), Arr(ys)) =>
      forall i | 0 <= i < |ys| ensures ShapeWithin(ys[i], depth + 1) { SameShape(xs[i], ys[i], depth + 1); }
    case (Obj(es), Obj(fs)) =>
      forall i, j | 0 <= i < |es| && 0 <= j < |fs| && es[i].key == fs[j].key
        ensures Nodes(es[i].value) == Nodes(fs[j].value)
      {
        SameNodes(es[i].value, fs[j].value);
      }
      SameEntries(es, fs);
      forall j | 0 <= j < |fs|
        ensures depth + 1 <= MAX_DEPTH && Utf8Length(fs[j].key) <= MAX_STRING_BYTES
        ensures ShapeWithin(fs[j].value, depth + 1)
      {
        assert HasKey(es, fs[j].key);
        var i :| 0 <= i < |es| && es[i].key == fs[j].key;
        SameShape(es[i].value, fs[j].value, depth + 1);
      }
    case _ =>
  }

  /** The limits do not depend on the order in which keys, or anything else, are visited. */
  lemma LimitsIgnoreKeyOrder(v: Json, w: Json)
    requires WellFormed(v) && WellFormed(w) && Same(v, w)
    ensures WithinLimits(v) <==> WithinLimits(w)
  {
    SameNodes(v, w);
    SameSymmetric(v, w);
    if WithinLimits(v) { SameShape(v, w, 0); }
    if WithinLimits(w) { SameShape(w, v, 0); }
  }

  lemma {:induction false} SameSymmetric(v: Json, w: Json)
    requires Same(v, w)
    ensures Same(w, v)
    decreases v
  {
    match (v, w)
    case (Arr(xs), Arr(ys)) =>
      forall i | 0 <= i < |ys| ensures Same(ys[i], xs[i]) { SameSymmetric(xs[i], ys[i]); }
    case (Obj(es), Obj(fs)) =>
      forall i, j | 0 <= i < |fs| && 0 <= j < |es| && fs[i].key == es[j].key ensures Same(fs[i].value, es[j].value) {
        SameSymmetric(es[j].value, fs[i].value);
      }
    case _ =>
  }

  // ------------------------------------------------------------------ where the limits are

  function Nested(depth: nat): Json { if depth == 0 then Null else Arr([Nested(depth - 1)]) }

  function Nulls(n: nat): (items: seq<Json>)
    ensures |items| == n && forall i :: 0 <= i < n ==> items[i] == Null
  {
    seq(n, _ => Null)
  }

  /** An array of arrays of nulls. */
  function Grid(rows: nat, columns: nat): Json { Arr(seq(rows, _ => Arr(Nulls(columns)))) }

  lemma {:induction false} NestedShape(k: nat, depth: nat)
    ensures ShapeWithin(Nested(k), depth) <==> depth + k <= 32
    ensures Nodes(Nested(k)) == k + 1
  {
    if k > 0 {
      NestedShape(k - 1, depth + 1);
      var items := [Nested(k - 1)];
      assert items[0] == Nested(k - 1) && items[1..] == [];
      assert ShapeWithin(Nested(k), depth) <==> depth <= 32 && ShapeWithin(items[0], depth + 1);
      assert NodesOfItems(items) == Nodes(items[0]) + NodesOfItems(items[1..]);
    }
  }

  /** Values nest at most 32 deep. */
  lemma NestedWithin(k: nat)
    ensures WithinLimits(Nested(k)) <==> k <= 32
  {
    NestedShape(k, 0);
  }

  lemma {:induction false} NodesOfEqual(items: seq<Json>, each: nat)
    requires forall i :: 0 <= i < |items| ==> Nodes(items[i]) == each
    ensures NodesOfItems(items) == |items| * each
  {
    if items != [] {
      NodesOfEqual(items[1..], each);
      assert |items| * each == each + (|items| - 1) * each;
    }
  }

  /** Arrays have at most 4096 items, and there are at most 50000 nodes in all. */
  lemma GridWithin(rows: nat, columns: nat)
    ensures WithinLimits(Grid(rows, columns))
      <==> rows <= 4096 && (rows > 0 ==> columns <= 4096) && 1 + rows * (1 + columns) <= 50_000
  {
    NodesOfEqual(Nulls(columns), 1);
    NodesOfEqual(Grid(rows, columns).items, 1 + columns);
    var items := Grid(rows, columns).items;
    assert forall i :: 0 <= i < rows ==> (ShapeWithin(items[i], 1) <==> columns <= 4096);
  }

  /** A string is at most 65536 bytes long. */
  lemma StringWithin(t: Text)
    ensures WithinLimits(Str(t)) <==> Utf8Length(t) <= 65_536
  {
  }
}
