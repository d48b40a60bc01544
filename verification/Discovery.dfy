/** Discovery of a backfill run: paging an address history down to the overlap floor, then ordering what was found. */
module Discovery {
  import opened Wrappers
  import opened Texts
  import opened EvidenceTables
  import opened Sorting
  import opened RepresentationStore
  import Consensus = FinalizedConsensus

  datatype WatchTarget = WatchTarget(
    id: Text, providerId: Text, cluster: Cluster, address: Text, cutoverSlot: nat, overlapSlots: nat,
    headSlot: Option<nat>, headSignature: Option<Text>)

  /** The slot down to which a run pages: the overlap below the committed head, but never below the cutover. */
  function OverlapFloor(target: WatchTarget): nat {
    if target.headSlot.None? then target.cutoverSlot
    else
      var overlap := if target.headSlot.value > target.overlapSlots then target.headSlot.value - target.overlapSlots else 0;
      if overlap > target.cutoverSlot then overlap else target.cutoverSlot
  }

  /** A provider's answer to one page request, and whether the page could be recorded. */
  datatype PageAnswer = Failed(error: Consensus.Thrown) | Page(entries: seq<AddressSignature>, recorded: bool)

  /** A found signature with its place in the order of discovery. */
  datatype Found = Found(value: AddressSignature, order: nat)

  datatype Ending = Done | Blocked(code: ErrorCode) | Unanswered

  datatype Discovered = Discovered(found: seq<Found>, pages: nat, ending: Ending)

  function Find(found: seq<Found>, signature: Text): Option<AddressSignature> {
    if found == [] then None
    else if found[0].value.signature == signature then Some(found[0].value)
    else Find(found[1..], signature)
  }

  /** The entries at or above the floor join what was found; a known signature at another slot stops the page. */
  function AddEntries(found: seq<Found>, entries: seq<AddressSignature>, floor: nat): (seq<Found>, bool)
    decreases |entries|
  {
    if entries == [] then (found, false)
    else if entries[0].slot < floor then AddEntries(found, entries[1..], floor)
    else
      var existing := Find(found, entries[0].signature);
      if existing.Some? && existing.value.slot != entries[0].slot then (found, true)
      else if existing.Some? then AddEntries(found, entries[1..], floor)
      else AddEntries(found + [Found(entries[0], |found|)], entries[1..], floor)
  }

  predicate Mentions(entries: seq<AddressSignature>, signature: Text) {
    exists i :: 0 <= i < |entries| && entries[i].signature == signature
  }

  predicate NewestFirst(entries: seq<AddressSignature>) {
    forall i :: 0 < i < |entries| ==> entries[i].slot <= entries[i - 1].slot
  }

  function ThrownCode(error: Consensus.Thrown): ErrorCode {
    if error.Foreign? then RpcTransactionSchemaInvalid else error.code
  }

  /** The paging loop over the answers the provider gives; it has no end of its own if the answers run out. */
  function Discover(found: seq<Found>, before: Text, floor: nat, pages: nat, answers: seq<PageAnswer>): Discovered
    decreases |answers|
  {
    if answers == [] then Discovered(found, pages, Unanswered)
    else if answers[0].Failed? then Discovered(found, pages, Blocked(ThrownCode(answers[0].error)))
    else
      var page := answers[0].entries;
      if page == [] then Discovered(found, pages, Done)
      else if Mentions(page, before) then Discovered(found, pages, Blocked(RpcPageNoProgress))
      else if !NewestFirst(page) then Discovered(found, pages, Blocked(RpcPageOrderInvalid))
      else if !answers[0].recorded then Discovered(found, pages, Blocked(DatabaseUnavailable))
      else
        var (more, conflict) := AddEntries(found, page, floor);
        var oldest := page[|page| - 1];
        if conflict then Discovered(more, pages + 1, Blocked(RpcSignatureConflict))
        else if oldest.slot < floor then Discovered(more, pages + 1, Done)
        else Discover(more, oldest.signature, floor, pages + 1, answers[1..])
  }

  function Start(head: AddressSignature): seq<Found> { [Found(head, 0)] }

  method AddPage(known: seq<Found>, page: seq<AddressSignature>, floor: nat) returns (found: seq<Found>, conflict: bool)
    ensures (found, conflict) == AddEntries(known, page, floor)
  {
    found := known;
    for i := 0 to |page|
      invariant AddEntries(known, page, floor) == AddEntries(found, page[i..], floor)
    {
      var entry := page[i];
      assert page[i..][1..] == page[i + 1..];
      if entry.slot >= floor {
        var existing := Find(found, entry.signature);
        if existing.Some? && existing.value.slot != entry.slot { return found, true; }
        if existing.None? { found := found + [Found(entry, |found|)]; }
      }
    }
    conflict := false;
  }

  method DiscoverSignatures(head: AddressSignature, floor: nat, answers: seq<PageAnswer>) returns (d: Discovered)
    ensures d == Discover(Start(head), head.signature, floor, 0, answers)
  {
    var found, before, pages := Start(head), head.signature, 0;
    while pages < |answers|
      invariant pages <= |answers|
      invariant Discover(Start(head), head.signature, floor, 0, answers) == Discover(found, before, floor, pages, answers[pages..])
    {
      var answer := answers[pages];
      assert answers[pages..][1..] == answers[pages + 1..];
      if answer.Failed? { return Discovered(found, pages, Blocked(ThrownCode(answer.error))); }
      var page := answer.entries;
      if page == [] { return Discovered(found, pages, Done); }
      if Mentions(page, before) { return Discovered(found, pages, Blocked(RpcPageNoProgress)); }
      if !NewestFirst(page) { return Discovered(found, pages, Blocked(RpcPageOrderInvalid)); }
      if !answer.recorded { return Discovered(found, pages, Blocked(DatabaseUnavailable)); }
      pages := pages + 1;
      var conflict;
      found, conflict := AddPage(found, page, floor);
      if conflict { return Discovered(found, pages, Blocked(RpcSignatureConflict)); }
      var oldest := page[|page| - 1];
      if oldest.slot < floor { return Discovered(found, pages, Done); }
      before := oldest.signature;
    }
    d := Discovered(found, pages, Unanswered);
  }

  // ------------------------------------------------------------------ what is found, from any provider

  /** Orders count up, and no signature is found twice. */
  predicate Counted(found: seq<Found>) {
    && (forall i :: 0 <= i < |found| ==> found[i].order == i)
    && (forall i, j :: 0 <= i < j < |found| ==> found[i].value.signature != found[j].value.signature)
  }

  lemma {:induction false} FindFinds(found: seq<Found>, signature: Text)
    ensures Find(found, signature).Some? <==> exists i :: 0 <= i < |found| && found[i].value.signature == signature
    ensures Find(found, signature).Some? ==> exists i :: 0 <= i < |found| && found[i].value == Find(found, signature).value && found[i].value.signature == signature
  {
    if found != [] && found[0].value.signature != signature {
      FindFinds(found[1..], signature);
      if Find(found[1..], signature).Some? {
        var i :| 0 <= i < |found| - 1 && found[1..][i].value == Find(found[1..], signature).value && found[1..][i].value.signature == signature;
        assert found[i + 1] == found[1..][i];
      } else {
        forall i | 0 <= i < |found| ensures found[i].value.signature != signature {
          if i > 0 { assert found[i] == found[1..][i - 1]; }
        }
      }
    }
  }

  lemma {:induction false} AddCounts(found: seq<Found>, entries: seq<AddressSignature>, floor: nat)
    requires Counted(found)
    ensures Counted(AddEntries(found, entries, floor).0) && found <= AddEntries(found, entries, floor).0
    decreases |entries|
  {
    if entries != [] {
      FindFinds(found, entries[0].signature);
      AddCounts(found, entries[1..], floor);
      if Find(found, entries[0].signature).None? {
        AddCounts(found + [Found(entries[0], |found|)], entries[1..], floor);
      }
    }
  }

  lemma {:induction false} DiscoverCounts(found: seq<Found>, before: Text, floor: nat, pages: nat,
      answers: seq<PageAnswer>)
    requires Counted(found)
    ensures var d := Discover(found, before, floor, pages, answers); Counted(d.found) && found <= d.found && d.pages <= pages + |answers|
    decreases |answers|
  {
    if answers != [] && answers[0].Page? && answers[0].entries != [] {
      var page := answers[0].entries;
      AddCounts(found, page, floor);
      DiscoverCounts(AddEntries(found, page, floor).0, page[|page| - 1].signature, floor, pages + 1, answers[1..]);
    }
  }

  // ------------------------------------------------------------------ processing order

  /** The comparator of the sort: by slot, then by order of discovery. */
  predicate Precedes(a: Found, b: Found) {
    a.value.slot < b.value.slot || (a.value.slot == b.value.slot && a.order < b.order)
  }

  function Ordered(found: seq<Found>): seq<Found> { Sort(found, Precedes) }

  /** Everything found is processed once, oldest slot first, in discovery order within a slot. */
  lemma ProcessedBySlot(found: seq<Found>)
    requires Counted(found)
    ensures multiset(Ordered(found)) == multiset(found)
    ensures forall i, j :: 0 <= i < j < |Ordered(found)| ==>
      var a, b := Ordered(found)[i], Ordered(found)[j];
      a.value.slot < b.value.slot || (a.value.slot == b.value.slot && a.order < b.order)
  {
    SortSorts(found, Precedes);
    SortPermutes(found, Precedes);
    var o := Ordered(found);
    forall i, j | 0 <= i < j < |o| ensures Precedes(o[i], o[j]) {
      assert !Precedes(o[j], o[i]);
      DistinctOrders(found, o, i, j);
    }
  }

  lemma DistinctOrders(found: seq<Found>, o: seq<Found>, i: nat, j: nat)
    requires Counted(found) && multiset(o) == multiset(found) && i < j < |o|
    ensures o[i].order != o[j].order
  {
    assert o[i] in multiset(o) && o[j] in multiset(o);
    if o[i].order == o[j].order {
      var k :| 0 <= k < |found| && found[k] == o[i];
      assert found[o[j].order] == o[j];
      assert o == o[..i] + [o[i]] + o[i + 1..j] + [o[j]] + o[j + 1..];
      assert multiset(o)[o[i]] >= 2;
      OnceIn(found, k);
    }
  }

  lemma OnceIn(found: seq<Found>, k: nat)
    requires Counted(found) && k < |found|
    ensures multiset(found)[found[k]] == 1
  {
    assert found == found[..k] + [found[k]] + found[k + 1..];
    assert found[k] !in found[..k] && found[k] !in found[k + 1..];
  }
}
