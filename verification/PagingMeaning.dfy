/**
 What paging an address history comes to, whatever the provider answers: on which page it ends and
 why, which signatures it has found by then, and how far down it goes.
 */
module PagingMeaning {
  import opened Wrappers
  import opened Texts
  import opened EvidenceTables
  import opened RepresentationStore
  import opened Discovery
  import Consensus = FinalizedConsensus

  /** A run pages down to the cutover, or only to the overlap below its committed head, whichever is later. */
  lemma FloorMeans(target: WatchTarget)
    ensures var floor := OverlapFloor(target);
      && target.cutoverSlot <= floor
      && (target.headSlot.None? ==> floor == target.cutoverSlot)
      && (target.headSlot.Some? ==> target.headSlot.value <= floor + target.overlapSlots)
      && (target.headSlot.Some? && floor != target.cutoverSlot ==> target.headSlot.value == floor + target.overlapSlots)
  {
  }

  // ------------------------------------------------------------------ one page

  /** The signature was found, at this slot. */
  predicate Has(found: seq<Found>, signature: Text, slot: nat) {
    Find(found, signature).Some? && Find(found, signature).value.slot == slot
  }

  /** The entries at or above the floor mention the signature at this slot. */
  predicate Shows(entries: seq<AddressSignature>, floor: nat, signature: Text, slot: nat) {
    floor <= slot && exists i :: 0 <= i < |entries| && entries[i].signature == signature && entries[i].slot == slot
  }

  lemma {:induction false} FindMore(found: seq<Found>, more: Found, signature: Text)
    ensures Find(found + [more], signature) ==
      if Find(found, signature).Some? then Find(found, signature)
      else if more.value.signature == signature then Some(more.value) else None
  {
    if found != [] {
      assert (found + [more])[1..] == found[1..] + [more];
      FindMore(found[1..], more, signature);
    }
  }

  lemma ShowsFirst(entries: seq<AddressSignature>, floor: nat, signature: Text, slot: nat)
    requires entries != []
    ensures Shows(entries, floor, signature, slot) <==>
      Shows(entries[1..], floor, signature, slot) || (floor <= slot && entries[0].signature == signature && entries[0].slot == slot)
  {
    if Shows(entries[1..], floor, signature, slot) {
      var i :| 0 <= i < |entries[1..]| && entries[1..][i].signature == signature && entries[1..][i].slot == slot;
      assert entries[i + 1] == entries[1..][i];
    }
    if Shows(entries, floor, signature, slot) {
      var i :| 0 <= i < |entries| && entries[i].signature == signature && entries[i].slot == slot;
      if i > 0 { assert entries[1..][i - 1] == entries[i]; }
    }
  }

  predicate Either(found: seq<Found>, entries: seq<AddressSignature>, floor: nat, signature: Text, slot: nat) {
    Has(found, signature, slot) || Shows(entries, floor, signature, slot)
  }

  /** Two slots are told of one signature. */
  ghost predicate TwoSlots(found: seq<Found>, entries: seq<AddressSignature>, floor: nat) {
    exists signature, m: nat, n: nat :: m != n && Either(found, entries, floor, signature, m) && Either(found, entries, floor, signature, n)
  }

  /** The first entry at or above the floor, when the signature is new, or known at its slot. */
  lemma OneEntry(found: seq<Found>, entries: seq<AddressSignature>, floor: nat, next: seq<Found>)
    requires entries != []
    requires
      || (entries[0].slot < floor && next == found)
      || (floor <= entries[0].slot && Has(found, entries[0].signature, entries[0].slot) && next == found)
      || (floor <= entries[0].slot && Find(found, entries[0].signature).None? && next == found + [Found(entries[0], |found|)])
    ensures forall signature, slot: nat :: Either(next, entries[1..], floor, signature, slot) <==> Either(found, entries, floor, signature, slot)
  {
    forall signature, slot: nat
      ensures Either(next, entries[1..], floor, signature, slot) <==> Either(found, entries, floor, signature, slot)
    {
      ShowsFirst(entries, floor, signature, slot);
      FindMore(found, Found(entries[0], |found|), signature);
    }
  }

  lemma SameTwoSlots(found: seq<Found>, entries: seq<AddressSignature>, next: seq<Found>, rest: seq<AddressSignature>,
      floor: nat)
    requires forall signature, slot: nat :: Either(next, rest, floor, signature, slot) <==> Either(found, entries, floor, signature, slot)
    ensures TwoSlots(next, rest, floor) <==> TwoSlots(found, entries, floor)
  {
    if TwoSlots(found, entries, floor) {
      var signature, m: nat, n: nat :| m != n && Either(found, entries, floor, signature, m) && Either(found, entries, floor, signature, n);
      assert Either(next, rest, floor, signature, m) && Either(next, rest, floor, signature, n);
    }
    if TwoSlots(next, rest, floor) {
      var signature, m: nat, n: nat :| m != n && Either(next, rest, floor, signature, m) && Either(next, rest, floor, signature, n);
      assert Either(found, entries, floor, signature, m) && Either(found, entries, floor, signature, n);
    }
  }

  /**
   A page stops the paging if and only if some signature then has two slots; else exactly what it
   shows is found besides.
   */
  lemma {:induction false} PageMeans(found: seq<Found>, entries: seq<AddressSignature>, floor: nat)
    ensures var (more, conflict) := AddEntries(found, entries, floor);
      && (conflict <==> TwoSlots(found, entries, floor))
      && (!conflict ==> forall signature, slot: nat :: Has(more, signature, slot) <==> Either(found, entries, floor, signature, slot))
    decreases |entries|
  {
    if entries == [] {
    } else {
      var e := entries[0];
      var existing := Find(found, e.signature);
      if e.slot >= floor && existing.Some? && existing.value.slot != e.slot {
        ShowsFirst(entries, floor, e.signature, e.slot);
        assert Either(found, entries, floor, e.signature, e.slot) && Either(found, entries, floor, e.signature, existing.value.slot);
      } else {
        var next := if e.slot < floor || existing.Some? then found else found + [Found(e, |found|)];
        OneEntry(found, entries, floor, next);
        SameTwoSlots(found, entries, next, entries[1..], floor);
        PageMeans(next, entries[1..], floor);
      }
    }
  }

  // ------------------------------------------------------------------ all pages

  predicate IsPage(answer: PageAnswer) { answer.Page? && answer.entries != [] }

  /** Behind which signature the n-th page is asked for. */
  function BoundaryOf(head: AddressSignature, answers: seq<PageAnswer>, n: nat): Text
    requires n <= |answers| && (n > 0 ==> IsPage(answers[n - 1]))
  {
    if n == 0 then head.signature else answers[n - 1].entries[|answers[n - 1].entries| - 1].signature
  }

  /** The head, and the entries at or above the floor on the first n pages, mention the signature at this slot. */
  predicate Met(head: AddressSignature, floor: nat, answers: seq<PageAnswer>, n: nat, signature: Text, slot: nat)
    requires n <= |answers|
  {
    || (head.signature == signature && head.slot == slot)
    || exists k :: 0 <= k < n && answers[k].Page? && Shows(answers[k].entries, floor, signature, slot)
  }

  ghost predicate MetTwice(head: AddressSignature, floor: nat, answers: seq<PageAnswer>, n: nat)
    requires n <= |answers|
  {
    exists signature, i: nat, j: nat :: i != j && Met(head, floor, answers, n, signature, i) && Met(head, floor, answers, n, signature, j)
  }

  /** How the paging ends at this answer, if it ends there. */
  ghost function EndingAt(head: AddressSignature, floor: nat, answers: seq<PageAnswer>, n: nat): Option<Ending>
    requires n < |answers| && (n > 0 ==> IsPage(answers[n - 1]))
  {
    match answers[n]
    case Failed(Ingestion(code, _)) => Some(Blocked(code))
    case Failed(Foreign) => Some(Blocked(RpcTransactionSchemaInvalid))
    case Page(entries, recorded) =>
      if entries == [] then Some(Done)
      else if exists i :: 0 <= i < |entries| && entries[i].signature == BoundaryOf(head, answers, n) then Some(Blocked(RpcPageNoProgress))
      else if exists i :: 0 < i < |entries| && entries[i - 1].slot < entries[i].slot then Some(Blocked(RpcPageOrderInvalid))
      else if !recorded then Some(Blocked(DatabaseUnavailable))
      else if MetTwice(head, floor, answers, n + 1) then Some(Blocked(RpcSignatureConflict))
      else if entries[|entries| - 1].slot < floor then Some(Done)
      else None
  }

  ghost predicate LeadsOn(head: AddressSignature, floor: nat, answers: seq<PageAnswer>, k: nat)
    requires k < |answers|
  {
    IsPage(answers[k]) && (k > 0 ==> IsPage(answers[k - 1])) && EndingAt(head, floor, answers, k).None?
  }

  /** The pages before the n-th all lead on. */
  ghost predicate GoesOn(head: AddressSignature, floor: nat, answers: seq<PageAnswer>, n: nat)
    requires n <= |answers|
  {
    forall k :: 0 <= k < n ==> LeadsOn(head, floor, answers, k)
  }

  /** What was found is what was met. */
  ghost predicate Knows(found: seq<Found>, head: AddressSignature, floor: nat, answers: seq<PageAnswer>, n: nat)
    requires n <= |answers|
  {
    forall signature, slot: nat :: Has(found, signature, slot) <==> Met(head, floor, answers, n, signature, slot)
  }

  lemma MetMore(found: seq<Found>, head: AddressSignature, floor: nat, answers: seq<PageAnswer>, n: nat)
    requires n < |answers| && answers[n].Page? && Knows(found, head, floor, answers, n)
    ensures forall signature, slot: nat ::
      Either(found, answers[n].entries, floor, signature, slot) <==> Met(head, floor, answers, n + 1, signature, slot)
  {
    forall signature, slot: nat
      ensures Either(found, answers[n].entries, floor, signature, slot)
        <==> Met(head, floor, answers, n + 1, signature, slot)
    {
      assert Has(found, signature, slot) <==> Met(head, floor, answers, n, signature, slot);
    }
  }

  /** The page as the paging takes it, in terms of what was met. */
  lemma PageMet(found: seq<Found>, head: AddressSignature, floor: nat, answers: seq<PageAnswer>, n: nat)
    requires n < |answers| && answers[n].Page? && Knows(found, head, floor, answers, n)
    ensures var (more, conflict) := AddEntries(found, answers[n].entries, floor);
      && (conflict <==> MetTwice(head, floor, answers, n + 1))
      && (!conflict ==> Knows(more, head, floor, answers, n + 1))
  {
    var entries := answers[n].entries;
    MetMore(found, head, floor, answers, n);
    PageMeans(found, entries, floor);
    if TwoSlots(found, entries, floor) {
      var s, i: nat, j: nat :| i != j && Either(found, entries, floor, s, i) && Either(found, entries, floor, s, j);
      assert Met(head, floor, answers, n + 1, s, i) && Met(head, floor, answers, n + 1, s, j);
    }
    if MetTwice(head, floor, answers, n + 1) {
      var s, i: nat, j: nat :| i != j && Met(head, floor, answers, n + 1, s, i) && Met(head, floor, answers, n + 1, s, j);
      assert Either(found, entries, floor, s, i) && Either(found, entries, floor, s, j);
    }
  }

  /** The paging ended at the n-th answer, or ran out of answers there, with what was met. */
  ghost predicate EndsAt(d: Discovered, head: AddressSignature, floor: nat, answers: seq<PageAnswer>, n: nat) {
    && n <= |answers| && GoesOn(head, floor, answers, n) && n <= d.pages <= n + 1
    && (n == |answers| ==> d.ending == Unanswered && d.pages == n && Knows(d.found, head, floor, answers, n))
    && (n < |answers| ==>
          && (n > 0 ==> IsPage(answers[n - 1])) && EndingAt(head, floor, answers, n) == Some(d.ending)
          && (d.ending == Done ==> Knows(d.found, head, floor, answers, n + 1)))
  }

  /** The first checks of a page, as the paging makes them. */
  lemma ChecksAre(page: seq<AddressSignature>, before: Text)
    ensures Mentions(page, before) <==> exists i :: 0 <= i < |page| && page[i].signature == before
    ensures !NewestFirst(page) <==> exists i :: 0 < i < |page| && page[i - 1].slot < page[i].slot
  {
  }

  lemma OneAnswer(found: seq<Found>, head: AddressSignature, floor: nat, answers: seq<PageAnswer>, n: nat)
    requires n < |answers| && GoesOn(head, floor, answers, n) && Knows(found, head, floor, answers, n)
    requires n > 0 ==> IsPage(answers[n - 1])
    requires EndingAt(head, floor, answers, n).Some?
    ensures var d := Discover(found, BoundaryOf(head, answers, n), floor, n, answers[n..]); EndsAt(d, head, floor, answers, n)
  {
    assert answers[n..][0] == answers[n];
    if answers[n].Page? {
      ChecksAre(answers[n].entries, BoundaryOf(head, answers, n));
      PageMet(found, head, floor, answers, n);
      if answers[n].entries == [] { EmptyShowsNothing(found, head, floor, answers, n); }
    }
  }

  lemma EmptyShowsNothing(found: seq<Found>, head: AddressSignature, floor: nat, answers: seq<PageAnswer>, n: nat)
    requires n < |answers| && answers[n].Page? && answers[n].entries == [] && Knows(found, head, floor, answers, n)
    ensures Knows(found, head, floor, answers, n + 1)
  {
    MetMore(found, head, floor, answers, n);
    forall signature, slot: nat
      ensures Has(found, signature, slot) <==> Met(head, floor, answers, n + 1, signature, slot)
    {
      assert Either(found, [], floor, signature, slot) <==> Has(found, signature, slot);
    }
  }

  lemma LeadsToNext(head: AddressSignature, floor: nat, answers: seq<PageAnswer>, n: nat)
    requires n < |answers| && GoesOn(head, floor, answers, n) && (n > 0 ==> IsPage(answers[n - 1]))
    requires EndingAt(head, floor, answers, n).None?
    ensures IsPage(answers[n]) && GoesOn(head, floor, answers, n + 1)
    ensures !Mentions(answers[n].entries, BoundaryOf(head, answers, n)) && NewestFirst(answers[n].entries)
    ensures answers[n].recorded
    ensures !MetTwice(head, floor, answers, n + 1) && answers[n].entries[|answers[n].entries| - 1].slot >= floor
  {
    ChecksAre(answers[n].entries, BoundaryOf(head, answers, n));
    assert LeadsOn(head, floor, answers, n);
  }

  lemma AnotherAnswer(found: seq<Found>, head: AddressSignature, floor: nat, answers: seq<PageAnswer>,
      n: nat) returns (more: seq<Found>)
    requires n < |answers| && GoesOn(head, floor, answers, n) && Knows(found, head, floor, answers, n)
    requires n > 0 ==> IsPage(answers[n - 1])
    requires EndingAt(head, floor, answers, n).None?
    ensures IsPage(answers[n]) && GoesOn(head, floor, answers, n + 1) && Knows(more, head, floor, answers, n + 1)
    ensures Discover(found, BoundaryOf(head, answers, n), floor, n, answers[n..])
         == Discover(more, BoundaryOf(head, answers, n + 1), floor, n + 1, answers[n + 1..])
  {
    LeadsToNext(head, floor, answers, n);
    PageMet(found, head, floor, answers, n);
    more := AddEntries(found, answers[n].entries, floor).0;
    assert answers[n..][0] == answers[n] && answers[n..][1..] == answers[n + 1..];
  }

  lemma {:induction false} Paging(found: seq<Found>, head: AddressSignature, floor: nat, answers: seq<PageAnswer>,
      i: nat) returns (n: nat)
    requires i <= |answers| && GoesOn(head, floor, answers, i) && Knows(found, head, floor, answers, i)
    requires i > 0 ==> IsPage(answers[i - 1])
    ensures EndsAt(Discover(found, BoundaryOf(head, answers, i), floor, i, answers[i..]), head, floor, answers, n)
    decreases |answers| - i
  {
    if i == |answers| {
      n := i;
    } else if EndingAt(head, floor, answers, i).Some? {
      OneAnswer(found, head, floor, answers, i);
      n := i;
    } else {
      var more := AnotherAnswer(found, head, floor, answers, i);
      n := Paging(more, head, floor, answers, i + 1);
    }
  }

  /**
   Whatever the provider answers, the paging ends at the first answer that ends it, in the way
   that answer calls for; a discovery that is done has found exactly the head and the signatures
   at or above the floor on its pages, each at its one slot.
   */
  lemma PagingMeans(head: AddressSignature, floor: nat, answers: seq<PageAnswer>) returns (n: nat)
    ensures EndsAt(Discover(Start(head), head.signature, floor, 0, answers), head, floor, answers, n)
  {
    assert answers[0..] == answers;
    forall signature, slot: nat
      ensures Has(Start(head), signature, slot) <==> Met(head, floor, answers, 0, signature, slot)
    {
      assert Find(Start(head)[1..], signature) == None;
    }
    n := Paging(Start(head), head, floor, answers, 0);
  }
}
