/**
 What a run discovers when the provider pages through a real history: one that is newest
 first, keeps its entries and their order, and may gain entries between two pages.
 */
module Coverage {
  import opened Wrappers
  import opened Texts
  import opened EvidenceTables
  import opened RepresentationStore
  import opened Discovery

  /** An address history as a provider sees it at some moment, newest first. */
  type View = seq<AddressSignature>

  ghost predicate ValidView(v: View) {
    && (forall i, j :: 0 <= i < j < |v| ==> v[j].slot <= v[i].slot)
    && (forall i, j :: 0 <= i < j < |v| ==> v[i].signature != v[j].signature)
  }

  ghost function At(v: View, signature: Text): (i: nat)
    requires Mentions(v, signature)
    ensures i < |v| && v[i].signature == signature
  {
    var i :| 0 <= i < |v| && v[i].signature == signature;
    i
  }

  /** The later view still has every entry, in the same order. */
  ghost predicate Extends(a: View, b: View) {
    && (forall i {:trigger Mentions(b, a[i].signature)} :: 0 <= i < |a| ==> Mentions(b, a[i].signature) && b[At(b, a[i].signature)] == a[i])
    && (forall i, j {:trigger At(b, a[i].signature), At(b, a[j].signature)} :: 0 <= i < j < |a| ==> At(b, a[i].signature) < At(b, a[j].signature))
  }

  ghost function After(v: View, signature: Text): View
    requires Mentions(v, signature)
  {
    v[At(v, signature) + 1..]
  }

  /** The index of an entry behind the boundary. */
  lemma IndexAfter(v: View, before: Text, e: AddressSignature) returns (k: nat)
    requires Mentions(v, before) && e in After(v, before)
    ensures At(v, before) < k < |v| && v[k] == e
  {
    var j :| 0 <= j < |After(v, before)| && After(v, before)[j] == e;
    k := At(v, before) + 1 + j;
  }

  /** Later in one view, later in every extension. */
  lemma AfterStays(a: View, b: View, before: Text, e: AddressSignature)
    requires Extends(a, b) && Mentions(a, before) && e in After(a, before)
    ensures Mentions(b, before) && e in After(b, before)
  {
    var i := At(a, before);
    var j := IndexAfter(a, before, e);
    assert At(b, a[i].signature) < At(b, a[j].signature);
  }

  // ------------------------------------------------------------------ an honest provider

  /** A page is the next entries behind the boundary, and empty only at the end of the history. */
  ghost predicate HonestPage(v: View, before: Text, entries: seq<AddressSignature>) {
    && Mentions(v, before)
    && |entries| <= |After(v, before)| && entries == After(v, before)[..|entries|]
    && (entries == [] ==> After(v, before) == [])
  }

  /** Each page is honest for the view at the time it is asked for; any request may fail. */
  ghost predicate HonestAnswers(views: seq<View>, before: Text, answers: seq<PageAnswer>)
    requires |answers| <= |views|
    decreases |answers|
  {
    answers != [] && answers[0].Page? ==>
      && HonestPage(views[0], before, answers[0].entries)
      && (answers[0].entries != [] ==>
            HonestAnswers(views[1..], answers[0].entries[|answers[0].entries| - 1].signature, answers[1..]))
  }

  /** The views of one run, from the one the head was captured in. */
  ghost predicate ViewsGrow(v: View, views: seq<View>)
    decreases |views|
  {
    ValidView(v) && (views != [] ==> Extends(v, views[0]) && ViewsGrow(views[0], views[1..]))
  }

  ghost predicate Holds(found: seq<Found>, e: AddressSignature) {
    exists i :: 0 <= i < |found| && found[i].value == e
  }

  /** Everything the target had at capture is found already, below the floor, or still ahead. */
  ghost predicate Covers(target: View, v: View, found: seq<Found>, before: Text, floor: nat) {
    && Mentions(v, before)
    && forall i :: 0 <= i < |target| ==> target[i].slot < floor || Holds(found, target[i]) || target[i] in After(v, before)
  }

  ghost predicate FoundIn(found: seq<Found>, v: View) {
    forall i :: 0 <= i < |found| ==> found[i].value in v
  }

  // ------------------------------------------------------------------ one page

  /** In one view no two entries conflict, so a page adds exactly its entries at or above the floor. */
  lemma {:induction false} AddsAll(found: seq<Found>, entries: seq<AddressSignature>, floor: nat, v: View)
    requires ValidView(v) && FoundIn(found, v) && forall i :: 0 <= i < |entries| ==> entries[i] in v
    ensures var (more, conflict) := AddEntries(found, entries, floor);
      && !conflict && FoundIn(more, v) && found <= more
      && (forall i :: 0 <= i < |entries| && entries[i].slot >= floor ==> Holds(more, entries[i]))
      && (forall i :: |found| <= i < |more| ==> more[i].value in entries && more[i].value.slot >= floor)
    decreases |entries|
  {
    if entries != [] {
      var e := entries[0];
      assert forall i :: 0 <= i < |entries| - 1 ==> entries[1..][i] == entries[i + 1];
      FindFinds(found, e.signature);
      if e.slot < floor {
        AddsAll(found, entries[1..], floor, v);
      } else if Find(found, e.signature).Some? {
        var i :| 0 <= i < |found| && found[i].value == Find(found, e.signature).value && found[i].value.signature == e.signature;
        AddsAll(found, entries[1..], floor, v);
        assert AddEntries(found, entries, floor).0[i].value == e;
      } else {
        var next := found + [Found(e, |found|)];
        AddsAll(next, entries[1..], floor, v);
        assert AddEntries(next, entries[1..], floor).0[|found|] == next[|found|];
      }
    }
  }

  lemma PageInView(v: View, before: Text, page: seq<AddressSignature>)
    requires ValidView(v) && HonestPage(v, before, page)
    ensures (forall i :: 0 <= i < |page| ==> page[i] in v) && NewestFirst(page) && !Mentions(page, before)
  {
    var p := At(v, before) + 1;
    forall i | 0 <= i < |page| ensures page[i] == v[p + i] && page[i].signature != before {
    }
  }

  lemma CoveredByPage(capture: View, v: View, found: seq<Found>, more: seq<Found>, before: Text,
      page: seq<AddressSignature>, floor: nat)
    requires ValidView(v) && Covers(capture, v, found, before, floor) && HonestPage(v, before, page) && page != []
    requires found <= more
    requires forall i :: 0 <= i < |page| && page[i].slot >= floor ==> Holds(more, page[i])
    ensures Covers(capture, v, more, page[|page| - 1].signature, floor)
  {
    var p, last := At(v, before) + 1, |page| - 1;
    assert forall k :: 0 <= k <= last ==> page[k] == v[p + k];
    forall i | 0 <= i < |capture|
      ensures capture[i].slot < floor || Holds(more, capture[i]) || capture[i] in After(v, page[last].signature)
    {
      if Holds(found, capture[i]) {
        assert Holds(more, capture[i]);
      } else if capture[i].slot >= floor {
        var k := IndexAfter(v, before, capture[i]);
        if k <= p + last {
          assert page[k - p] == capture[i];
        } else {
        }
      }
    }
  }

  // ------------------------------------------------------------------ the whole paging loop

  /** The boundary is the head or lies behind it. */
  ghost predicate Reaches(v: View, head: Text, before: Text) {
    Mentions(v, head) && Mentions(v, before) && At(v, head) <= At(v, before)
  }

  ghost predicate FoundBehind(found: seq<Found>, v: View, head: AddressSignature, floor: nat) {
    Mentions(v, head.signature) && forall i :: 0 <= i < |found| ==> found[i].value == head || (found[i].value in After(v, head.signature) && found[i].value.slot >= floor)
  }

  /** The state of the loop between two pages, as the view shows it. */
  ghost predicate Paging(capture: View, head: AddressSignature, v: View, found: seq<Found>, before: Text, floor: nat) {
    && ValidView(v) && head in v
    && Covers(capture, v, found, before, floor)
    && FoundBehind(found, v, head, floor)
    && Reaches(v, head.signature, before)
  }

  lemma {:induction false} DistanceGrows(a: View, b: View, i: nat, j: nat)
    requires Extends(a, b) && i <= j < |a|
    ensures At(b, a[j].signature) - At(b, a[i].signature) >= j - i
    decreases j
  {
    if i < j {
      DistanceGrows(a, b, i, j - 1);
      assert At(b, a[j - 1].signature) < At(b, a[j].signature);
    }
  }

  lemma PagingCarries(capture: View, head: AddressSignature, a: View, b: View, found: seq<Found>, before: Text,
      floor: nat)
    requires Paging(capture, head, a, found, before, floor) && Extends(a, b) && ValidView(b)
    ensures Paging(capture, head, b, found, before, floor)
  {
    DistanceGrows(a, b, At(a, head.signature), At(a, before));
    assert Mentions(b, a[At(a, before)].signature);
    forall i | 0 <= i < |capture| && capture[i] in After(a, before) ensures capture[i] in After(b, before) {
      AfterStays(a, b, before, capture[i]);
    }
    BehindCarries(a, b, found, head, floor);
    var k :| 0 <= k < |a| && a[k] == head;
    assert Mentions(b, a[k].signature);
  }

  lemma BehindCarries(a: View, b: View, found: seq<Found>, head: AddressSignature, floor: nat)
    requires Extends(a, b) && FoundBehind(found, a, head, floor)
    ensures FoundBehind(found, b, head, floor)
  {
    assert Mentions(b, a[At(a, head.signature)].signature);
    forall i | 0 <= i < |found| && found[i].value != head ensures found[i].value in After(b, head.signature) {
      AfterStays(a, b, head.signature, found[i].value);
    }
  }

  /** One recorded page moves the boundary on and never conflicts. */
  lemma PagingStep(capture: View, head: AddressSignature, v: View, found: seq<Found>, before: Text, floor: nat,
      page: seq<AddressSignature>)
    requires Paging(capture, head, v, found, before, floor) && HonestPage(v, before, page) && page != []
    ensures var (more, conflict) := AddEntries(found, page, floor);
      !conflict && Paging(capture, head, v, more, page[|page| - 1].signature, floor)
  {
    PageInView(v, before, page);
    AddsAll(found, page, floor, v);
    var more := AddEntries(found, page, floor).0;
    CoveredByPage(capture, v, found, more, before, page, floor);
    forall i | 0 <= i < |more|
      ensures more[i].value == head || (more[i].value in After(v, head.signature) && more[i].value.slot >= floor)
    {
      if i < |found| { assert more[i] == found[i]; }
    }
  }

  /** The captured history at or above the floor has been found. */
  ghost predicate AllFound(capture: View, found: seq<Found>, floor: nat) {
    forall i :: 0 <= i < |capture| ==> capture[i].slot < floor || Holds(found, capture[i])
  }

  ghost predicate Unhindered(answers: seq<PageAnswer>) {
    forall k :: 0 <= k < |answers| ==> answers[k].Page? && answers[k].recorded
  }

  /** How the loop can end under an honest provider. */
  ghost predicate EndsWell(capture: View, head: AddressSignature, last: View, floor: nat, answers: seq<PageAnswer>,
      d: Discovered) {
    && (d.ending == Done ==> AllFound(capture, d.found, floor))
    && (Unhindered(answers) ==> !d.ending.Blocked?)
    && FoundBehind(d.found, last, head, floor)
  }

  /** The loop, from this state on, ends with `d`. */
  ghost predicate Leads(found: seq<Found>, before: Text, floor: nat, pages: nat, answers: seq<PageAnswer>,
      d: Discovered) {
    d == Discover(found, before, floor, pages, answers)
  }

  /**
   The loop stops without a further page: no answer, a failure, the end of the history, or a page
   that is not recorded.
   */
  lemma StopsHere(capture: View, head: AddressSignature, w: View, last: View, found: seq<Found>, before: Text,
      floor: nat, pages: nat, answers: seq<PageAnswer>, d: Discovered)
    requires Paging(capture, head, w, found, before, floor) && Extends(w, last)
    requires answers == [] || answers[0].Failed? || answers[0].entries == [] || !answers[0].recorded
    requires answers != [] && answers[0].Page? ==> HonestPage(w, before, answers[0].entries)
    requires Leads(found, before, floor, pages, answers, d)
    ensures EndsWell(capture, head, last, floor, answers, d)
  {
    BehindCarries(w, last, found, head, floor);
    if answers != [] && answers[0].Page? { PageInView(w, before, answers[0].entries); }
  }

  ghost predicate AllExtend(views: seq<View>, last: View)
    decreases |views|
  {
    views != [] ==> Extends(views[0], last) && AllExtend(views[1..], last)
  }

  /** A full page: it is taken, and the loop ends below the floor or goes on behind it. */
  ghost predicate TakesPage(answers: seq<PageAnswer>) {
    answers != [] && answers[0].Page? && answers[0].entries != [] && answers[0].recorded
  }

  ghost function Oldest(answers: seq<PageAnswer>): AddressSignature
    requires TakesPage(answers)
  {
    answers[0].entries[|answers[0].entries| - 1]
  }

  ghost function FoundNext(found: seq<Found>, answers: seq<PageAnswer>, floor: nat): seq<Found>
    requires TakesPage(answers)
  {
    AddEntries(found, answers[0].entries, floor).0
  }

  /** A page that does not reach the floor: the loop goes on behind it. */
  lemma GoesOn(capture: View, head: AddressSignature, v: View, w: View, found: seq<Found>, before: Text, floor: nat,
      pages: nat, answers: seq<PageAnswer>, d: Discovered)
    requires Paging(capture, head, v, found, before, floor) && Extends(v, w) && ValidView(w)
    requires TakesPage(answers) && HonestPage(w, before, answers[0].entries)
    requires Leads(found, before, floor, pages, answers, d) && Oldest(answers).slot >= floor
    ensures Paging(capture, head, w, FoundNext(found, answers, floor), Oldest(answers).signature, floor)
    ensures Leads(FoundNext(found, answers, floor), Oldest(answers).signature, floor, pages + 1, answers[1..], d)
  {
    PagingCarries(capture, head, v, w, found, before, floor);
    PageInView(w, before, answers[0].entries);
    PagingStep(capture, head, w, found, before, floor, answers[0].entries);
  }

  lemma DoneBelowFloor(capture: View, head: AddressSignature, w: View, last: View, found: seq<Found>, before: Text,
      page: seq<AddressSignature>, floor: nat)
    requires Paging(capture, head, w, found, before, floor) && HonestPage(w, before, page) && page != []
    requires Extends(w, last) && page[|page| - 1].slot < floor
    ensures var (more, conflict) := AddEntries(found, page, floor);
      !conflict && AllFound(capture, more, floor) && FoundBehind(more, last, head, floor)
  {
    PagingStep(capture, head, w, found, before, floor, page);
    var more := AddEntries(found, page, floor).0;
    BehindCarries(w, last, more, head, floor);
  }

  lemma EndsBelowFloor(capture: View, head: AddressSignature, w: View, last: View, found: seq<Found>, before: Text,
      floor: nat, pages: nat, answers: seq<PageAnswer>, d: Discovered)
    requires Paging(capture, head, w, found, before, floor) && TakesPage(answers)
    requires HonestPage(w, before, answers[0].entries)
    requires Extends(w, last) && Oldest(answers).slot < floor && Leads(found, before, floor, pages, answers, d)
    ensures EndsWell(capture, head, last, floor, answers, d)
  {
    PageInView(w, before, answers[0].entries);
    DoneBelowFloor(capture, head, w, last, found, before, answers[0].entries, floor);
    assert d == Discovered(FoundNext(found, answers, floor), pages + 1, Done);
  }

  /** Every way the loop has of ending with this answer. */
  lemma EndsNow(capture: View, head: AddressSignature, v: View, w: View, last: View, found: seq<Found>, before: Text,
      floor: nat, pages: nat, answers: seq<PageAnswer>, d: Discovered)
    requires Paging(capture, head, v, found, before, floor) && Extends(v, w) && ValidView(w)
    requires Extends(w, last)
    requires TakesPage(answers) ==> Oldest(answers).slot < floor
    requires answers != [] && answers[0].Page? ==> HonestPage(w, before, answers[0].entries)
    requires Leads(found, before, floor, pages, answers, d)
    ensures EndsWell(capture, head, last, floor, answers, d)
  {
    PagingCarries(capture, head, v, w, found, before, floor);
    if TakesPage(answers) {
      EndsBelowFloor(capture, head, w, last, found, before, floor, pages, answers, d);
    } else {
      StopsHere(capture, head, w, last, found, before, floor, pages, answers, d);
    }
  }

  lemma {:induction false} PagingEnds(capture: View, head: AddressSignature, v: View, views: seq<View>, last: View,
      found: seq<Found>, before: Text,
      floor: nat, pages: nat, answers: seq<PageAnswer>, d: Discovered)
    requires Paging(capture, head, v, found, before, floor)
    requires |answers| <= |views| && ViewsGrow(v, views) && HonestAnswers(views, before, answers)
    requires Extends(v, last) && AllExtend(views, last)
    requires Leads(found, before, floor, pages, answers, d)
    ensures EndsWell(capture, head, last, floor, answers, d)
    decreases |answers|
  {
    if answers == [] {
      StopsHere(capture, head, v, last, found, before, floor, pages, answers, d);
    } else if TakesPage(answers) && Oldest(answers).slot >= floor {
      GoesOn(capture, head, v, views[0], found, before, floor, pages, answers, d);
      PagingEnds(capture, head, views[0], views[1..], last, FoundNext(found, answers, floor), Oldest(answers).signature,
        floor, pages + 1, answers[1..], d);
    } else {
      EndsNow(capture, head, v, views[0], last, found, before, floor, pages, answers, d);
    }
  }

  // ------------------------------------------------------------------ how many pages

  /** The history behind the head stays bounded: late entries are finitely many. */
  ghost predicate Bounded(views: seq<View>, head: Text, bound: nat)
    decreases |views|
  {
    views != [] ==> Mentions(views[0], head) && |After(views[0], head)| <= bound && Bounded(views[1..], head, bound)
  }

  /** The boundary has `pages` entries between the head and itself, or more. */
  ghost predicate Beyond(v: View, head: Text, before: Text, pages: nat) {
    ValidView(v) && Reaches(v, head, before) && At(v, before) - At(v, head) >= pages
  }

  lemma FartherOn(v: View, w: View, head: Text, before: Text, page: seq<AddressSignature>, pages: nat)
    requires ValidView(w) && Extends(v, w) && Beyond(v, head, before, pages) && HonestPage(w, before, page)
    requires page != []
    ensures Beyond(w, head, page[|page| - 1].signature, pages + 1) && pages + 1 <= |After(w, head)|
  {
    DistanceGrows(v, w, At(v, head), At(v, before));
    assert Mentions(w, v[At(v, head)].signature) && Mentions(w, v[At(v, before)].signature);
  }

  /**
   Each page moves the boundary on, so with `bound` entries behind the head the loop asks for at
   most `bound + 1` pages.
   */
  lemma {:induction false} PagingIsBounded(head: Text, v: View, views: seq<View>, found: seq<Found>, before: Text,
      floor: nat, pages: nat, answers: seq<PageAnswer>, bound: nat, d: Discovered)
    requires Beyond(v, head, before, pages) && pages <= bound
    requires |answers| <= |views| && ViewsGrow(v, views) && HonestAnswers(views, before, answers)
    requires Bounded(views, head, bound)
    requires Leads(found, before, floor, pages, answers, d) && d.ending == Unanswered
    ensures pages + |answers| <= bound
    decreases |answers|
  {
    if answers != [] {
      FartherOn(v, views[0], head, before, answers[0].entries, pages);
      PagingIsBounded(head, views[0], views[1..], FoundNext(found, answers, floor), Oldest(answers).signature, floor,
        pages + 1, answers[1..], bound, d);
    }
  }

  // ------------------------------------------------------------------ a whole discovery

  lemma ExtendsItself(v: View)
    requires ValidView(v)
    ensures Extends(v, v)
  {
    forall i | 0 <= i < |v| ensures Mentions(v, v[i].signature) && At(v, v[i].signature) == i { }
  }

  lemma ExtendsTransitive(a: View, b: View, c: View)
    requires Extends(a, b) && Extends(b, c)
    ensures Extends(a, c)
  {
    forall i | 0 <= i < |a| ensures Mentions(c, a[i].signature) && c[At(c, a[i].signature)] == a[i] {
      assert Mentions(b, a[i].signature);
      assert Mentions(c, b[At(b, a[i].signature)].signature);
    }
    forall i, j | 0 <= i < j < |a| ensures At(c, a[i].signature) < At(c, a[j].signature) {
      assert Mentions(b, a[i].signature) && Mentions(b, a[j].signature);
      assert At(c, b[At(b, a[i].signature)].signature) < At(c, b[At(b, a[j].signature)].signature);
    }
  }

  /** The view at the end of a run. */
  function FinalView(v: View, views: seq<View>): View { if views == [] then v else views[|views| - 1] }

  lemma {:induction false} AllReachFinal(v: View, views: seq<View>)
    requires ViewsGrow(v, views)
    ensures Extends(v, FinalView(v, views)) && AllExtend(views, FinalView(v, views)) && ValidView(FinalView(v, views))
    decreases |views|
  {
    if views == [] {
      ExtendsItself(v);
    } else {
      AllReachFinal(views[0], views[1..]);
      assert FinalView(views[0], views[1..]) == FinalView(v, views);
      ExtendsTransitive(v, views[0], FinalView(v, views));
    }
  }

  function DiscoveryOf(capture: View, floor: nat, answers: seq<PageAnswer>): Discovered
    requires capture != []
  {
    Discover(Start(capture[0]), capture[0].signature, floor, 0, answers)
  }

  lemma StartsPaging(capture: View, floor: nat)
    requires ValidView(capture) && capture != []
    ensures Paging(capture, capture[0], capture, Start(capture[0]), capture[0].signature, floor)
    ensures At(capture, capture[0].signature) == 0
  {
    forall i | 0 < i < |capture| ensures capture[i] in After(capture, capture[0].signature) { }
    assert Start(capture[0])[0].value == capture[0];
  }

  /**
   From any captured history: a discovery that runs to its end has found every captured entry
   at or above the floor, late entries or not; only a failed request or an unrecorded page can
   block it; and it finds nothing but the head and entries behind it at or above the floor.
   */
  lemma DiscoveryCovers(capture: View, views: seq<View>, floor: nat, answers: seq<PageAnswer>)
    requires capture != [] && |answers| <= |views| && ViewsGrow(capture, views)
    requires HonestAnswers(views, capture[0].signature, answers)
    ensures EndsWell(capture, capture[0], FinalView(capture, views), floor, answers, DiscoveryOf(capture, floor, answers))
  {
    StartsPaging(capture, floor);
    AllReachFinal(capture, views);
    PagingEnds(capture, capture[0], capture, views, FinalView(capture, views), Start(capture[0]), capture[0].signature,
      floor, 0, answers, DiscoveryOf(capture, floor, answers));
  }

  /** With at most `bound` entries behind the head at any time, `bound + 1` answers are always enough. */
  lemma DiscoveryEnds(capture: View, views: seq<View>, floor: nat, answers: seq<PageAnswer>, bound: nat)
    requires capture != [] && |answers| <= |views| && ViewsGrow(capture, views)
    requires HonestAnswers(views, capture[0].signature, answers)
    requires bound < |answers| && Bounded(views, capture[0].signature, bound)
    ensures DiscoveryOf(capture, floor, answers).ending != Unanswered
  {
    StartsPaging(capture, floor);
    if DiscoveryOf(capture, floor, answers).ending == Unanswered {
      PagingIsBounded(capture[0].signature, capture, views, Start(capture[0]), capture[0].signature, floor, 0, answers,
        bound, DiscoveryOf(capture, floor, answers));
    }
  }

  function Values(found: seq<Found>): set<AddressSignature> { set f | f in found :: f.value }

  /** The captured head, and every older captured entry at or above the floor. */
  function Due(capture: View, floor: nat): set<AddressSignature>
    requires capture != []
  {
    {capture[0]} + (set e | e in capture && e.slot >= floor)
  }

  /** Findings that are behind the head, and all of those that are due, are exactly the due ones. */
  lemma FoundAreDue(capture: View, last: View, found: seq<Found>, floor: nat)
    requires capture != [] && Mentions(last, capture[0].signature) && After(last, capture[0].signature) == capture[1..]
    requires AllFound(capture, found, floor) && FoundBehind(found, last, capture[0], floor) && Holds(found, capture[0])
    ensures Values(found) == Due(capture, floor)
  {
    forall e | e in Due(capture, floor) ensures e in Values(found) {
      if e != capture[0] {
        var i :| 0 <= i < |capture| && capture[i] == e;
        assert Holds(found, capture[i]);
      }
      var k :| 0 <= k < |found| && found[k].value == e;
      assert found[k] in found;
    }
  }

  /** When the history only grows at its front while the run pages, the run finds exactly what is due. */
  lemma DiscoveryIsExact(capture: View, views: seq<View>, floor: nat, answers: seq<PageAnswer>, arrived: View)
    requires capture != [] && |answers| <= |views| && ViewsGrow(capture, views)
    requires HonestAnswers(views, capture[0].signature, answers)
    requires FinalView(capture, views) == arrived + capture
    requires DiscoveryOf(capture, floor, answers).ending == Done
    ensures Values(DiscoveryOf(capture, floor, answers).found) == Due(capture, floor)
  {
    DiscoveryCovers(capture, views, floor, answers);
    AllReachFinal(capture, views);
    var d, last := DiscoveryOf(capture, floor, answers), FinalView(capture, views);
    AfterHead(capture, arrived, last);
    HeadIsFound(capture[0], floor, answers);
    FoundAreDue(capture, last, d.found, floor);
  }

  lemma AfterHead(capture: View, arrived: View, last: View)
    requires capture != [] && ValidView(last) && last == arrived + capture
    ensures Mentions(last, capture[0].signature) && After(last, capture[0].signature) == capture[1..]
  {
    assert last[|arrived|] == capture[0];
  }

  lemma HeadIsFound(head: AddressSignature, floor: nat, answers: seq<PageAnswer>)
    ensures Holds(Discover(Start(head), head.signature, floor, 0, answers).found, head)
  {
    DiscoverCounts(Start(head), head.signature, floor, 0, answers);
    assert Discover(Start(head), head.signature, floor, 0, answers).found[0] == Start(head)[0];
  }

  // ------------------------------------------------------------------ entries that come late

  /** New entries are at most `overlap` slots behind the tip of the history they join. */
  ghost predicate GrowsWithin(a: View, b: View, overlap: nat) {
    && ValidView(a) && ValidView(b) && Extends(a, b)
    && forall i :: 0 <= i < |b| && b[i] !in a && a != [] ==> b[i].slot + overlap >= a[0].slot
  }

  ghost predicate AllGrowWithin(v: View, views: seq<View>, overlap: nat)
    decreases |views|
  {
    ValidView(v) && (views != [] ==> GrowsWithin(v, views[0], overlap) && AllGrowWithin(views[0], views[1..], overlap))
  }

  lemma {:induction false} GrowingIsGrowing(v: View, views: seq<View>, overlap: nat)
    requires AllGrowWithin(v, views, overlap)
    ensures ViewsGrow(v, views)
    decreases |views|
  {
    if views != [] { GrowingIsGrowing(views[0], views[1..], overlap); }
  }

  /** The tip of a history never falls back. */
  lemma TipRises(a: View, b: View)
    requires a != [] && ValidView(b) && Extends(a, b)
    ensures b != [] && b[0].slot >= a[0].slot
  {
    assert Mentions(b, a[0].signature);
    assert b[At(b, a[0].signature)] == a[0];
  }

  lemma GrowthAddsUp(a: View, b: View, c: View, overlap: nat)
    requires GrowsWithin(a, b, overlap) && GrowsWithin(b, c, overlap)
    ensures GrowsWithin(a, c, overlap)
  {
    ExtendsTransitive(a, b, c);
    if a != [] { TipRises(a, b); }
    forall i | 0 <= i < |c| && c[i] !in a && a != [] ensures c[i].slot + overlap >= a[0].slot {
      if c[i] in b {
        var j :| 0 <= j < |b| && b[j] == c[i];
        assert b[j] !in a;
      }
    }
  }

  lemma {:induction false} RunGrowsWithin(v: View, views: seq<View>, overlap: nat)
    requires AllGrowWithin(v, views, overlap)
    ensures GrowsWithin(v, FinalView(v, views), overlap)
    decreases |views|
  {
    if views == [] {
      ExtendsItself(v);
    } else {
      RunGrowsWithin(views[0], views[1..], overlap);
      assert FinalView(views[0], views[1..]) == FinalView(v, views);
      GrowthAddsUp(v, views[0], FinalView(v, views), overlap);
    }
  }
}
