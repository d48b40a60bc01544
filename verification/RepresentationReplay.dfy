/** Recording the same evidence again adds nothing. */
module RepresentationReplay {
  import opened Wrappers
  import opened Texts
  import opened TransferParser
  import opened ParsingDigest
  import opened EvidenceTables
  import opened RepresentationStore

  predicate Distinct(references: seq<Text>) {
    forall i, j :: 0 <= i < j < |references| ==> references[i] != references[j]
  }

  function SetOf(references: seq<Text>): set<Text> { set r | r in references }

  lemma {:induction false} DistinctCounts(references: seq<Text>)
    requires Distinct(references)
    ensures multiset(SetOf(references)) == multiset(references)
  {
    if references != [] {
      var last := |references| - 1;
      var init, x := references[..last], references[last];
      DistinctCounts(init);
      assert references == init + [x];
      assert SetOf(references) == SetOf(init) + {x} && x !in SetOf(init);
    }
  }

  lemma RepeatCounts(references: seq<Text>, i: nat, j: nat)
    requires i < j < |references| && references[i] == references[j]
    ensures multiset(references)[references[i]] >= 2
  {
    assert references == references[..j] + references[j..];
    assert references[i] in references[..j] && references[i] in references[j..];
  }

  /** Stored references, being distinct, match the list exactly when it repeats none. */
  lemma DistinctMatches(references: seq<Text>)
    ensures SameReferences(SetOf(references), references) <==> Distinct(references)
  {
    if Distinct(references) {
      DistinctCounts(references);
    } else {
      var i, j :| 0 <= i < j < |references| && references[i] == references[j];
      RepeatCounts(references, i, j);
      assert multiset(SetOf(references))[references[i]] <= 1;
    }
  }

  // ------------------------------------------------------------------ inputs as a sync run makes them

  /** Nothing but the signature itself. */
  predicate Bare(input: Input) { input.snapshot.None? && input.transaction.None? && input.transfers == [] }

  /** The transfers are those of the input's own transaction, each at a place of its own. */
  predicate OwnTransfers(input: Input) {
    && (input.transaction.Some? ==>
          forall i :: 0 <= i < |input.transfers| ==>
            var x := input.transfers[i];
            x.signature == input.discovered.signature
              && x.eventId == EventId(input.transaction.value.cluster, x.signature, x.outerInstructionIndex, x.innerInstructionIndex))
    && (forall i, j :: 0 <= i < j < |input.transfers| ==> input.transfers[i].eventId != input.transfers[j].eventId)
  }

  predicate DistinctReferences(input: Input) {
    forall i :: 0 <= i < |input.transfers| ==> Distinct(input.transfers[i].references)
  }

  /** The foreign keys: only stored events have normalized transfers and references. */
  predicate BookSound(book: Book) {
    && (forall key :: key in book.normalized ==> key.eventId in book.events)
    && (forall id :: id in book.references ==> id in book.events)
  }

  // ------------------------------------------------------------------ recording settles

  /** All an event's tables hold exactly this transfer. */
  predicate StoredExactly(book: Book, cluster: Cluster, version: Text, x: ParsedTransfer) {
    var key := NormalizedKey(x.eventId, version);
    && x.eventId in book.events && PlacedAt(book.events[x.eventId], cluster, x)
    && key in book.normalized && book.normalized[key] == NormalizedOf(x)
    && x.eventId in book.references && book.references[x.eventId] == SetOf(x.references)
  }

  /** The two books agree on everything under one event id. */
  predicate AgreeOn(a: Book, b: Book, id: Text, version: Text) {
    var key := NormalizedKey(id, version);
    && (id in a.events <==> id in b.events) && (id in a.events ==> a.events[id] == b.events[id])
    && (key in a.normalized <==> key in b.normalized) && (key in a.normalized ==> a.normalized[key] == b.normalized[key])
    && (id in a.references <==> id in b.references) && (id in a.references ==> a.references[id] == b.references[id])
  }

  lemma SameSets(stored: set<Text>, references: seq<Text>)
    requires SameReferences(stored, references)
    ensures stored == SetOf(references)
  {
    forall r ensures r in stored <==> r in references {
      assert r in stored <==> r in multiset(stored);
    }
  }

  lemma InsertStores(book: Book, cluster: Cluster, rawId: nat, version: Text, x: ParsedTransfer)
    requires BookSound(book) && InsertTransfer(book, cluster, rawId, version, x).Ok?
    requires !EventConflict(book, cluster, version, x)
    ensures var next := InsertTransfer(book, cluster, rawId, version, x).value.0;
      BookSound(next) && StoredExactly(next, cluster, version, x) && forall id :: id != x.eventId ==> AgreeOn(book, next, id, version)
  {
    if x.eventId in book.events { SameSets(ReferencesOf(book, x.eventId), x.references); }
  }

  predicate Unmentioned(transfers: seq<ParsedTransfer>, id: Text) {
    forall i :: 0 <= i < |transfers| ==> transfers[i].eventId != id
  }

  lemma StoredStays(a: Book, b: Book, cluster: Cluster, version: Text, x: ParsedTransfer)
    requires StoredExactly(a, cluster, version, x) && AgreeOn(a, b, x.eventId, version)
    ensures StoredExactly(b, cluster, version, x)
  {
  }

  lemma {:induction false} InsertsStore(book: Book, cluster: Cluster, rawId: nat, version: Text,
      transfers: seq<ParsedTransfer>)
    requires BookSound(book) && InsertTransfers(book, cluster, rawId, version, transfers).Ok?
    requires !AnyConflict(book, cluster, version, transfers)
    requires forall i, j :: 0 <= i < j < |transfers| ==> transfers[i].eventId != transfers[j].eventId
    ensures var next := InsertTransfers(book, cluster, rawId, version, transfers).value.0;
      && BookSound(next)
      && (forall i :: 0 <= i < |transfers| ==> StoredExactly(next, cluster, version, transfers[i]))
      && (forall id :: Unmentioned(transfers, id) ==> AgreeOn(book, next, id, version))
  {
    if transfers != [] {
      var last := |transfers| - 1;
      var init, x := transfers[..last], transfers[last];
      assert forall i :: 0 <= i < last ==> !EventConflict(book, cluster, version, init[i]) by {
        assert forall i :: 0 <= i < last ==> init[i] == transfers[i];
      }
      InsertsStore(book, cluster, rawId, version, init);
      var mid := InsertTransfers(book, cluster, rawId, version, init).value.0;
      var next := InsertTransfer(mid, cluster, rawId, version, x).value.0;
      assert Unmentioned(init, x.eventId);
      assert !EventConflict(book, cluster, version, x);
      InsertStores(mid, cluster, rawId, version, x);
      AllStored(book, mid, next, cluster, version, transfers);
    }
  }

  lemma AllStored(book: Book, mid: Book, next: Book, cluster: Cluster, version: Text, transfers: seq<ParsedTransfer>)
    requires transfers != [] && forall i, j :: 0 <= i < j < |transfers| ==> transfers[i].eventId != transfers[j].eventId
    requires var last := |transfers| - 1;
      && (forall i :: 0 <= i < last ==> StoredExactly(mid, cluster, version, transfers[..last][i]))
      && (forall id :: Unmentioned(transfers[..last], id) ==> AgreeOn(book, mid, id, version))
      && StoredExactly(next, cluster, version, transfers[last])
      && (forall id :: id != transfers[last].eventId ==> AgreeOn(mid, next, id, version))
    ensures forall i :: 0 <= i < |transfers| ==> StoredExactly(next, cluster, version, transfers[i])
    ensures forall id :: Unmentioned(transfers, id) ==> AgreeOn(book, next, id, version)
  {
    var last := |transfers| - 1;
    var init := transfers[..last];
    forall i | 0 <= i < last ensures StoredExactly(next, cluster, version, transfers[i]) {
      assert init[i] == transfers[i];
      StoredStays(mid, next, cluster, version, init[i]);
    }
    forall id | Unmentioned(transfers, id) ensures AgreeOn(book, next, id, version) {
      assert Unmentioned(init, id) && id != transfers[last].eventId;
      assert AgreeOn(book, mid, id, version) && AgreeOn(mid, next, id, version);
    }
  }

  lemma {:induction false} StoredInsertsNothing(book: Book, cluster: Cluster, rawId: nat, version: Text,
      transfers: seq<ParsedTransfer>)
    requires forall i :: 0 <= i < |transfers| ==> StoredExactly(book, cluster, version, transfers[i])
    ensures InsertTransfers(book, cluster, rawId, version, transfers) == Ok((book, 0))
  {
    if transfers != [] {
      var last := |transfers| - 1;
      StoredInsertsNothing(book, cluster, rawId, version, transfers[..last]);
      StoredInsertsNone(book, cluster, rawId, version, transfers[last]);
    }
  }

  lemma StoredInsertsNone(book: Book, cluster: Cluster, rawId: nat, version: Text, x: ParsedTransfer)
    requires StoredExactly(book, cluster, version, x)
    ensures InsertTransfer(book, cluster, rawId, version, x) == Ok((book, 0))
  {
    assert ReferencesOf(book, x.eventId) + SetOf(x.references) == book.references[x.eventId];
    assert book.references[x.eventId := book.references[x.eventId]] == book.references;
  }

  /** Stored transfers conflict with their own replay exactly when some reference is repeated. */
  lemma StoredConflicts(book: Book, cluster: Cluster, version: Text, transfers: seq<ParsedTransfer>)
    requires forall i :: 0 <= i < |transfers| ==> StoredExactly(book, cluster, version, transfers[i])
    ensures AnyConflict(book, cluster, version, transfers) <==> exists i :: 0 <= i < |transfers| && !Distinct(transfers[i].references)
  {
    forall i | 0 <= i < |transfers|
      ensures EventConflict(book, cluster, version, transfers[i]) <==> !Distinct(transfers[i].references)
    {
      DistinctMatches(transfers[i].references);
    }
  }

  // ------------------------------------------------------------------ settled inputs

  /** The events are as the decision on the input would leave them. */
  predicate EventsSettled(book: Book, input: Input, classification: Class) {
    input.transaction.Some? ==>
      var cluster := input.transaction.value.cluster;
      && (classification == Parsed ==> forall i :: 0 <= i < |input.transfers| ==> StoredExactly(book, cluster, input.parserVersion, input.transfers[i]))
      && (classification == Quarantined ==> QuarantineEvents(book.events, cluster, input.discovered.signature) == book.events)
  }

  /** Everything the input has to add is there. */
  predicate Settled(t: Tables, input: Input) {
    && KeyOf(input) in t.rows
    && (HasBody(input) ==> RawOf(input) in t.raws)
    && EventsSettled(t.book, input, Decide(t, input).classification)
    && !Reports(t, input)
  }

  /** Nothing but the row's class and finality state can change. */
  predicate AddsNothing(t: Tables, u: Tables) {
    && u.rows.Keys == t.rows.Keys && (forall key :: key in t.rows ==> u.rows[key].slot == t.rows[key].slot)
    && u.raws == t.raws && u.book == t.book && u.quarantines == t.quarantines
  }

  lemma SettledEvents(t: Tables, input: Input)
    requires Settled(t, input)
    ensures EventsAfter(t, input) == Ok((t.book, 0)) && RawsAfter(t.raws, input) == t.raws
  {
    if HasBody(input) && Decide(t, input).classification == Parsed {
      StoredInsertsNothing(t.book, input.transaction.value.cluster, RawIdAfter(t.raws, input).value,
        input.parserVersion, input.transfers);
    }
  }

  lemma SettledAddsNothing(t: Tables, runtime: Runtime, input: Input)
    requires Settled(t, input)
    ensures var (u, result) := AfterRepresentation(t, runtime, input); AddsNothing(t, u) && result == Ok(Recorded(false, 0, false))
  {
    SettledEvents(t, input);
  }

  // ------------------------------------------------------------------ one recording, seen again

  lemma {:induction false} FirstDigestAfter(raws: seq<RawTransaction>, raw: RawTransaction, more: RawTransaction)
    ensures FirstDigest(raws + [more], raw) ==
      if FirstDigest(raws, raw).Some? then FirstDigest(raws, raw) else if SameSource(more, raw) then Some(more.digest) else None
  {
    if raws == [] {
      assert raws + [more] == [more];
    } else {
      FirstDigestAfter(raws[1..], raw, more);
      assert (raws + [more])[1..] == raws[1..] + [more];
    }
  }

  lemma RawCheckAgain(raws: seq<RawTransaction>, input: Input, decision: Decision)
    ensures AfterRawCheck(RawsAfter(raws, input), input, decision) == AfterRawCheck(raws, input, decision)
    ensures RawsAfter(RawsAfter(raws, input), input) == RawsAfter(raws, input)
  {
    if HasBody(input) { FirstDigestAfter(raws, RawOf(input), RawOf(input)); }
  }

  lemma QuarantineSeesTheSame(book: Book, cluster: Cluster, signature: Text, on: Cluster, version: Text,
      x: ParsedTransfer)
    ensures EventConflict(book.(events := QuarantineEvents(book.events, cluster, signature)), on, version, x)
      == EventConflict(book, on, version, x)
  {
    var events := QuarantineEvents(book.events, cluster, signature);
    assert forall id :: id in events ==> PlacedAt(events[id], on, x) == PlacedAt(book.events[id], on, x);
    if PlaceTaken(book.events, on, x) {
      var id :| id in book.events && PlacedAt(book.events[id], on, x);
      assert id in events && PlacedAt(events[id], on, x);
    }
  }

  lemma QuarantineConflictsTheSame(book: Book, cluster: Cluster, signature: Text, on: Cluster, version: Text,
      transfers: seq<ParsedTransfer>)
    ensures AnyConflict(book.(events := QuarantineEvents(book.events, cluster, signature)), on, version, transfers)
      == AnyConflict(book, on, version, transfers)
  {
    forall i | 0 <= i < |transfers|
      ensures EventConflict(book.(events := QuarantineEvents(book.events, cluster, signature)), on, version, transfers[i]) == EventConflict(book, on, version, transfers[i])
    {
      QuarantineSeesTheSame(book, cluster, signature, on, version, transfers[i]);
    }
  }

  lemma QuarantineTwice(events: ChainEvents, cluster: Cluster, signature: Text)
    ensures QuarantineEvents(QuarantineEvents(events, cluster, signature), cluster, signature)
      == QuarantineEvents(events, cluster, signature)
  {
  }

  /** The decision before the events are looked at. */
  function EarlyDecision(t: Tables, input: Input): Decision {
    AfterRawCheck(t.raws, input, AfterSlotCheck(t.rows, input))
  }

  /** Recording an input again meets the same early decision. */
  lemma EarlyDecisionAgain(t: Tables, runtime: Runtime, input: Input)
    requires AfterRepresentation(t, runtime, input).1.Ok?
    ensures EarlyDecision(AfterRepresentation(t, runtime, input).0, input) == EarlyDecision(t, input)
  {
    RawCheckAgain(t.raws, input, AfterSlotCheck(t.rows, input));
  }

  /** The book a parsed recording leaves holds its transfers exactly, so it does not conflict again. */
  lemma EventsAgain(book: Book, input: Input, decision: Decision, rawId: nat)
    requires BookSound(book) && OwnTransfers(input) && DistinctReferences(input) && input.transaction.Some?
    requires decision.classification == Parsed && AfterEventCheck(book, input, decision) == decision
    requires InsertTransfers(book, input.transaction.value.cluster, rawId, input.parserVersion, input.transfers).Ok?
    ensures var next := InsertTransfers(book, input.transaction.value.cluster, rawId, input.parserVersion, input.transfers).value.0;
      AfterEventCheck(next, input, decision) == decision && EventsSettled(next, input, Parsed)
  {
    var cluster, version := input.transaction.value.cluster, input.parserVersion;
    InsertsStore(book, cluster, rawId, version, input.transfers);
    StoredConflicts(InsertTransfers(book, cluster, rawId, version, input.transfers).value.0, cluster, version,
      input.transfers);
  }

  /** Paired evidence: a snapshot comes with its transaction. */
  predicate Whole(input: Input) { input.snapshot.Some? <==> input.transaction.Some? }

  /** What the calls of a sync run have in common; the source of distinct references is the transaction itself. */
  predicate Replayable(input: Input) { OwnTransfers(input) && DistinctReferences(input) && Whole(input) }

  lemma BookAgain(t: Tables, runtime: Runtime, input: Input)
    requires BookSound(t.book) && Replayable(input) && AfterRepresentation(t, runtime, input).1.Ok?
    ensures var u := AfterRepresentation(t, runtime, input).0;
      Decide(u, input) == Decide(t, input) && EventsSettled(u.book, input, Decide(t, input).classification)
  {
    EarlyDecisionAgain(t, runtime, input);
    if input.transaction.Some? {
      var cluster := input.transaction.value.cluster;
      if Decide(t, input).classification == Parsed {
        EventsAgain(t.book, input, Decide(t, input), RawIdAfter(t.raws, input).value);
      } else if Decide(t, input).classification == Quarantined {
        QuarantineConflictsTheSame(t.book, cluster, input.discovered.signature, cluster, input.parserVersion,
          input.transfers);
        QuarantineTwice(t.book.events, cluster, input.discovered.signature);
      }
    }
  }

  /** Evidence once recorded is settled. */
  lemma RecordingSettles(t: Tables, runtime: Runtime, input: Input)
    requires BookSound(t.book) && Replayable(input) && AfterRepresentation(t, runtime, input).1.Ok?
    ensures Settled(AfterRepresentation(t, runtime, input).0, input)
  {
    BookAgain(t, runtime, input);
  }

  /**
   A parsed recording is parsed again exactly when no transfer repeats a reference; otherwise its
   replay is quarantined.
   */
  lemma ReplayParsesIffDistinct(t: Tables, runtime: Runtime, input: Input)
    requires BookSound(t.book) && OwnTransfers(input) && HasBody(input) && AfterRepresentation(t, runtime, input).1.Ok?
    requires Decide(t, input).classification == Parsed
    ensures var u := AfterRepresentation(t, runtime, input).0;
      Decide(u, input).classification == (if DistinctReferences(input) then Parsed else Quarantined)
  {
    EarlyDecisionAgain(t, runtime, input);
    var cluster, rawId := input.transaction.value.cluster, RawIdAfter(t.raws, input).value;
    InsertsStore(t.book, cluster, rawId, input.parserVersion, input.transfers);
    StoredConflicts(InsertTransfers(t.book, cluster, rawId, input.parserVersion, input.transfers).value.0, cluster,
      input.parserVersion, input.transfers);
  }

  // ------------------------------------------------------------------ other recordings leave it settled

  /** The books differ only in events of one signature, and there never in the place of an event. */
  ghost predicate OnlyTouches(a: Book, b: Book, signature: Text) {
    && (forall id :: id in a.events ==> id in b.events && b.events[id].(state := a.events[id].state) == a.events[id])
    && (forall id, version :: id in a.events && a.events[id].signature != signature ==> AgreeOn(a, b, id, version))
    && (forall id :: id in b.events && id !in a.events ==> b.events[id].signature == signature)
  }

  lemma InsertTouches(a: Book, mid: Book, cluster: Cluster, rawId: nat, version: Text, x: ParsedTransfer)
    requires OnlyTouches(a, mid, x.signature) && BookSound(mid) && InsertTransfer(mid, cluster, rawId, version, x).Ok?
    requires x.eventId in a.events ==> PlacedAt(a.events[x.eventId], cluster, x)
    ensures var next := InsertTransfer(mid, cluster, rawId, version, x).value.0;
      OnlyTouches(a, next, x.signature) && BookSound(next)
  {
    var next := InsertTransfer(mid, cluster, rawId, version, x).value.0;
    forall id, v | id in a.events && a.events[id].signature != x.signature ensures AgreeOn(a, next, id, v) {
      assert AgreeOn(a, mid, id, v) && id != x.eventId;
    }
  }

  lemma {:induction false} InsertsTouch(book: Book, cluster: Cluster, rawId: nat, version: Text,
      transfers: seq<ParsedTransfer>, signature: Text)
    requires BookSound(book) && InsertTransfers(book, cluster, rawId, version, transfers).Ok?
    requires !AnyConflict(book, cluster, version, transfers)
    requires forall i :: 0 <= i < |transfers| ==> transfers[i].signature == signature
    ensures var next := InsertTransfers(book, cluster, rawId, version, transfers).value.0; OnlyTouches(book, next, signature) && BookSound(next)
  {
    if transfers != [] {
      var last := |transfers| - 1;
      assert forall i :: 0 <= i < last ==> transfers[..last][i] == transfers[i];
      InsertsTouch(book, cluster, rawId, version, transfers[..last], signature);
      assert !EventConflict(book, cluster, version, transfers[last]);
      InsertTouches(book, InsertTransfers(book, cluster, rawId, version, transfers[..last]).value.0, cluster, rawId,
        version, transfers[last]);
    }
  }

  /** A recording touches the events of its own signature only. */
  lemma RecordingTouches(t: Tables, input: Input)
    requires BookSound(t.book) && OwnTransfers(input) && EventsAfter(t, input).Ok?
    ensures var next := EventsAfter(t, input).value.0; OnlyTouches(t.book, next, input.discovered.signature) && BookSound(next)
  {
    if HasBody(input) && Decide(t, input).classification == Parsed {
      InsertsTouch(t.book, input.transaction.value.cluster, RawIdAfter(t.raws, input).value, input.parserVersion,
        input.transfers, input.discovered.signature);
    }
  }

  lemma StoredUntouched(a: Book, b: Book, cluster: Cluster, version: Text, x: ParsedTransfer, signature: Text)
    requires OnlyTouches(a, b, signature) && x.signature != signature && StoredExactly(a, cluster, version, x)
    ensures StoredExactly(b, cluster, version, x)
  {
    assert AgreeOn(a, b, x.eventId, version);
  }

  /** A conflict stays one. */
  lemma ConflictUntouched(a: Book, b: Book, cluster: Cluster, version: Text, x: ParsedTransfer, signature: Text)
    requires OnlyTouches(a, b, signature) && x.signature != signature && EventConflict(a, cluster, version, x)
    ensures EventConflict(b, cluster, version, x)
  {
    if x.eventId in a.events {
      assert a.events[x.eventId].signature != signature ==> AgreeOn(a, b, x.eventId, version);
    } else {
      var id :| id in a.events && PlacedAt(a.events[id], cluster, x);
      assert PlacedAt(b.events[id], cluster, x);
    }
  }

  /** The same verdict on the events of an input after another signature's recording. */
  lemma EventCheckUntouched(a: Book, b: Book, input: Input, decision: Decision, signature: Text)
    requires OnlyTouches(a, b, signature) && input.discovered.signature != signature && OwnTransfers(input)
    requires EventsSettled(a, input, AfterEventCheck(a, input, decision).classification)
    ensures AfterEventCheck(b, input, decision) == AfterEventCheck(a, input, decision)
    ensures EventsSettled(b, input, AfterEventCheck(a, input, decision).classification)
  {
    if input.transaction.Some? {
      var cluster, version := input.transaction.value.cluster, input.parserVersion;
      if AfterEventCheck(a, input, decision).classification == Parsed {
        forall i | 0 <= i < |input.transfers| ensures StoredExactly(b, cluster, version, input.transfers[i]) {
          StoredUntouched(a, b, cluster, version, input.transfers[i], signature);
        }
        StoredConflicts(a, cluster, version, input.transfers);
        StoredConflicts(b, cluster, version, input.transfers);
      } else if AnyConflict(a, cluster, version, input.transfers) {
        var i :| 0 <= i < |input.transfers| && EventConflict(a, cluster, version, input.transfers[i]);
        ConflictUntouched(a, b, cluster, version, input.transfers[i], signature);
      }
      if AfterEventCheck(a, input, decision).classification == Quarantined {
        QuarantineUntouched(a, b, cluster, input.discovered.signature, signature);
      }
    }
  }

  lemma QuarantineUntouched(a: Book, b: Book, cluster: Cluster, own: Text, signature: Text)
    requires OnlyTouches(a, b, signature) && own != signature && QuarantineEvents(a.events, cluster, own) == a.events
    ensures QuarantineEvents(b.events, cluster, own) == b.events
  {
    forall id | id in b.events && b.events[id].signature == own && b.events[id].cluster == cluster
      ensures b.events[id].state == QuarantinedState
    {
      assert AgreeOn(a, b, id, []);
      assert QuarantineEvents(a.events, cluster, own)[id] == a.events[id];
    }
  }

  /** A recording keeps what is early decided of a settled input: slots stay, and raw transactions are only added. */
  lemma EarlyDecisionKept(t: Tables, runtime: Runtime, input: Input, other: Input)
    requires KeyOf(input) in t.rows
    requires HasBody(input) ==> RawOf(input) in t.raws
    requires AfterRepresentation(t, runtime, other).1.Ok?
    ensures var u := AfterRepresentation(t, runtime, other).0;
      && EarlyDecision(u, input) == EarlyDecision(t, input) && KeyOf(input) in u.rows && (HasBody(input) ==> RawOf(input) in u.raws)
  {
    if HasBody(input) {
      FirstDigestFound(t.raws, RawOf(input));
      if HasBody(other) { FirstDigestAfter(t.raws, RawOf(input), RawOf(other)); }
    }
  }

  lemma {:induction false} FirstDigestFound(raws: seq<RawTransaction>, raw: RawTransaction)
    requires raw in raws
    ensures FirstDigest(raws, raw).Some?
  {
    if !SameSource(raws[0], raw) { FirstDigestFound(raws[1..], raw); }
  }

  /** Another recording, of another signature or without evidence, leaves a settled input settled. */
  lemma StaysSettled(t: Tables, runtime: Runtime, input: Input, other: Input)
    requires BookSound(t.book) && OwnTransfers(input) && OwnTransfers(other) && Settled(t, input)
    requires AfterRepresentation(t, runtime, other).1.Ok?
    requires Bare(input) || Bare(other) || input.discovered.signature != other.discovered.signature
    ensures Settled(AfterRepresentation(t, runtime, other).0, input)
  {
    var u := AfterRepresentation(t, runtime, other).0;
    EarlyDecisionKept(t, runtime, input, other);
    if !Bare(input) && !Bare(other) {
      RecordingTouches(t, other);
      EventCheckUntouched(t.book, u.book, input, EarlyDecision(t, input), other.discovered.signature);
    }
    assert Decide(u, input) == Decide(t, input);
  }

  // ------------------------------------------------------------------ whole runs

  /** The recordings of a run, one after another. */
  function RecordAll(t: Tables, runtime: Runtime, inputs: seq<Input>): (r: (Tables, seq<Result<Recorded, StoreError>>))
    ensures |r.1| == |inputs|
  {
    if inputs == [] then (t, [])
    else
      var last := |inputs| - 1;
      var (u, results) := RecordAll(t, runtime, inputs[..last]);
      var (v, result) := AfterRepresentation(u, runtime, inputs[last]);
      (v, results + [result])
  }

  predicate AllOk(results: seq<Result<Recorded, StoreError>>) {
    forall i :: 0 <= i < |results| ==> results[i].Ok?
  }

  /** Each signature has at most one input with evidence, as in one sync run. */
  predicate OneEach(inputs: seq<Input>) {
    forall i, j :: 0 <= i < j < |inputs| ==> Bare(inputs[i]) || Bare(inputs[j]) || inputs[i].discovered.signature != inputs[j].discovered.signature
  }

  lemma AllOkBefore(results: seq<Result<Recorded, StoreError>>, result: Result<Recorded, StoreError>)
    requires AllOk(results + [result])
    ensures AllOk(results) && result.Ok?
  {
    var all := results + [result];
    assert all[|results|] == result;
    forall i | 0 <= i < |results| ensures results[i].Ok? { assert all[i] == results[i]; }
  }

  /** One more recording of a run, after the earlier ones are settled. */
  lemma OneMoreSettles(u: Tables, runtime: Runtime, init: seq<Input>, input: Input)
    requires BookSound(u.book) && Replayable(input) && AfterRepresentation(u, runtime, input).1.Ok?
    requires forall i :: 0 <= i < |init| ==> Replayable(init[i]) && Settled(u, init[i])
    requires forall i ::
      0 <= i < |init| ==> Bare(init[i]) || Bare(input) || init[i].discovered.signature != input.discovered.signature
    ensures var v := AfterRepresentation(u, runtime, input).0;
      BookSound(v.book) && Settled(v, input) && forall i :: 0 <= i < |init| ==> Settled(v, init[i])
  {
    RecordingSettles(u, runtime, input);
    RecordingTouches(u, input);
    forall i | 0 <= i < |init| ensures Settled(AfterRepresentation(u, runtime, input).0, init[i]) {
      StaysSettled(u, runtime, init[i], input);
    }
  }

  /** A run whose recordings all went through is one whose earlier ones did, and one more. */
  lemma LastRecorded(t: Tables, runtime: Runtime, inputs: seq<Input>)
    requires inputs != [] && AllOk(RecordAll(t, runtime, inputs).1)
    ensures var init, input := inputs[..|inputs| - 1], inputs[|inputs| - 1];
      var (u, results) := RecordAll(t, runtime, init);
      && AllOk(results) && AfterRepresentation(u, runtime, input).1.Ok?
      && RecordAll(t, runtime, inputs).0 == AfterRepresentation(u, runtime, input).0
  {
    var (u, results) := RecordAll(t, runtime, inputs[..|inputs| - 1]);
    AllOkBefore(results, AfterRepresentation(u, runtime, inputs[|inputs| - 1]).1);
  }

  predicate AllSettled(t: Tables, inputs: seq<Input>) { forall i :: 0 <= i < |inputs| ==> Settled(t, inputs[i]) }

  lemma LastSettles(u: Tables, runtime: Runtime, inputs: seq<Input>)
    requires inputs != [] && BookSound(u.book) && OneEach(inputs)
    requires forall i :: 0 <= i < |inputs| ==> Replayable(inputs[i])
    requires AfterRepresentation(u, runtime, inputs[|inputs| - 1]).1.Ok? && AllSettled(u, inputs[..|inputs| - 1])
    ensures var v := AfterRepresentation(u, runtime, inputs[|inputs| - 1]).0; BookSound(v.book) && AllSettled(v, inputs)
  {
    OneMoreSettles(u, runtime, inputs[..|inputs| - 1], inputs[|inputs| - 1]);
  }

  lemma {:induction false} RunSettles(t: Tables, runtime: Runtime, inputs: seq<Input>)
    requires BookSound(t.book) && OneEach(inputs) && (forall i :: 0 <= i < |inputs| ==> Replayable(inputs[i]))
    requires AllOk(RecordAll(t, runtime, inputs).1)
    ensures BookSound(RecordAll(t, runtime, inputs).0.book) && AllSettled(RecordAll(t, runtime, inputs).0, inputs)
  {
    if inputs != [] {
      var init := inputs[..|inputs| - 1];
      LastRecorded(t, runtime, inputs);
      RunSettles(t, runtime, init);
      LastSettles(RecordAll(t, runtime, init).0, runtime, inputs);
    }
  }

  lemma SettledWhenNothingAdded(t: Tables, u: Tables, input: Input)
    requires Settled(t, input) && AddsNothing(t, u)
    ensures Settled(u, input)
  {
  }

  lemma {:induction false} SettledRunIsSilent(t: Tables, runtime: Runtime, again: seq<Input>)
    requires forall i :: 0 <= i < |again| ==> Settled(t, again[i])
    ensures var (u, results) := RecordAll(t, runtime, again);
      AddsNothing(t, u) && forall i :: 0 <= i < |again| ==> results[i] == Ok(Recorded(false, 0, false))
  {
    if again != [] {
      var last := |again| - 1;
      SettledRunIsSilent(t, runtime, again[..last]);
      var u := RecordAll(t, runtime, again[..last]).0;
      SettledWhenNothingAdded(t, u, again[last]);
      SettledAddsNothing(u, runtime, again[last]);
    }
  }

  /**
   After a run whose recordings were all stored, making any of the same recordings again adds
   no signature, raw transaction, event, reference or quarantine.
   */
  lemma ReplayAddsNothing(t: Tables, runtime: Runtime, inputs: seq<Input>, again: seq<Input>)
    requires BookSound(t.book) && OneEach(inputs) && (forall i :: 0 <= i < |inputs| ==> Replayable(inputs[i]))
    requires AllOk(RecordAll(t, runtime, inputs).1)
    requires forall i :: 0 <= i < |again| ==> again[i] in inputs
    ensures var u := RecordAll(t, runtime, inputs).0;
      var (v, results) := RecordAll(u, runtime, again);
      AddsNothing(u, v) && forall i :: 0 <= i < |again| ==> results[i] == Ok(Recorded(false, 0, false))
  {
    RunSettles(t, runtime, inputs);
    var u := RecordAll(t, runtime, inputs).0;
    forall i | 0 <= i < |again| ensures Settled(u, again[i]) {
      var j :| 0 <= j < |inputs| && inputs[j] == again[i];
    }
    SettledRunIsSilent(u, runtime, again);
  }

  // ------------------------------------------------------------------ counting rows

  /** The stored signatures of one watch target. */
  function RowsOf(t: Tables, watchTargetId: Text): set<RowKey> {
    set key | key in t.rows && key.watchTargetId == watchTargetId
  }

  lemma RecordingCounts(t: Tables, runtime: Runtime, input: Input)
    ensures var (u, result) := AfterRepresentation(t, runtime, input);
      RowsOf(u, input.watchTargetId) == RowsOf(t, input.watchTargetId) + (if result.Ok? then {KeyOf(input)} else {})
      && (result.Ok? ==> (result.value.signatureInserted <==> KeyOf(input) !in RowsOf(t, input.watchTargetId)))
  {
  }

  lemma AddOne(keys: set<RowKey>, key: RowKey)
    ensures |keys + {key}| == |keys| + (if key in keys then 0 else 1)
  {
    if key in keys { assert keys + {key} == keys; }
  }

  // ------------------------------------------------------------------ nothing of one transaction is refused

  /** Every event was there before, or is that of one of the transfers, at its place. */
  predicate Traced(before: ChainEvents, after: ChainEvents, cluster: Cluster, transfers: seq<ParsedTransfer>) {
    forall id :: id in after ==>
      || (id in before && after[id] == before[id])
      || exists k :: 0 <= k < |transfers| && id == transfers[k].eventId && PlacedAt(after[id], cluster, transfers[k])
  }

  predicate OwnIds(cluster: Cluster, transfers: seq<ParsedTransfer>) {
    forall i :: 0 <= i < |transfers| ==>
      transfers[i].eventId == EventId(cluster, transfers[i].signature, transfers[i].outerInstructionIndex, transfers[i].innerInstructionIndex)
  }

  /** A place determines the event id, so a place that is taken is taken under the same id. */
  lemma PlaceHasOneId(before: ChainEvents, after: ChainEvents, cluster: Cluster, transfers: seq<ParsedTransfer>,
      x: ParsedTransfer)
    requires Traced(before, after, cluster, transfers) && OwnIds(cluster, transfers + [x])
    requires x.eventId in before || !PlaceTaken(before, cluster, x)
    requires forall id :: id in before ==> id in after
    ensures x.eventId in after || !PlaceTaken(after, cluster, x)
  {
    assert (transfers + [x])[|transfers|] == x;
    assert forall k :: 0 <= k < |transfers| ==> (transfers + [x])[k] == transfers[k];
    if id :| id in after && PlacedAt(after[id], cluster, x) {
      assert PlacedAt(after[id], cluster, x) && (id in before && after[id] == before[id] ==> PlaceTaken(before, cluster, x));
    }
  }

  lemma {:induction false} InsertsGoThrough(book: Book, cluster: Cluster, rawId: nat, version: Text,
      transfers: seq<ParsedTransfer>)
    requires OwnIds(cluster, transfers) && !AnyConflict(book, cluster, version, transfers)
    ensures var after := InsertTransfers(book, cluster, rawId, version, transfers);
      && after.Ok? && Traced(book.events, after.value.0.events, cluster, transfers)
      && forall id :: id in book.events ==> id in after.value.0.events
    decreases |transfers|
  {
    if transfers != [] {
      var init, last := transfers[..|transfers| - 1], transfers[|transfers| - 1];
      assert transfers == init + [last];
      forall i | 0 <= i < |init| ensures !EventConflict(book, cluster, version, init[i]) {
        assert init[i] == transfers[i];
      }
      InsertsGoThrough(book, cluster, rawId, version, init);
      assert !EventConflict(book, cluster, version, transfers[|transfers| - 1]);
      var middle := InsertTransfers(book, cluster, rawId, version, init).value.0;
      PlaceHasOneId(book.events, middle.events, cluster, init, last);
      InsertTraces(book.events, middle, cluster, rawId, version, init, last);
    }
  }

  lemma InsertTraces(before: ChainEvents, book: Book, cluster: Cluster, rawId: nat, version: Text,
      earlier: seq<ParsedTransfer>, x: ParsedTransfer)
    requires Traced(before, book.events, cluster, earlier) && InsertTransfer(book, cluster, rawId, version, x).Ok?
    ensures Traced(before, InsertTransfer(book, cluster, rawId, version, x).value.0.events, cluster, earlier + [x])
  {
    var after := InsertTransfer(book, cluster, rawId, version, x).value.0.events;
    forall id | id in after
      ensures (id in before && after[id] == before[id])
        || exists k :: 0 <= k < |earlier + [x]| && id == (earlier + [x])[k].eventId && PlacedAt(after[id], cluster, (earlier + [x])[k])
    {
      if id in book.events {
        if !(id in before && after[id] == before[id]) {
          var k :| 0 <= k < |earlier| && id == earlier[k].eventId && PlacedAt(book.events[id], cluster, earlier[k]);
          assert (earlier + [x])[k] == earlier[k];
        }
      } else {
        assert (earlier + [x])[|earlier|] == x;
      }
    }
  }

  /** The unique index on places never refuses the transfers of one transaction. */
  lemma NeverRefused(t: Tables, runtime: Runtime, input: Input)
    requires OwnTransfers(input)
    ensures AfterRepresentation(t, runtime, input).1.Ok?
  {
    if HasBody(input) && Decide(t, input).classification == Parsed {
      InsertsGoThrough(t.book, input.transaction.value.cluster, RawIdAfter(t.raws, input).value, input.parserVersion,
        input.transfers);
    }
  }
}
