/**
 What one recording of a representation means for every table, in terms of the input and the
 tables before it: the decision, the row, the raw transaction, the events and their transfers,
 the quarantines and the answer.
 */
module RecordingMeaning {
  import opened Wrappers
  import opened Texts
  import opened Transactions
  import opened TransferParser
  import opened ParsingDigest
  import opened EvidenceTables
  import opened RepresentationStore
  import opened RepresentationReplay

  // ------------------------------------------------------------------ what contradicts an input

  /** The row stored for a transfer says just what the transfer does. */
  predicate Says(n: Normalized, x: ParsedTransfer) {
    && n.programId == x.programId
    && n.sourceTokenAccount == x.sourceTokenAccount && n.sourceAccountIndex == x.sourceAccountIndex
    && n.mint == x.mint
    && n.destinationTokenAccount == x.destinationTokenAccount && n.destinationAccountIndex == x.destinationAccountIndex
    && n.authority == x.authority && n.amountBaseUnits == x.amountBaseUnits && n.decimals == x.decimals
    && n.unsupportedExtraAccounts == x.unsupportedExtraAccounts
  }

  /** The event is at the transfer's place; -1 stands for an outer instruction. */
  predicate AtPlace(event: ChainEvent, cluster: Cluster, x: ParsedTransfer) {
    && event.cluster == cluster && event.signature == x.signature && event.outer == x.outerInstructionIndex
    && (x.innerInstructionIndex.None? ==> event.inner == -1)
    && (x.innerInstructionIndex.Some? ==> event.inner == x.innerInstructionIndex.value)
  }

  /** How often a reference is stored for an event: once or not at all. */
  predicate HasReference(book: Book, eventId: Text, reference: Text) {
    eventId in book.references && reference in book.references[eventId]
  }

  /** The references stored for the event are those of the transfer, each of them once. */
  ghost predicate ReferencesMatch(book: Book, x: ParsedTransfer) {
    && (forall i, j :: 0 <= i < j < |x.references| ==> x.references[i] != x.references[j])
    && (forall r :: r in x.references <==> HasReference(book, x.eventId, r))
  }

  /** What is stored contradicts the transfer: under its event id, or under another one at its place. */
  ghost predicate Contradicts(book: Book, cluster: Cluster, version: Text, x: ParsedTransfer) {
    if x.eventId in book.events then
      || !AtPlace(book.events[x.eventId], cluster, x)
      || (NormalizedKey(x.eventId, version) in book.normalized
          && !Says(book.normalized[NormalizedKey(x.eventId, version)], x))
      || !ReferencesMatch(book, x)
    else exists id :: id in book.events && AtPlace(book.events[id], cluster, x)
  }

  /** The oldest raw transaction of the same provider, signature and commitment has another digest. */
  predicate RawDiffers(raws: seq<RawTransaction>, providerId: Text, signature: Text, commitment: Commitment,
      digest: Text) {
    exists i :: 0 <= i < |raws|
      && raws[i].providerId == providerId && raws[i].signature == signature && raws[i].commitment == commitment
      && raws[i].digest != digest
      && forall j :: 0 <= j < i ==>
           !(raws[j].providerId == providerId && raws[j].signature == signature && raws[j].commitment == commitment)
  }

  predicate BodyDiffers(t: Tables, input: Input) {
    && input.snapshot.Some? && input.transaction.Some?
    && RawDiffers(t.raws, input.providerId, input.discovered.signature, input.transaction.value.commitment,
         input.snapshot.value)
  }

  predicate SlotDiffers(t: Tables, input: Input) {
    var key := RowKey(input.watchTargetId, input.discovered.signature);
    key in t.rows && t.rows[key].slot != input.discovered.slot
  }

  ghost predicate EventsDiffer(t: Tables, input: Input) {
    && input.transaction.Some?
    && exists i :: 0 <= i < |input.transfers|
         && Contradicts(t.book, input.transaction.value.cluster, input.parserVersion, input.transfers[i])
  }

  lemma ReferencesMatchIs(book: Book, x: ParsedTransfer)
    ensures SameReferences(ReferencesOf(book, x.eventId), x.references) <==> ReferencesMatch(book, x)
  {
    var stored := ReferencesOf(book, x.eventId);
    assert forall r :: r in stored <==> HasReference(book, x.eventId, r);
    DistinctMatches(x.references);
    if SameReferences(stored, x.references) { SameSets(stored, x.references); }
    assert ReferencesMatch(book, x) ==> SetOf(x.references) == stored;
  }

  lemma ContradictsIs(book: Book, cluster: Cluster, version: Text, x: ParsedTransfer)
    ensures EventConflict(book, cluster, version, x) <==> Contradicts(book, cluster, version, x)
  {
    ReferencesMatchIs(book, x);
    assert forall id :: id in book.events ==>
      (PlacedAt(book.events[id], cluster, x) <==> AtPlace(book.events[id], cluster, x));
    var key := NormalizedKey(x.eventId, version);
    if key in book.normalized {
      assert book.normalized[key] == NormalizedOf(x) <==> Says(book.normalized[key], x);
    }
  }

  lemma {:induction false} RawDiffersIs(raws: seq<RawTransaction>, raw: RawTransaction)
    ensures FirstDigest(raws, raw).Some? && FirstDigest(raws, raw).value != raw.digest
      <==> RawDiffers(raws, raw.providerId, raw.signature, raw.commitment, raw.digest)
  {
    if raws != [] {
      RawDiffersIs(raws[1..], raw);
      if SameSource(raws[0], raw) {
      } else {
        RawDiffersLater(raws, raw);
      }
    }
  }

  lemma RawDiffersLater(raws: seq<RawTransaction>, raw: RawTransaction)
    requires raws != []
    requires !(raws[0].providerId == raw.providerId && raws[0].signature == raw.signature && raws[0].commitment == raw.commitment)
    ensures RawDiffers(raws, raw.providerId, raw.signature, raw.commitment, raw.digest)
      <==> RawDiffers(raws[1..], raw.providerId, raw.signature, raw.commitment, raw.digest)
  {
    if RawDiffers(raws[1..], raw.providerId, raw.signature, raw.commitment, raw.digest) {
      var i :| 0 <= i < |raws[1..]|
        && raws[1..][i].providerId == raw.providerId && raws[1..][i].signature == raw.signature && raws[1..][i].commitment == raw.commitment
        && raws[1..][i].digest != raw.digest
        && forall j :: 0 <= j < i ==>
             !(raws[1..][j].providerId == raw.providerId && raws[1..][j].signature == raw.signature && raws[1..][j].commitment == raw.commitment);
      assert raws[i + 1] == raws[1..][i];
      assert forall j :: 0 < j < i + 1 ==> raws[j] == raws[1..][j - 1];
    }
    if RawDiffers(raws, raw.providerId, raw.signature, raw.commitment, raw.digest) {
      var i :| 0 <= i < |raws|
        && raws[i].providerId == raw.providerId && raws[i].signature == raw.signature && raws[i].commitment == raw.commitment
        && raws[i].digest != raw.digest
        && forall j :: 0 <= j < i ==>
             !(raws[j].providerId == raw.providerId && raws[j].signature == raw.signature && raws[j].commitment == raw.commitment);
      assert raws[1..][i - 1] == raws[i];
      assert forall j :: 0 <= j < i - 1 ==> raws[1..][j] == raws[j + 1];
    }
  }

  /**
   What a recording is taken as: a changed body first, then a changed slot, then, for what is
   passed as parsed, contradicting events; otherwise as what it is passed.
   */
  lemma DecisionMeans(t: Tables, input: Input)
    ensures var d := Decide(t, input);
      if BodyDiffers(t, input) then d == Decision(Quarantined, Some(RawDigestConflict))
      else if SlotDiffers(t, input) then d == Decision(Quarantined, Some(EventIdentityConflict))
      else if input.classification == Parsed && EventsDiffer(t, input) then d == Decision(Quarantined, Some(EventIdentityConflict))
      else d == Decision(input.classification, input.quarantineCode)
  {
    if HasBody(input) { RawDiffersIs(t.raws, RawOf(input)); }
    if input.transaction.Some? {
      var cluster, version := input.transaction.value.cluster, input.parserVersion;
      forall i | 0 <= i < |input.transfers|
        ensures EventConflict(t.book, cluster, version, input.transfers[i])
          <==> Contradicts(t.book, cluster, version, input.transfers[i])
      {
        ContradictsIs(t.book, cluster, version, input.transfers[i]);
      }
    }
  }

  // ------------------------------------------------------------------ the row and the raw transaction

  /** The finality state a class starts in. */
  predicate StartsIn(classification: Class, state: FinalityState) {
    && (classification == Pending ==> state == Detected)
    && (classification == FailedTransaction ==> state == FailedState)
    && (classification == Quarantined ==> state == QuarantinedState)
    && (classification == Parsed || classification == Irrelevant ==> state == ConfirmedState)
  }

  predicate IsSettled(state: FinalityState) {
    state == FinalizedState || state == FailedState || state == Reverted || state == QuarantinedState
  }

  /** The raw transaction an input with a body brings. */
  function BroughtRaw(input: Input): RawTransaction
    requires input.snapshot.Some? && input.transaction.Some?
  {
    RawTransaction(input.providerId, input.discovered.signature, input.transaction.value.commitment, input.snapshot.value)
  }

  /** The id is that of the raw transaction the input brings, if any. */
  predicate IsRawOf(raws: seq<RawTransaction>, id: Option<nat>, input: Input) {
    && (id.Some? <==> input.snapshot.Some? && input.transaction.Some?)
    && (id.Some? ==> id.value < |raws| && raws[id.value] == BroughtRaw(input))
  }

  /** The raw transactions: one more at the end, if the input brings one that was not there. */
  lemma RawsMean(t: Tables, runtime: Runtime, input: Input)
    requires AfterRepresentation(t, runtime, input).1.Ok?
    ensures var u := AfterRepresentation(t, runtime, input).0;
      if input.snapshot.Some? && input.transaction.Some? then
        u.raws == if BroughtRaw(input) in t.raws then t.raws else t.raws + [BroughtRaw(input)]
      else u.raws == t.raws
  {
  }

  /** All of the row is what the input says, taken as decided. */
  predicate FreshRow(row: SignatureRow, raws: seq<RawTransaction>, runtime: Runtime, input: Input, decided: Class) {
    && row.providerId == input.providerId && row.slot == input.discovered.slot
    && row.classification == decided && StartsIn(decided, row.state)
    && IsRawOf(raws, row.rawTransactionId, input)
    && (input.transaction.None? ==> row.parseDigest.None?)
    && (input.transaction.Some? ==>
          row.parseDigest == Some(CreateParsingDigest(input.transaction.value, runtime.collation, runtime.sha256)))
    && row.missing == 0 && row.firstMissing.None? && row.claim.None?
  }

  lemma FreshRowAfter(t: Tables, runtime: Runtime, input: Input)
    requires KeyOf(input) !in t.rows
    ensures FreshRow(RowAfter(t, runtime, input), RawsAfter(t.raws, input), runtime, input, Decide(t, input).classification)
  {
    RawOfInput(t.raws, input);
  }

  lemma NewRowMeans(t: Tables, runtime: Runtime, input: Input)
    requires AfterRepresentation(t, runtime, input).1.Ok?
    requires RowKey(input.watchTargetId, input.discovered.signature) !in t.rows
    ensures var u, key := AfterRepresentation(t, runtime, input).0, RowKey(input.watchTargetId, input.discovered.signature);
      && key in u.rows && u.rows == t.rows[key := u.rows[key]]
      && FreshRow(u.rows[key], u.raws, runtime, input, Decide(t, input).classification)
  {
    FreshRowAfter(t, runtime, input);
  }

  /**
   A known row: settled ones keep state and class, evidence is only filled in, a class is only lost
   to a final one.
   */
  lemma KnownRowMeans(t: Tables, runtime: Runtime, input: Input)
    requires AfterRepresentation(t, runtime, input).1.Ok?
    requires RowKey(input.watchTargetId, input.discovered.signature) in t.rows
    ensures var u, key := AfterRepresentation(t, runtime, input).0, RowKey(input.watchTargetId, input.discovered.signature);
      && key in u.rows && u.rows == t.rows[key := u.rows[key]]
      && var row, was := u.rows[key], t.rows[key];
         && row.providerId == was.providerId && row.slot == was.slot
         && row.missing == was.missing && row.firstMissing == was.firstMissing && row.claim == was.claim
         && (IsSettled(was.state) ==> row.state == was.state && row.classification == was.classification)
         && (!IsSettled(was.state) ==> StartsIn(Decide(t, input).classification, row.state))
         && (!IsSettled(was.state) && Decide(t, input).classification == Pending ==> row.classification == was.classification)
         && (!IsSettled(was.state) && Decide(t, input).classification != Pending ==> row.classification == Decide(t, input).classification)
         && (was.rawTransactionId.Some? ==> row.rawTransactionId == was.rawTransactionId)
         && (was.rawTransactionId.None? ==> IsRawOf(u.raws, row.rawTransactionId, input))
         && row.parseDigest == (if was.parseDigest.Some? || input.transaction.None? then was.parseDigest
              else Some(CreateParsingDigest(input.transaction.value, runtime.collation, runtime.sha256)))
  {
    RawOfInput(t.raws, input);
  }

  lemma RawOfInput(raws: seq<RawTransaction>, input: Input)
    ensures IsRawOf(RawsAfter(raws, input), RawIdAfter(raws, input), input)
  {
  }

  // ------------------------------------------------------------------ the events and their transfers

  /** Everything stored for a transfer: its event, its normalized row, its references. */
  ghost predicate StoredAs(book: Book, raws: seq<RawTransaction>, raw: RawTransaction, cluster: Cluster, version: Text,
      x: ParsedTransfer) {
    && x.eventId in book.events
    && AtPlace(book.events[x.eventId], cluster, x)
    && book.events[x.eventId].state == ConfirmedState
    && book.events[x.eventId].rawTransactionId < |raws| && raws[book.events[x.eventId].rawTransactionId] == raw
    && NormalizedKey(x.eventId, version) in book.normalized
    && Says(book.normalized[NormalizedKey(x.eventId, version)], x)
    && forall r :: r in x.references <==> HasReference(book, x.eventId, r)
  }

  /** The books agree on all that hangs on one event. */
  predicate SameEvent(a: Book, b: Book, id: Text) {
    && (id in a.events <==> id in b.events) && (id in a.events ==> a.events[id] == b.events[id])
    && (id in a.references <==> id in b.references) && (id in a.references ==> a.references[id] == b.references[id])
    && (forall key :: key in a.normalized && key.eventId == id ==> key in b.normalized && b.normalized[key] == a.normalized[key])
    && (forall key :: key in b.normalized && key.eventId == id ==> key in a.normalized)
  }

  predicate NotOf(transfers: seq<ParsedTransfer>, id: Text) {
    forall i :: 0 <= i < |transfers| ==> transfers[i].eventId != id
  }

  lemma {:induction false} OthersKept(book: Book, cluster: Cluster, rawId: nat, version: Text,
      transfers: seq<ParsedTransfer>, id: Text)
    requires InsertTransfers(book, cluster, rawId, version, transfers).Ok? && NotOf(transfers, id)
    ensures SameEvent(book, InsertTransfers(book, cluster, rawId, version, transfers).value.0, id)
    decreases |transfers|
  {
    if transfers != [] {
      var init, last := transfers[..|transfers| - 1], transfers[|transfers| - 1];
      assert forall i :: 0 <= i < |init| ==> init[i] == transfers[i];
      OthersKept(book, cluster, rawId, version, init, id);
    }
  }

  predicate OnlyOnce(transfers: seq<ParsedTransfer>, i: nat)
    requires i < |transfers|
  {
    forall j :: 0 <= j < |transfers| && j != i ==> transfers[j].eventId != transfers[i].eventId
  }

  /** One transfer's tables, after it went in under a new id. */
  ghost predicate PutIn(book: Book, cluster: Cluster, rawId: nat, version: Text, x: ParsedTransfer) {
    && x.eventId in book.events
    && AtPlace(book.events[x.eventId], cluster, x)
    && book.events[x.eventId].state == ConfirmedState && book.events[x.eventId].rawTransactionId == rawId
    && NormalizedKey(x.eventId, version) in book.normalized
    && Says(book.normalized[NormalizedKey(x.eventId, version)], x)
    && forall r :: r in x.references <==> HasReference(book, x.eventId, r)
  }

  lemma {:induction false} FreshIsPutIn(book: Book, cluster: Cluster, rawId: nat, version: Text,
      transfers: seq<ParsedTransfer>, i: nat)
    requires BookSound(book) && InsertTransfers(book, cluster, rawId, version, transfers).Ok?
    requires i < |transfers| && transfers[i].eventId !in book.events && OnlyOnce(transfers, i)
    ensures PutIn(InsertTransfers(book, cluster, rawId, version, transfers).value.0, cluster, rawId, version, transfers[i])
    decreases |transfers|
  {
    var last := |transfers| - 1;
    var init := transfers[..last];
    var mid := InsertTransfers(book, cluster, rawId, version, init).value.0;
    if i == last {
      OthersKept(book, cluster, rawId, version, init, transfers[i].eventId);
      PutsIn(mid, cluster, rawId, version, transfers[i]);
    } else {
      assert OnlyOnce(init, i);
      FreshIsPutIn(book, cluster, rawId, version, init, i);
      PutInStays(mid, cluster, rawId, version, transfers[last], transfers[i]);
    }
  }

  lemma PutsIn(book: Book, cluster: Cluster, rawId: nat, version: Text, x: ParsedTransfer)
    requires InsertTransfer(book, cluster, rawId, version, x).Ok? && x.eventId !in book.events
    requires NormalizedKey(x.eventId, version) !in book.normalized && x.eventId !in book.references
    ensures PutIn(InsertTransfer(book, cluster, rawId, version, x).value.0, cluster, rawId, version, x)
  {
  }

  lemma PutInStays(book: Book, cluster: Cluster, rawId: nat, version: Text, other: ParsedTransfer, x: ParsedTransfer)
    requires InsertTransfer(book, cluster, rawId, version, other).Ok? && other.eventId != x.eventId
    requires PutIn(book, cluster, rawId, version, x)
    ensures PutIn(InsertTransfer(book, cluster, rawId, version, other).value.0, cluster, rawId, version, x)
  {
    var next := InsertTransfer(book, cluster, rawId, version, other).value.0;
    assert forall r :: HasReference(next, x.eventId, r) <==> HasReference(book, x.eventId, r);
  }

  lemma {:induction false} VersionIsPutIn(book: Book, cluster: Cluster, rawId: nat, version: Text,
      transfers: seq<ParsedTransfer>, i: nat)
    requires InsertTransfers(book, cluster, rawId, version, transfers).Ok? && i < |transfers| && OnlyOnce(transfers, i)
    requires NormalizedKey(transfers[i].eventId, version) !in book.normalized
    ensures var next, key := InsertTransfers(book, cluster, rawId, version, transfers).value.0, NormalizedKey(transfers[i].eventId, version);
      key in next.normalized && Says(next.normalized[key], transfers[i])
    decreases |transfers|
  {
    var last := |transfers| - 1;
    if i == last {
      OthersKept(book, cluster, rawId, version, transfers[..last], transfers[i].eventId);
    } else {
      assert OnlyOnce(transfers[..last], i);
      VersionIsPutIn(book, cluster, rawId, version, transfers[..last], i);
    }
  }

  /** A parser version that has no row for a transfer gets one that says what the transfer does, known event or not. */
  lemma NewVersionStored(t: Tables, runtime: Runtime, input: Input, i: nat)
    requires AfterRepresentation(t, runtime, input).1.Ok? && i < |input.transfers| && OnlyOnce(input.transfers, i)
    requires input.snapshot.Some? && input.transaction.Some? && Decide(t, input).classification == Parsed
    requires NormalizedKey(input.transfers[i].eventId, input.parserVersion) !in t.book.normalized
    ensures var book, key := AfterRepresentation(t, runtime, input).0.book, NormalizedKey(input.transfers[i].eventId, input.parserVersion);
      key in book.normalized && Says(book.normalized[key], input.transfers[i])
  {
    VersionIsPutIn(t.book, input.transaction.value.cluster, RawIdAfter(t.raws, input).value, input.parserVersion,
      input.transfers, i);
  }

  /**
   After a recording that is decided as parsed and has a body, every transfer with a new event id is
   stored as it is: at its place, confirmed, under the raw transaction passed, field by field and
   with exactly its references. All other events are left as they were.
   */
  lemma TransfersStored(t: Tables, runtime: Runtime, input: Input)
    requires AfterRepresentation(t, runtime, input).1.Ok? && BookSound(t.book)
    requires input.snapshot.Some? && input.transaction.Some? && Decide(t, input).classification == Parsed
    ensures var u := AfterRepresentation(t, runtime, input).0;
      && (forall i :: 0 <= i < |input.transfers| && input.transfers[i].eventId !in t.book.events && OnlyOnce(input.transfers, i) ==>
            StoredAs(u.book, u.raws, BroughtRaw(input), input.transaction.value.cluster, input.parserVersion, input.transfers[i]))
      && (forall id :: NotOf(input.transfers, id) ==> SameEvent(t.book, u.book, id))
  {
    var cluster, rawId, version := input.transaction.value.cluster, RawIdAfter(t.raws, input).value, input.parserVersion;
    RawOfInput(t.raws, input);
    var u := AfterRepresentation(t, runtime, input).0;
    forall i | 0 <= i < |input.transfers| && input.transfers[i].eventId !in t.book.events && OnlyOnce(input.transfers, i)
      ensures StoredAs(u.book, u.raws, BroughtRaw(input), cluster, version, input.transfers[i])
    {
      FreshIsPutIn(t.book, cluster, rawId, version, input.transfers, i);
    }
    forall id | NotOf(input.transfers, id) ensures SameEvent(t.book, u.book, id) {
      OthersKept(t.book, cluster, rawId, version, input.transfers, id);
    }
  }

  /** A quarantine of the transaction's signature reaches the event. */
  predicate Reaches(input: Input, decided: Class, event: ChainEvent) {
    && decided == Quarantined && input.transaction.Some?
    && event.cluster == input.transaction.value.cluster && event.signature == input.discovered.signature
  }

  predicate KeptOrQuarantined(a: Book, b: Book, input: Input, decided: Class, id: Text)
    requires id in a.events
  {
    && id in b.events
    && b.events[id] == (if Reaches(input, decided, a.events[id]) then a.events[id].(state := QuarantinedState) else a.events[id])
  }

  lemma BookKept(t: Tables, input: Input, id: Text)
    requires EventsAfter(t, input).Ok? && id in t.book.events
    ensures KeptOrQuarantined(t.book, EventsAfter(t, input).value.0, input, Decide(t, input).classification, id)
  {
    if HasBody(input) && Decide(t, input).classification == Parsed {
      ExistingKept(t.book, input.transaction.value.cluster, RawIdAfter(t.raws, input).value, input.parserVersion,
        input.transfers, id);
    }
  }

  /**
   Events that are there already are never rewritten by a recording; a quarantine only moves those
   of its signature.
   */
  lemma EventsKept(t: Tables, runtime: Runtime, input: Input, id: Text)
    requires AfterRepresentation(t, runtime, input).1.Ok? && id in t.book.events
    ensures KeptOrQuarantined(t.book, AfterRepresentation(t, runtime, input).0.book, input, Decide(t, input).classification, id)
  {
    BookKept(t, input, id);
  }

  /** A recording that is not decided as parsed, or has no body, adds nothing to the book. */
  lemma NothingStored(t: Tables, runtime: Runtime, input: Input)
    requires AfterRepresentation(t, runtime, input).1.Ok?
    requires Decide(t, input).classification != Parsed || input.snapshot.None? || input.transaction.None?
    ensures var book := AfterRepresentation(t, runtime, input).0.book;
      book.events.Keys == t.book.events.Keys && book.normalized == t.book.normalized && book.references == t.book.references
  {
  }

  lemma {:induction false} ExistingKept(book: Book, cluster: Cluster, rawId: nat, version: Text,
      transfers: seq<ParsedTransfer>, id: Text)
    requires InsertTransfers(book, cluster, rawId, version, transfers).Ok? && id in book.events
    ensures var next := InsertTransfers(book, cluster, rawId, version, transfers).value.0;
      id in next.events && next.events[id] == book.events[id]
    decreases |transfers|
  {
    if transfers != [] { ExistingKept(book, cluster, rawId, version, transfers[..|transfers| - 1], id); }
  }

  // ------------------------------------------------------------------ quarantines and the answer

  lemma {:induction false} InsertsCount(book: Book, cluster: Cluster, rawId: nat, version: Text,
      transfers: seq<ParsedTransfer>)
    requires InsertTransfers(book, cluster, rawId, version, transfers).Ok?
    ensures var (next, count) := InsertTransfers(book, cluster, rawId, version, transfers).value;
      |next.events.Keys| == |book.events.Keys| + count
    decreases |transfers|
  {
    if transfers != [] {
      var init, last := transfers[..|transfers| - 1], transfers[|transfers| - 1];
      InsertsCount(book, cluster, rawId, version, init);
      var mid := InsertTransfers(book, cluster, rawId, version, init).value.0;
      var next := InsertTransfer(mid, cluster, rawId, version, last).value.0;
      assert next.events.Keys == mid.events.Keys + {last.eventId};
    }
  }

  /** The code of a quarantine that is decided without one. */
  const NO_CODE := RpcTransactionSchemaInvalid

  /** The quarantine a decision asks for. */
  function ReportOf(input: Input, d: Decision): Quarantine {
    Quarantine(input.providerId, input.watchTargetId, input.discovered.signature, if d.code.Some? then d.code.value else NO_CODE, true)
  }

  lemma QuarantinesMean(t: Tables, runtime: Runtime, input: Input)
    requires AfterRepresentation(t, runtime, input).1.Ok?
    ensures var (u, answer) := AfterRepresentation(t, runtime, input);
      var d := Decide(t, input);
      && (answer.value.quarantineInserted <==> d.classification == Quarantined && ReportOf(input, d) !in t.quarantines)
      && u.quarantines == if answer.value.quarantineInserted then t.quarantines + [ReportOf(input, d)] else t.quarantines
  {
  }

  lemma EventsCount(t: Tables, input: Input)
    requires EventsAfter(t, input).Ok?
    ensures |EventsAfter(t, input).value.0.events.Keys| == |t.book.events.Keys| + EventsAfter(t, input).value.1
  {
    if HasBody(input) && Decide(t, input).classification == Parsed {
      InsertsCount(t.book, input.transaction.value.cluster, RawIdAfter(t.raws, input).value, input.parserVersion,
        input.transfers);
    } else {
      assert EventsAfter(t, input).value.0.events.Keys == t.book.events.Keys;
    }
  }

  /** What the recording answers is what it added: a row, so many events. */
  lemma AnswerMeans(t: Tables, runtime: Runtime, input: Input)
    requires AfterRepresentation(t, runtime, input).1.Ok?
    ensures var (u, answer) := AfterRepresentation(t, runtime, input);
      && (answer.value.signatureInserted <==> RowKey(input.watchTargetId, input.discovered.signature) !in t.rows)
      && |u.book.events.Keys| == |t.book.events.Keys| + answer.value.eventsInserted
  {
    EventsCount(t, input);
  }
}
