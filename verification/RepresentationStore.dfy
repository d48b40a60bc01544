/**
 The representation of discovered signatures: `persistRepresentation`, one database
 transaction under its advisory locks, so one atomic step on the tables.
 */
module RepresentationStore {
  import opened Wrappers
  import opened Texts
  import opened Transactions
  import opened TransferParser
  import opened ParsingDigest
  import opened EvidenceTables
  import CanonicalJson

  datatype Class = Pending | Parsed | Irrelevant | FailedTransaction | Quarantined

  datatype RowKey = RowKey(watchTargetId: Text, signature: Text)

  datatype FinalityClaim = FinalityClaim(token: Text, until: int)

  /** A row of `discovered_signatures`. */
  datatype SignatureRow = SignatureRow(
    providerId: Text, slot: nat, classification: Class, rawTransactionId: Option<nat>, parseDigest: Option<Text>,
    state: FinalityState, missing: nat, firstMissing: Option<nat>, claim: Option<FinalityClaim>)

  /** A row of `raw_transactions`; its id is its place. */
  datatype RawTransaction = RawTransaction(providerId: Text, signature: Text, commitment: Commitment, digest: Text)

  /** A row of `normalized_transfers`. */
  datatype Normalized = Normalized(
    programId: Text, sourceTokenAccount: Text, sourceAccountIndex: nat, mint: Text, destinationTokenAccount: Text,
    destinationAccountIndex: nat, authority: Text, amountBaseUnits: nat, decimals: nat, unsupportedExtraAccounts: seq<Text>)

  datatype NormalizedKey = NormalizedKey(eventId: Text, parserVersion: Text)

  /** `chain_events` with the tables that hang on an event. */
  datatype Book = Book(events: ChainEvents, normalized: map<NormalizedKey, Normalized>, references: map<Text,
      set<Text>>)

  datatype Tables = Tables(
    rows: map<RowKey, SignatureRow>, raws: seq<RawTransaction>, book: Book, quarantines: seq<Quarantine>)

  datatype AddressSignature = AddressSignature(signature: Text, slot: nat, err: CanonicalJson.Json)

  datatype Input = Input(
    providerId: Text, watchTargetId: Text, discovered: AddressSignature, classification: Class,
    snapshot: Option<Text>, transaction: Option<Transaction>, transfers: seq<ParsedTransfer>,
    parserVersion: Text, quarantineCode: Option<ErrorCode>)

  datatype Recorded = Recorded(signatureInserted: bool, eventsInserted: nat, quarantineInserted: bool)

  /** A unique index refused an event. */
  datatype StoreError = EventNotUnique

  function KeyOf(input: Input): RowKey { RowKey(input.watchTargetId, input.discovered.signature) }

  // ------------------------------------------------------------------ what to classify as

  datatype Decision = Decision(classification: Class, code: Option<ErrorCode>)

  function Asked(input: Input): Decision { Decision(input.classification, input.quarantineCode) }

  function AfterSlotCheck(rows: map<RowKey, SignatureRow>, input: Input): Decision {
    if KeyOf(input) in rows && rows[KeyOf(input)].slot != input.discovered.slot
    then Decision(Quarantined, Some(EventIdentityConflict))
    else Asked(input)
  }

  predicate HasBody(input: Input) { input.snapshot.Some? && input.transaction.Some? }

  function RawOf(input: Input): RawTransaction
    requires HasBody(input)
  {
    RawTransaction(input.providerId, input.discovered.signature, input.transaction.value.commitment, input.snapshot.value)
  }

  predicate SameSource(a: RawTransaction, b: RawTransaction) {
    a.providerId == b.providerId && a.signature == b.signature && a.commitment == b.commitment
  }

  /** The digest of the oldest row of the same provider, signature and commitment. */
  function FirstDigest(raws: seq<RawTransaction>, raw: RawTransaction): Option<Text> {
    if raws == [] then None
    else if SameSource(raws[0], raw) then Some(raws[0].digest)
    else FirstDigest(raws[1..], raw)
  }

  function AfterRawCheck(raws: seq<RawTransaction>, input: Input, decision: Decision): Decision {
    if HasBody(input) && FirstDigest(raws, RawOf(input)).Some? && FirstDigest(raws, RawOf(input)).value != input.snapshot.value
    then Decision(Quarantined, Some(RawDigestConflict))
    else decision
  }

  function StoreRaw(raws: seq<RawTransaction>, raw: RawTransaction): seq<RawTransaction> {
    if raw in raws then raws else raws + [raw]
  }

  function IdOf(raws: seq<RawTransaction>, raw: RawTransaction): (id: nat)
    requires raw in raws
    ensures id < |raws| && raws[id] == raw
  {
    if raws[0] == raw then 0 else 1 + IdOf(raws[1..], raw)
  }

  function RawsAfter(raws: seq<RawTransaction>, input: Input): seq<RawTransaction> {
    if HasBody(input) then StoreRaw(raws, RawOf(input)) else raws
  }

  function RawIdAfter(raws: seq<RawTransaction>, input: Input): Option<nat> {
    if HasBody(input) then Some(IdOf(StoreRaw(raws, RawOf(input)), RawOf(input))) else None
  }

  /** `COALESCE(inner, -1)`. */
  function InnerColumn(inner: Option<nat>): int { if inner.Some? then inner.value else -1 }

  predicate PlacedAt(event: ChainEvent, cluster: Cluster, transfer: ParsedTransfer) {
    && event.cluster == cluster && event.signature == transfer.signature
    && event.outer == transfer.outerInstructionIndex && event.inner == InnerColumn(transfer.innerInstructionIndex)
  }

  predicate PlaceTaken(events: ChainEvents, cluster: Cluster, transfer: ParsedTransfer) {
    exists id :: id in events && PlacedAt(events[id], cluster, transfer)
  }

  function NormalizedOf(t: ParsedTransfer): Normalized {
    Normalized(t.programId, t.sourceTokenAccount, t.sourceAccountIndex, t.mint, t.destinationTokenAccount,
      t.destinationAccountIndex, t.authority, t.amountBaseUnits, t.decimals, t.unsupportedExtraAccounts)
  }

  function ReferencesOf(book: Book, eventId: Text): set<Text> {
    if eventId in book.references then book.references[eventId] else {}
  }

  /** The stored references, which are distinct, sort to the same list as the transfer's own. */
  predicate SameReferences(stored: set<Text>, references: seq<Text>) { multiset(stored) == multiset(references) }

  /**
   A stored event contradicts the transfer. The lookup takes one row with the same id or the
   same place; places are unique, so a row under the id at another place settles it.
   */
  predicate EventConflict(book: Book, cluster: Cluster, version: Text, transfer: ParsedTransfer) {
    var id := transfer.eventId;
    var key := NormalizedKey(id, version);
    if id in book.events then
      || !PlacedAt(book.events[id], cluster, transfer)
      || (key in book.normalized && book.normalized[key] != NormalizedOf(transfer))
      || !SameReferences(ReferencesOf(book, id), transfer.references)
    else PlaceTaken(book.events, cluster, transfer)
  }

  predicate AnyConflict(book: Book, cluster: Cluster, version: Text, transfers: seq<ParsedTransfer>) {
    exists i :: 0 <= i < |transfers| && EventConflict(book, cluster, version, transfers[i])
  }

  function AfterEventCheck(book: Book, input: Input, decision: Decision): Decision {
    if decision.classification == Parsed && input.transaction.Some?
       && AnyConflict(book, input.transaction.value.cluster, input.parserVersion, input.transfers)
    then Decision(Quarantined, Some(EventIdentityConflict))
    else decision
  }

  function Decide(t: Tables, input: Input): Decision {
    AfterEventCheck(t.book, input, AfterRawCheck(t.raws, input, AfterSlotCheck(t.rows, input)))
  }

  // ------------------------------------------------------------------ the upsert

  function StateOf(classification: Class): FinalityState {
    match classification
    case Pending => Detected
    case FailedTransaction => FailedState
    case Quarantined => QuarantinedState
    case _ => ConfirmedState
  }

  function Coalesce<T>(a: Option<T>, b: Option<T>): Option<T> { if a.Some? then a else b }

  function ParseDigestOf(runtime: Runtime, input: Input): Option<Text> {
    if input.transaction.Some? then Some(CreateParsingDigest(input.transaction.value, runtime.collation, runtime.sha256)) else None
  }

  function NewRow(input: Input, classification: Class, rawId: Option<nat>, digest: Option<Text>): SignatureRow {
    SignatureRow(input.providerId, input.discovered.slot, classification, rawId, digest, StateOf(classification), 0, None, None)
  }

  function MergedRow(row: SignatureRow, classification: Class, rawId: Option<nat>, digest: Option<Text>): SignatureRow {
    row.(
      classification :=
        (if Terminal(row.state) || (classification == Pending && row.classification != Pending)
         then row.classification else classification),
      rawTransactionId := Coalesce(row.rawTransactionId, rawId),
      parseDigest := Coalesce(row.parseDigest, digest),
      state := if Terminal(row.state) then row.state else StateOf(classification))
  }

  function RowAfter(t: Tables, runtime: Runtime, input: Input): SignatureRow {
    var classification, rawId := Decide(t, input).classification, RawIdAfter(t.raws, input);
    if KeyOf(input) in t.rows
    then MergedRow(t.rows[KeyOf(input)], classification, rawId, ParseDigestOf(runtime, input))
    else NewRow(input, classification, rawId, ParseDigestOf(runtime, input))
  }

  // ------------------------------------------------------------------ events

  /** One transfer's inserts; an event at a taken place under a new id violates a unique index. */
  function InsertTransfer(book: Book, cluster: Cluster, rawId: nat, version: Text,
      transfer: ParsedTransfer): Result<(Book, nat), StoreError> {
    var id := transfer.eventId;
    var key := NormalizedKey(id, version);
    var event := ChainEvent(cluster, transfer.signature, transfer.outerInstructionIndex,
      InnerColumn(transfer.innerInstructionIndex), rawId, ConfirmedState);
    if id !in book.events && PlaceTaken(book.events, cluster, transfer) then Err(EventNotUnique)
    else
      var next := Book(
        if id in book.events then book.events else book.events[id := event],
        if key in book.normalized then book.normalized else book.normalized[key := NormalizedOf(transfer)],
        book.references[id := ReferencesOf(book, id) + (set r | r in transfer.references)]);
      Ok((next, if id in book.events then 0 else 1))
  }

  function InsertTransfers(book: Book, cluster: Cluster, rawId: nat, version: Text,
      transfers: seq<ParsedTransfer>): Result<(Book, nat), StoreError> {
    if transfers == [] then Ok((book, 0))
    else
      var last := |transfers| - 1;
      var rest := InsertTransfers(book, cluster, rawId, version, transfers[..last]);
      if rest.Err? then rest
      else
        var next := InsertTransfer(rest.value.0, cluster, rawId, version, transfers[last]);
        if next.Err? then next else Ok((next.value.0, rest.value.1 + next.value.1))
  }

  function BookAfterQuarantine(t: Tables, input: Input): Book {
    if Decide(t, input).classification == Quarantined && input.transaction.Some?
    then t.book.(events := QuarantineEvents(t.book.events, input.transaction.value.cluster, input.discovered.signature))
    else t.book
  }

  function EventsAfter(t: Tables, input: Input): Result<(Book, nat), StoreError> {
    if HasBody(input) && Decide(t, input).classification == Parsed
    then InsertTransfers(t.book, input.transaction.value.cluster, RawIdAfter(t.raws, input).value, input.parserVersion, input.transfers)
    else Ok((BookAfterQuarantine(t, input), 0))
  }

  // ------------------------------------------------------------------ quarantines

  function CodeOf(decision: Decision): ErrorCode {
    if decision.code.Some? then decision.code.value else RpcTransactionSchemaInvalid
  }

  predicate Reports(t: Tables, input: Input) {
    var decision := Decide(t, input);
    decision.classification == Quarantined
      && !Reported(t.quarantines, input.providerId, input.watchTargetId, input.discovered.signature, CodeOf(decision))
  }

  function QuarantinesAfter(t: Tables, input: Input): seq<Quarantine> {
    if Reports(t, input)
    then t.quarantines + [Quarantine(input.providerId, input.watchTargetId, input.discovered.signature, CodeOf(Decide(t, input)), true)]
    else t.quarantines
  }

  function AfterRepresentation(t: Tables, runtime: Runtime, input: Input): (Tables, Result<Recorded, StoreError>) {
    var booked := EventsAfter(t, input);
    if booked.Err? then (t, Err(booked.error))
    else
      (Tables(t.rows[KeyOf(input) := RowAfter(t, runtime, input)], RawsAfter(t.raws, input), booked.value.0, QuarantinesAfter(t, input)),
       Ok(Recorded(KeyOf(input) !in t.rows, booked.value.1, Reports(t, input))))
  }

  /** The tables as the store updates them. */
  class RepresentationTables {
    var rows: map<RowKey, SignatureRow>
    var raws: seq<RawTransaction>
    var book: Book
    var quarantines: seq<Quarantine>

    function State(): Tables
      reads this
    {
      Tables(rows, raws, book, quarantines)
    }

    method FindConflict(cluster: Cluster, version: Text, transfers: seq<ParsedTransfer>) returns (conflict: bool)
      ensures conflict == AnyConflict(book, cluster, version, transfers)
    {
      for i := 0 to |transfers|
        invariant forall j :: 0 <= j < i ==> !EventConflict(book, cluster, version, transfers[j])
      {
        if EventConflict(book, cluster, version, transfers[i]) { return true; }
      }
      conflict := false;
    }

    /** On an error the caller's transaction rolls back, so the book is left as it was. */
    method InsertEvents(cluster: Cluster, rawId: nat, version: Text,
        transfers: seq<ParsedTransfer>) returns (inserted: Result<nat, StoreError>)
      modifies this`book
      ensures var after := InsertTransfers(old(book), cluster, rawId, version, transfers);
        if after.Ok? then book == after.value.0 && inserted == Ok(after.value.1)
        else book == old(book) && inserted == Err(after.error)
    {
      var current, count := book, 0;
      for i := 0 to |transfers|
        invariant InsertTransfers(book, cluster, rawId, version, transfers[..i]) == Ok((current, count))
      {
        var next := InsertTransfer(current, cluster, rawId, version, transfers[i]);
        assert transfers[..i + 1][..i] == transfers[..i];
        if next.Err? {
          FailsEarly(book, cluster, rawId, version, transfers, i + 1);
          return Err(next.error);
        }
        current, count := next.value.0, count + next.value.1;
      }
      assert transfers[..|transfers|] == transfers;
      book := current;
      inserted := Ok(count);
    }

    /** The checks that may turn what was asked for into a quarantine. */
    method CheckEvidence(input: Input) returns (decision: Decision)
      ensures decision == Decide(State(), input)
    {
      decision := Asked(input);
      if KeyOf(input) in rows && rows[KeyOf(input)].slot != input.discovered.slot {
        decision := Decision(Quarantined, Some(EventIdentityConflict));
      }
      if HasBody(input) {
        var first := FirstDigest(raws, RawOf(input));
        if first.Some? && first.value != input.snapshot.value {
          decision := Decision(Quarantined, Some(RawDigestConflict));
        }
      }
      if decision.classification == Parsed && input.transaction.Some? {
        var conflict := FindConflict(input.transaction.value.cluster, input.parserVersion, input.transfers);
        if conflict { decision := Decision(Quarantined, Some(EventIdentityConflict)); }
      }
    }

    /** The events of a classified signature: quarantined, inserted, or left alone. */
    method StoreEvents(input: Input, decision: Decision,
        rawTransactionId: Option<nat>) returns (inserted: Result<nat, StoreError>)
      requires decision == Decide(State(), input) && rawTransactionId == RawIdAfter(raws, input)
      modifies this`book
      ensures var after := EventsAfter(old(State()), input);
        if after.Ok? then book == after.value.0 && inserted == Ok(after.value.1) else book == old(book) && inserted == Err(after.error)
    {
      inserted := Ok(0);
      if decision.classification == Quarantined && input.transaction.Some? {
        book := book.(events := QuarantineEvents(book.events, input.transaction.value.cluster, input.discovered.signature));
      }
      if rawTransactionId.Some? && decision.classification == Parsed {
        inserted := InsertEvents(input.transaction.value.cluster, rawTransactionId.value, input.parserVersion,
          input.transfers);
      }
    }

    method PersistRepresentation(runtime: Runtime, input: Input) returns (result: Result<Recorded, StoreError>)
      modifies this
      ensures (State(), result) == AfterRepresentation(old(State()), runtime, input)
    {
      var key := KeyOf(input);
      var signatureInserted := key !in rows;
      var decision := CheckEvidence(input);
      var rawTransactionId := RawIdAfter(raws, input);
      var row := NewRow(input, decision.classification, rawTransactionId, ParseDigestOf(runtime, input));
      if key in rows {
        row := MergedRow(rows[key], decision.classification, rawTransactionId, ParseDigestOf(runtime, input));
      }
      var quarantineInserted := decision.classification == Quarantined
        && !Reported(quarantines, input.providerId, input.watchTargetId, input.discovered.signature, CodeOf(decision));

      var eventsInserted := StoreEvents(input, decision, rawTransactionId);
      if eventsInserted.Err? { return Err(eventsInserted.error); }
      rows := rows[key := row];
      raws := RawsAfter(raws, input);
      if quarantineInserted {
        quarantines := quarantines + [Quarantine(input.providerId, input.watchTargetId, input.discovered.signature, CodeOf(decision), true)];
      }
      result := Ok(Recorded(signatureInserted, eventsInserted.value, quarantineInserted));
    }
  }

  lemma {:induction false} FailsEarly(book: Book, cluster: Cluster, rawId: nat, version: Text,
      transfers: seq<ParsedTransfer>, n: nat)
    requires n <= |transfers| && InsertTransfers(book, cluster, rawId, version, transfers[..n]).Err?
    ensures InsertTransfers(book, cluster, rawId, version, transfers)
      == InsertTransfers(book, cluster, rawId, version, transfers[..n])
    decreases |transfers|
  {
    if n == |transfers| {
      assert transfers[..n] == transfers;
    } else {
      var init := transfers[..|transfers| - 1];
      assert init[..n] == transfers[..n];
      FailsEarly(book, cluster, rawId, version, init, n);
    }
  }
}
