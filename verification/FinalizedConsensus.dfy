/**
 The verdict on a finalized signature, computed twice: by the engine from what two
 providers answered, and by the database from the observations it stored.
 */
module FinalizedConsensus {
  import opened Wrappers
  import opened Texts
  import opened Sorting
  import opened CanonicalJson
  import opened Transactions
  import opened TransferParser
  import opened ParsingDigest
  import opened Snapshots
  import opened EvidenceTables

  /** The codes an observation may carry. */
  predicate SafeCode(code: ErrorCode) {
    code in [RpcTransportError, RpcRateLimited, RpcInvalidJson, RpcError, RpcTransactionMissing,
             RpcSignatureConflict, RpcUnsupportedVersion, RpcTransactionSchemaInvalid, FinalityStatusMissing]
  }

  datatype Verdict = Pending | Agreed | Disagreed

  datatype Observation = Observation(
    providerId: Text,
    canonicalDigest: Option<Text>,
    snapshotDigest: Option<Text>,
    parsingDigest: Option<Text>,
    transferIdentityDigest: Option<Text>,
    statusSlot: Option<nat>,
    slot: Option<nat>,
    executionState: Option<Text>,
    executionDigest: Option<Text>,
    statusExecutionDigest: Option<Text>,
    transactionExecutionDigest: Option<Text>,
    finality: Option<Text>,
    responseTimeMs: int,
    safeErrorCode: Option<ErrorCode>,
    safeErrorRetryable: Option<bool>,
    observedAt: int)

  // ------------------------------------------------------------------ validObservation

  function Succeeded(): Text { Ascii("succeeded") }

  function Failed(): Text { Ascii("failed") }

  predicate IsHexDigest(t: Text) {
    |t| == 64 && forall i :: 0 <= i < 64 ==> IsDigit(t[i]) || 0x61 <= t[i] <= 0x66
  }

  predicate HasDigest(t: Option<Text>) { t.Some? && IsHexDigest(t.value) }

  predicate HasSlot(slot: Option<nat>) { slot.Some? && slot.value <= 18446744073709551615 }

  predicate IsComplete(o: Observation) {
    && o.canonicalDigest.Some? && o.snapshotDigest.Some? && o.parsingDigest.Some? && o.transferIdentityDigest.Some?
    && o.statusSlot.Some? && o.slot.Some? && o.executionState.Some? && o.executionDigest.Some?
    && o.statusExecutionDigest.Some? && o.transactionExecutionDigest.Some? && o.finality.Some?
  }

  predicate IsEmpty(o: Observation) {
    && o.canonicalDigest.None? && o.snapshotDigest.None? && o.parsingDigest.None? && o.transferIdentityDigest.None?
    && o.statusSlot.None? && o.slot.None? && o.executionState.None? && o.executionDigest.None?
    && o.statusExecutionDigest.None? && o.transactionExecutionDigest.None? && o.finality.None?
  }

  predicate ValidObservation(o: Observation) {
    && 1 <= |o.providerId| <= 64
    && 0 <= o.responseTimeMs <= 300_000
    && if IsComplete(o) then
         && HasDigest(o.canonicalDigest) && HasDigest(o.snapshotDigest) && HasDigest(o.parsingDigest)
         && HasDigest(o.transferIdentityDigest) && HasSlot(o.statusSlot) && HasSlot(o.slot)
         && (o.executionState.value == Succeeded() || o.executionState.value == Failed())
         && HasDigest(o.executionDigest) && HasDigest(o.statusExecutionDigest) && HasDigest(o.transactionExecutionDigest)
         && 1 <= |o.finality.value| <= 32
         && o.safeErrorCode.None? && o.safeErrorRetryable.None?
       else
         && IsEmpty(o)
         && o.safeErrorCode.Some? && SafeCode(o.safeErrorCode.value)
         && o.safeErrorRetryable.Some?
         && (o.safeErrorCode.value == RpcSignatureConflict ==> !o.safeErrorRetryable.value)
  }

  // ------------------------------------------------------------------ the SQL CASE

  /** SQL `min` over text; `None` when every value is null. */
  function MinText(values: seq<Text>): Option<Text> {
    if values == [] then None
    else
      var rest := MinText(values[1..]);
      if rest.Some? && Before(rest.value, values[0]) then rest else Some(values[0])
  }

  function MaxText(values: seq<Text>): Option<Text> {
    if values == [] then None
    else
      var rest := MaxText(values[1..]);
      if rest.Some? && Before(values[0], rest.value) then rest else Some(values[0])
  }

  function MinSlot(values: seq<nat>): Option<nat> {
    if values == [] then None
    else
      var rest := MinSlot(values[1..]);
      if rest.Some? && rest.value < values[0] then rest else Some(values[0])
  }

  function MaxSlot(values: seq<nat>): Option<nat> {
    if values == [] then None
    else
      var rest := MaxSlot(values[1..]);
      if rest.Some? && rest.value > values[0] then rest else Some(values[0])
  }

  /** A SQL comparison is true only between values that are there. */
  predicate SqlEqual<T(==)>(a: Option<T>, b: Option<T>) { a.Some? && b.Some? && a.value == b.value }

  predicate SqlDiffers<T(==)>(a: Option<T>, b: Option<T>) { a.Some? && b.Some? && a.value != b.value }

  /** The text columns whose values the CASE compares across rows. */
  datatype Field =
    | CanonicalDigest | SnapshotDigest | ParsingDigestField | TransferIdentityDigest
    | ExecutionState | ExecutionDigest | StatusExecutionDigest | TransactionExecutionDigest | Finality

  function Get(o: Observation, field: Field): Option<Text> {
    match field
    case CanonicalDigest => o.canonicalDigest
    case SnapshotDigest => o.snapshotDigest
    case ParsingDigestField => o.parsingDigest
    case TransferIdentityDigest => o.transferIdentityDigest
    case ExecutionState => o.executionState
    case ExecutionDigest => o.executionDigest
    case StatusExecutionDigest => o.statusExecutionDigest
    case TransactionExecutionDigest => o.transactionExecutionDigest
    case Finality => o.finality
  }

  function Column(rows: seq<Observation>, field: Field): seq<Text> {
    if rows == [] then []
    else (if Get(rows[0], field).Some? then [Get(rows[0], field).value] else []) + Column(rows[1..], field)
  }

  function SlotColumn(rows: seq<Observation>): seq<nat> {
    if rows == [] then []
    else (if rows[0].slot.Some? then [rows[0].slot.value] else []) + SlotColumn(rows[1..])
  }

  predicate OneValue(rows: seq<Observation>, field: Field) {
    SqlEqual(MinText(Column(rows, field)), MaxText(Column(rows, field)))
  }

  /** The conditions of the `FILTER` clauses. */
  datatype Filter = ConflictRow | CompleteRow | SlotsDiffer | ExecutionsDiffer

  predicate Passes(o: Observation, filter: Filter) {
    match filter
    case ConflictRow => o.safeErrorCode == Some(RpcSignatureConflict)
    case CompleteRow => IsComplete(o) && o.safeErrorCode.None?
    case SlotsDiffer => SqlDiffers(o.statusSlot, o.slot)
    case ExecutionsDiffer => SqlDiffers(o.statusExecutionDigest, o.transactionExecutionDigest)
  }

  function Count(rows: seq<Observation>, filter: Filter): nat {
    if rows == [] then 0 else (if Passes(rows[0], filter) then 1 else 0) + Count(rows[1..], filter)
  }

  function FinalizedFinalized(): Text { Ascii("finalized/finalized") }

  /** The state `completeFinalizedConsensus` derives from the stored rows of one check. */
  function SqlVerdict(rows: seq<Observation>): Verdict {
    if Count(rows, ConflictRow) > 0 then Disagreed
    else if Count(rows, CompleteRow) < 2 then Pending
    else if SqlDiffers(MinText(Column(rows, Finality)), Some(FinalizedFinalized()))
         || SqlDiffers(MaxText(Column(rows, Finality)), Some(FinalizedFinalized()))
         || Count(rows, SlotsDiffer) > 0
         || Count(rows, ExecutionsDiffer) > 0
    then Disagreed
    else if OneValue(rows, CanonicalDigest)
         && OneValue(rows, SnapshotDigest)
         && OneValue(rows, ParsingDigestField)
         && OneValue(rows, TransferIdentityDigest)
         && SqlEqual(MinSlot(SlotColumn(rows)), MaxSlot(SlotColumn(rows)))
         && OneValue(rows, ExecutionState)
         && OneValue(rows, ExecutionDigest)
         && OneValue(rows, StatusExecutionDigest)
         && OneValue(rows, TransactionExecutionDigest)
         && OneValue(rows, Finality)
    then Agreed
    else Disagreed
  }

  // ------------------------------------------------------------------ observeProvider

  datatype Confirmation = Processed | ConfirmedStatus | FinalizedStatus

  datatype Status = Status(signature: Text, slot: Option<nat>, confirmationStatus: Option<Confirmation>, err: Json)

  /** A thrown error: one of the pipeline's own, or any other. */
  datatype Thrown = Ingestion(code: ErrorCode, retryable: bool) | Foreign

  /** A transaction with the whole JSON body it was read from. */
  datatype Fetched = Fetched(tx: Transaction, body: Json)

  /** The transaction is the one its body reads as. */
  ghost predicate Faithful(f: Fetched) { ReadsAs(f.body, f.tx) }

  /** What one provider answered; with two failures, the first to settle is the one seen. */
  datatype Answer = Answer(
    statuses: Result<seq<Option<Status>>, Thrown>,
    transaction: Result<Option<Fetched>, Thrown>,
    statusesSettleFirst: bool)

  function Unavailable(providerId: Text, observedAt: int, elapsed: int, code: ErrorCode, retryable: bool): Observation {
    Observation(providerId, None, None, None, None, None, None, None, None, None, None, None,
      elapsed, Some(code), Some(retryable), observedAt)
  }

  function SafeFailure(providerId: Text, observedAt: int, elapsed: int, error: Thrown): Observation {
    if error.Foreign? || !SafeCode(error.code)
    then Unavailable(providerId, observedAt, elapsed, RpcTransportError, true)
    else Unavailable(providerId, observedAt, elapsed, error.code, error.retryable)
  }

  function Elapsed(milliseconds: int): int {
    if milliseconds < 0 then 0 else if milliseconds > 300_000 then 300_000 else milliseconds
  }

  function ConfirmationText(c: Option<Confirmation>): Text {
    match c
    case None => Ascii("null")
    case Some(Processed) => Ascii("processed")
    case Some(ConfirmedStatus) => Ascii("confirmed")
    case Some(FinalizedStatus) => Ascii("finalized")
  }

  function CommitmentText(c: Commitment): Text {
    if c.Confirmed? then Ascii("confirmed") else Ascii("finalized")
  }

  function FinalityText(c: Option<Confirmation>, commitment: Commitment): Text {
    ConfirmationText(c) + [0x2F] + CommitmentText(commitment)
  }

  function ExecutionJson(statusDigest: Text, transactionDigest: Text): Json {
    Obj([Entry(Ascii("status"), Str(statusDigest)), Entry(Ascii("transaction"), Str(transactionDigest))])
  }

  datatype Digests = Digests(
    snapshot: Text, parsing: Text, transferIdentity: Text,
    statusExecution: Text, transactionExecution: Text, execution: Text, finality: Text)

  function DigestsOf(runtime: Runtime, status: Status, fetched: Fetched, transfers: seq<ParsedTransfer>): Digests {
    var statusExecution := Digest(status.err, runtime.sha256);
    var transactionExecution := Digest(fetched.tx.meta.err, runtime.sha256);
    Digests(
      Digest(fetched.body, runtime.sha256),
      CreateParsingDigest(fetched.tx, runtime.collation, runtime.sha256),
      Digest(runtime.identity(transfers), runtime.sha256),
      statusExecution,
      transactionExecution,
      Digest(ExecutionJson(statusExecution, transactionExecution), runtime.sha256),
      FinalityText(status.confirmationStatus, fetched.tx.commitment))
  }

  /** An answer with both a status and a transaction that parses, and its digests. */
  datatype Sighting = Sighting(status: Status, tx: Transaction, digests: Digests)

  function SignatureJson(requested: Text, status: Text, transaction: Text): Json {
    Obj([Entry(Ascii("requested"), Str(requested)), Entry(Ascii("status"), Str(status)), Entry(Ascii("transaction"), Str(transaction))])
  }

  function SlotJson(status: Option<nat>, transaction: nat): Json {
    Obj([
      Entry(Ascii("status"), if status.Some? then Str(Decimal(status.value)) else Null),
      Entry(Ascii("transaction"), Str(Decimal(transaction)))])
  }

  function CanonicalRecord(signature: Text, status: Status, tx: Transaction, d: Digests): Json {
    Obj([
      Entry(Ascii("signature"), SignatureJson(signature, status.signature, tx.signature)),
      Entry(Ascii("slot"), SlotJson(status.slot, tx.slot)),
      Entry(Ascii("executionDigest"), Str(d.execution)),
      Entry(Ascii("finality"), Str(d.finality)),
      Entry(Ascii("snapshotDigest"), Str(d.snapshot)),
      Entry(Ascii("parsingDigest"), Str(d.parsing)),
      Entry(Ascii("transferIdentityDigest"), Str(d.transferIdentity))])
  }

  /** An observation, and the engine's own judgement that its evidence is consistent and finalized. */
  datatype Observed = Observed(observation: Observation, validFinalized: bool)

  function CompleteEvidence(sha256: Hash, providerId: Text, signature: Text, observedAt: int, elapsed: int,
      s: Sighting): Observed {
    var d := s.digests;
    Observed(
      Observation(providerId,
        Some(Digest(CanonicalRecord(signature, s.status, s.tx, d), sha256)),
        Some(d.snapshot), Some(d.parsing), Some(d.transferIdentity), s.status.slot, Some(s.tx.slot),
        Some(if s.status.err == Null && s.tx.meta.err == Null then Succeeded() else Failed()),
        Some(d.execution), Some(d.statusExecution), Some(d.transactionExecution), Some(d.finality),
        elapsed, None, None, observedAt),
      && s.status.signature == signature
      && s.tx.signature == signature
      && s.status.slot == Some(s.tx.slot)
      && d.statusExecution == d.transactionExecution
      && s.status.confirmationStatus == Some(FinalizedStatus)
      && s.tx.commitment == Finalized)
  }

  predicate HasBoth(runtime: Runtime, answer: Answer) {
    && answer.statuses.Ok? && |answer.statuses.value| == 1 && answer.statuses.value[0].Some?
    && answer.transaction.Ok? && answer.transaction.value.Some?
    && ParseTransactionTransfers(answer.transaction.value.value.tx, runtime.base58, None).Ok?
  }

  function SightingOf(runtime: Runtime, answer: Answer): Sighting
    requires HasBoth(runtime, answer)
  {
    var status, fetched := answer.statuses.value[0].value, answer.transaction.value.value;
    Sighting(status, fetched.tx, DigestsOf(runtime, status, fetched, ParseTransactionTransfers(fetched.tx, runtime.base58, None).value))
  }

  /** The observation when anything is missing: the first error to surface, or the missing status. */
  function FailedObservation(runtime: Runtime, providerId: Text, observedAt: int, elapsed: int,
      answer: Answer): Observation
    requires !HasBoth(runtime, answer)
  {
    if answer.statuses.Err? && (answer.statusesSettleFirst || answer.transaction.Ok?) then
      SafeFailure(providerId, observedAt, elapsed, answer.statuses.error)
    else if answer.transaction.Err? then
      SafeFailure(providerId, observedAt, elapsed, answer.transaction.error)
    else if |answer.statuses.value| != 1 then
      SafeFailure(providerId, observedAt, elapsed, Ingestion(RpcInvalidJson, true))
    else if answer.statuses.value[0].None? || answer.transaction.value.None? then
      Unavailable(providerId, observedAt, elapsed, FinalityStatusMissing, true)
    else
      // The transaction does not parse, which surfaces as an error of no known code.
      SafeFailure(providerId, observedAt, elapsed, Foreign)
  }

  function ObserveProvider(runtime: Runtime, providerId: Text, signature: Text, observedAt: int, milliseconds: int,
      answer: Answer): Observed {
    if HasBoth(runtime, answer)
    then CompleteEvidence(runtime.sha256, providerId, signature, observedAt, Elapsed(milliseconds), SightingOf(runtime, answer))
    else Observed(FailedObservation(runtime, providerId, observedAt, Elapsed(milliseconds), answer), false)
  }

  /** `decideState`. */
  function DecideState(primary: Observed, secondary: Observed): Verdict {
    var p, s := primary.observation, secondary.observation;
    if (p.safeErrorCode == Some(RpcSignatureConflict) && p.safeErrorRetryable == Some(false))
       || (s.safeErrorCode == Some(RpcSignatureConflict) && s.safeErrorRetryable == Some(false))
    then Disagreed
    else if p.canonicalDigest.None? || s.canonicalDigest.None? then Pending
    else if primary.validFinalized && secondary.validFinalized && p.canonicalDigest == s.canonicalDigest then Agreed
    else Disagreed
  }

  // ------------------------------------------------- the real adapter and its guarantees

  const MAX_SAFE_INTEGER := 9007199254740991

  /** What `HttpSolanaRpc` can answer when asked about one signature at finalized commitment. */
  ghost predicate AdapterAnswer(answer: Answer, signature: Text) {
    && (answer.statuses.Ok? ==>
          && |answer.statuses.value| == 1
          && (answer.statuses.value[0].Some? ==>
                var status := answer.statuses.value[0].value;
                status.signature == signature && HasSafeSlot(status.slot) && WellFormed(status.err)))
    && (answer.transaction.Ok? && answer.transaction.value.Some? ==>
          var fetched := answer.transaction.value.value;
          && fetched.tx.signature == signature && fetched.tx.commitment == Finalized
          && fetched.tx.slot <= MAX_SAFE_INTEGER && Faithful(fetched))
    && (answer.statuses.Err? ==> AdapterError(answer.statuses.error))
    && (answer.transaction.Err? ==> AdapterError(answer.transaction.error))
  }

  predicate HasSafeSlot(slot: Option<nat>) { slot.Some? && slot.value <= MAX_SAFE_INTEGER }

  /** The adapter throws a signature conflict as final and a schema failure as retryable. */
  predicate AdapterError(error: Thrown) {
    error.Ingestion? ==>
      && (error.code == RpcSignatureConflict ==> !error.retryable)
      && (error.code == RpcTransactionSchemaInvalid ==> error.retryable)
  }

  /** SHA-256 does not collide on the given texts. */
  ghost predicate CollisionFree(sha256: Hash, texts: set<Text>) {
    forall s, t :: s in texts && t in texts && sha256(s) == sha256(t) ==> s == t
  }

  /** The texts whose digests the verdict compares. */
  ghost function SightingTexts(signature: Text, s: Sighting): set<Text> {
    {CanonicalText(CanonicalRecord(signature, s.status, s.tx, s.digests)),
     CanonicalText(ExecutionJson(s.digests.statusExecution, s.digests.transactionExecution)),
     CanonicalText(s.status.err), CanonicalText(s.tx.meta.err)}
  }

  ghost function HashedTexts(runtime: Runtime, signature: Text, answer: Answer): set<Text> {
    if HasBoth(runtime, answer) then SightingTexts(signature, SightingOf(runtime, answer)) else {}
  }

  // ------------------------------------------------- both verdicts are one

  lemma PairColumn(x: Observation, y: Observation, field: Field)
    requires Get(x, field).Some? && Get(y, field).Some?
    ensures Column([x, y], field) == [Get(x, field).value, Get(y, field).value]
  {
    assert [x, y][1..] == [y] && [y][1..] == [];
    assert Column([y], field) == [Get(y, field).value];
  }

  lemma PairExtremes(a: Text, b: Text)
    ensures SqlEqual(MinText([a, b]), MaxText([a, b])) <==> a == b
    ensures forall c :: (SqlDiffers(MinText([a, b]), Some(c)) || SqlDiffers(MaxText([a, b]), Some(c))) <==> a != c || b != c
  {
    assert [a, b][1..] == [b] && [b][1..] == [];
    assert MinText([b][1..]) == None && MaxText([b][1..]) == None;
    assert MinText([b]) == Some(b) && MaxText([b]) == Some(b);
    BeforeTotal(a, b);
    BeforeIrreflexive(a);
    if Before(a, b) && Before(b, a) { BeforeTransitive(a, b, a); }
  }

  lemma PairValues(x: Observation, y: Observation)
    requires IsComplete(x) && IsComplete(y)
    ensures forall field :: OneValue([x, y], field) <==> Get(x, field) == Get(y, field)
    ensures (SqlDiffers(MinText(Column([x, y], Finality)), Some(FinalizedFinalized()))
             || SqlDiffers(MaxText(Column([x, y], Finality)), Some(FinalizedFinalized())))
       <==> x.finality != Some(FinalizedFinalized()) || y.finality != Some(FinalizedFinalized())
  {
    forall field ensures OneValue([x, y], field) <==> Get(x, field) == Get(y, field) {
      PairColumn(x, y, field);
      PairExtremes(Get(x, field).value, Get(y, field).value);
    }
    PairColumn(x, y, Finality);
    PairExtremes(x.finality.value, y.finality.value);
  }

  lemma PairSlots(x: Observation, y: Observation)
    requires x.slot.Some? && y.slot.Some?
    ensures SqlEqual(MinSlot(SlotColumn([x, y])), MaxSlot(SlotColumn([x, y]))) <==> x.slot == y.slot
  {
    assert [x, y][1..] == [y] && [y][1..] == [];
    assert SlotColumn([y]) == [y.slot.value];
    assert SlotColumn([x, y]) == [x.slot.value, y.slot.value];
    assert [x.slot.value, y.slot.value][1..] == [y.slot.value];
    assert MinSlot([y.slot.value]) == Some(y.slot.value) == MaxSlot([y.slot.value]);
  }

  lemma PairCount(x: Observation, y: Observation, filter: Filter)
    ensures Count([x, y], filter) == (if Passes(x, filter) then 1 else 0) + (if Passes(y, filter) then 1 else 0)
  {
    assert [x, y][1..] == [y] && [y][1..] == [];
    assert Count([y], filter) == if Passes(y, filter) then 1 else 0;
  }

  /** One row's evidence is finalized and agrees with itself. */
  predicate SelfConsistent(o: Observation) {
    o.finality == Some(FinalizedFinalized()) && o.statusSlot == o.slot && o.statusExecutionDigest == o.transactionExecutionDigest
  }

  /** The filters on two complete rows: none reports a conflict, both count, and they differ from themselves or not. */
  lemma PairFilters(x: Observation, y: Observation)
    requires IsComplete(x) && IsComplete(y) && x.safeErrorCode.None? && y.safeErrorCode.None?
    ensures Count([x, y], ConflictRow) == 0 && Count([x, y], CompleteRow) == 2
    ensures Count([x, y], SlotsDiffer) > 0 <==> x.statusSlot != x.slot || y.statusSlot != y.slot
    ensures Count([x, y], ExecutionsDiffer) > 0
      <==> x.statusExecutionDigest != x.transactionExecutionDigest || y.statusExecutionDigest != y.transactionExecutionDigest
  {
    PairCount(x, y, ConflictRow);
    PairCount(x, y, CompleteRow);
    PairCount(x, y, SlotsDiffer);
    PairCount(x, y, ExecutionsDiffer);
  }

  /** No row of the pair contradicts itself, as the CASE tests it. */
  lemma PairConsistent(x: Observation, y: Observation)
    requires IsComplete(x) && IsComplete(y) && x.safeErrorCode.None? && y.safeErrorCode.None?
    ensures SelfConsistent(x) && SelfConsistent(y) <==>
      !(SqlDiffers(MinText(Column([x, y], Finality)), Some(FinalizedFinalized()))
        || SqlDiffers(MaxText(Column([x, y], Finality)), Some(FinalizedFinalized()))
        || Count([x, y], SlotsDiffer) > 0
        || Count([x, y], ExecutionsDiffer) > 0)
  {
    PairFilters(x, y);
    PairValues(x, y);
  }

  /** The rows agree in every column the CASE compares. */
  lemma PairAgrees(x: Observation, y: Observation)
    requires IsComplete(x) && IsComplete(y)
    ensures x.slot == y.slot && (forall field :: Get(x, field) == Get(y, field)) <==>
      && OneValue([x, y], CanonicalDigest) && OneValue([x, y], SnapshotDigest)
      && OneValue([x, y], ParsingDigestField) && OneValue([x, y], TransferIdentityDigest)
      && SqlEqual(MinSlot(SlotColumn([x, y])), MaxSlot(SlotColumn([x, y])))
      && OneValue([x, y], ExecutionState) && OneValue([x, y], ExecutionDigest)
      && OneValue([x, y], StatusExecutionDigest) && OneValue([x, y], TransactionExecutionDigest)
      && OneValue([x, y], Finality)
  {
    PairSlots(x, y);
    PairValues(x, y);
    if forall field :: Get(x, field) == Get(y, field) {
      assert forall field :: OneValue([x, y], field);
    }
  }

  /** For two complete rows the CASE says: each is self-consistent and all columns agree. */
  lemma SqlOfPair(x: Observation, y: Observation)
    requires IsComplete(x) && IsComplete(y) && x.safeErrorCode.None? && y.safeErrorCode.None?
    ensures SqlVerdict([x, y]) ==
      if SelfConsistent(x) && SelfConsistent(y) && x.slot == y.slot && (forall field :: Get(x, field) == Get(y, field))
      then Agreed else Disagreed
  {
    PairFilters(x, y);
    PairConsistent(x, y);
    PairAgrees(x, y);
  }

  lemma FinalityDecides(c: Option<Confirmation>, commitment: Commitment)
    ensures FinalityText(c, commitment) == FinalizedFinalized()
      <==> c == Some(FinalizedStatus) && commitment == Finalized
    ensures 1 <= |FinalityText(c, commitment)| <= 32
  {
    var t, f := FinalityText(c, commitment), FinalizedFinalized();
    assert |f| == 19 && f[9] == 0x2F && f[10] == 0x66;
    if c == Some(FinalizedStatus) && commitment == Finalized {
      assert t == f;
    } else if c == Some(FinalizedStatus) {
      assert t[10] == 0x63;
    } else {
      assert f[0] == 0x66;
      assert t[0] == ConfirmationText(c)[0] != 0x66;
    }
  }

  // What one digest equality of the engine gives back.

  lemma DigestEquality(sha256: Hash, texts: set<Text>, v: Json, w: Json)
    requires CollisionFree(sha256, texts) && CanonicalText(v) in texts && CanonicalText(w) in texts
    requires WellFormed(v) && WellFormed(w) && Digest(v, sha256) == Digest(w, sha256)
    ensures Same(v, w)
  {
    CanonicalTextDecides(v, w);
  }

  lemma ExecutionWellFormed(s: Text, t: Text)
    ensures WellFormed(ExecutionJson(s, t))
  {
    assert |Ascii("status")| != |Ascii("transaction")|;
  }

  lemma RecordWellFormed(signature: Text, status: Status, tx: Transaction, d: Digests)
    ensures WellFormed(CanonicalRecord(signature, status, tx, d))
  {
    assert Ascii("signature")[0] != Ascii("requested")[0];
    assert |Ascii("requested")| == 9 && |Ascii("status")| == 6 && |Ascii("transaction")| == 11;
    assert WellFormed(SignatureJson(signature, status.signature, tx.signature));
    assert WellFormed(SlotJson(status.slot, tx.slot));
    assert |Ascii("signature")| == 9 && |Ascii("slot")| == 4 && |Ascii("executionDigest")| == 15 && |Ascii("finality")| == 8;
    assert |Ascii("snapshotDigest")| == 14 && |Ascii("parsingDigest")| == 13 && |Ascii("transferIdentityDigest")| == 22;
  }

  lemma RecordField(signature: Text, s: Sighting, t: Sighting, i: nat)
    requires i < 7
    requires Same(CanonicalRecord(signature, s.status, s.tx, s.digests), CanonicalRecord(signature, t.status, t.tx, t.digests))
    ensures Same(CanonicalRecord(signature, s.status, s.tx, s.digests).entries[i].value, CanonicalRecord(signature, t.status, t.tx, t.digests).entries[i].value)
  {
    SameField(CanonicalRecord(signature, s.status, s.tx, s.digests).entries,
      CanonicalRecord(signature, t.status, t.tx, t.digests).entries, i);
  }

  lemma SameSlots(a: Option<nat>, m: nat, b: Option<nat>, n: nat)
    requires Same(SlotJson(a, m), SlotJson(b, n))
    ensures m == n
  {
    SameField(SlotJson(a, m).entries, SlotJson(b, n).entries, 1);
    DecimalInjective(m, n);
  }

  lemma SameRecord(signature: Text, s: Sighting, t: Sighting)
    requires Same(CanonicalRecord(signature, s.status, s.tx, s.digests), CanonicalRecord(signature, t.status, t.tx, t.digests))
    ensures s.tx.slot == t.tx.slot
    ensures s.digests.(statusExecution := [], transactionExecution := [])
      == t.digests.(statusExecution := [], transactionExecution := [])
  {
    RecordField(signature, s, t, 1);
    SameSlots(s.status.slot, s.tx.slot, t.status.slot, t.tx.slot);
    RecordField(signature, s, t, 2);
    RecordField(signature, s, t, 3);
    RecordField(signature, s, t, 4);
    RecordField(signature, s, t, 5);
    RecordField(signature, s, t, 6);
  }

  lemma SameExecution(s: Text, t: Text, u: Text, v: Text)
    requires Same(ExecutionJson(s, t), ExecutionJson(u, v))
    ensures s == u && t == v
  {
    SameField(ExecutionJson(s, t).entries, ExecutionJson(u, v).entries, 0);
    SameField(ExecutionJson(s, t).entries, ExecutionJson(u, v).entries, 1);
  }

  /** The execution and finality columns were computed from the sighting itself. */
  predicate Genuine(sha256: Hash, s: Sighting) {
    && WellFormed(s.status.err) && WellFormed(s.tx.meta.err)
    && s.digests.statusExecution == Digest(s.status.err, sha256)
    && s.digests.transactionExecution == Digest(s.tx.meta.err, sha256)
    && s.digests.execution == Digest(ExecutionJson(s.digests.statusExecution, s.digests.transactionExecution), sha256)
    && s.digests.finality == FinalityText(s.status.confirmationStatus, s.tx.commitment)
  }

  /** With equal canonical digests, two sightings agree in everything that is compared. */
  lemma EqualCanonicalDigests(sha256: Hash, signature: Text, s: Sighting, t: Sighting)
    requires Genuine(sha256, s) && Genuine(sha256, t)
    requires CollisionFree(sha256, SightingTexts(signature, s) + SightingTexts(signature, t))
    requires Digest(CanonicalRecord(signature, s.status, s.tx, s.digests), sha256)
      == Digest(CanonicalRecord(signature, t.status, t.tx, t.digests), sha256)
    ensures s.digests == t.digests && s.tx.slot == t.tx.slot
    ensures (s.status.err == Null) == (t.status.err == Null) && (s.tx.meta.err == Null) == (t.tx.meta.err == Null)
  {
    var texts := SightingTexts(signature, s) + SightingTexts(signature, t);
    var d, e := s.digests, t.digests;
    RecordWellFormed(signature, s.status, s.tx, d);
    RecordWellFormed(signature, t.status, t.tx, e);
    DigestEquality(sha256, texts, CanonicalRecord(signature, s.status, s.tx, d),
      CanonicalRecord(signature, t.status, t.tx, e));
    SameRecord(signature, s, t);
    ExecutionWellFormed(d.statusExecution, d.transactionExecution);
    ExecutionWellFormed(e.statusExecution, e.transactionExecution);
    DigestEquality(sha256, texts, ExecutionJson(d.statusExecution, d.transactionExecution),
      ExecutionJson(e.statusExecution, e.transactionExecution));
    SameExecution(d.statusExecution, d.transactionExecution, e.statusExecution, e.transactionExecution);
    DigestEquality(sha256, texts, s.status.err, t.status.err);
    DigestEquality(sha256, texts, s.tx.meta.err, t.tx.meta.err);
  }

  lemma SelfConsistencyIsValidity(sha256: Hash, p: Text, signature: Text, at: int, ms: int, s: Sighting)
    requires Genuine(sha256, s) && s.status.signature == signature && s.tx.signature == signature && s.status.slot.Some?
    ensures var x := CompleteEvidence(sha256, p, signature, at, ms, s);
      IsComplete(x.observation) && x.observation.safeErrorCode.None? && (x.validFinalized <==> SelfConsistent(x.observation))
  {
    FinalityDecides(s.status.confirmationStatus, s.tx.commitment);
  }

  lemma FieldsAgree(sha256: Hash, signature: Text, p: Text, q: Text, at: int, bt: int, ms: int, ns: int, s: Sighting,
      t: Sighting, field: Field)
    requires s.digests == t.digests
    requires (s.status.err == Null) == (t.status.err == Null) && (s.tx.meta.err == Null) == (t.tx.meta.err == Null)
    requires CompleteEvidence(sha256, p, signature, at, ms, s).observation.canonicalDigest
          == CompleteEvidence(sha256, q, signature, bt, ns, t).observation.canonicalDigest
    ensures Get(CompleteEvidence(sha256, p, signature, at, ms, s).observation, field)
         == Get(CompleteEvidence(sha256, q, signature, bt, ns, t).observation, field)
  {}

  lemma PairVerdict(x: Observed, y: Observed)
    requires IsComplete(x.observation) && x.observation.safeErrorCode.None?
    requires x.validFinalized <==> SelfConsistent(x.observation)
    requires IsComplete(y.observation) && y.observation.safeErrorCode.None?
    requires y.validFinalized <==> SelfConsistent(y.observation)
    requires x.observation.canonicalDigest == y.observation.canonicalDigest ==>
      x.observation.slot == y.observation.slot && forall field :: Get(x.observation, field) == Get(y.observation, field)
    ensures SqlVerdict([x.observation, y.observation]) == DecideState(x, y)
  {
    SqlOfPair(x.observation, y.observation);
    assert Get(x.observation, CanonicalDigest) == x.observation.canonicalDigest;
  }

  lemma SightingsAgree(sha256: Hash, signature: Text, p: Text, q: Text, at: int, bt: int, ms: int, ns: int, s: Sighting,
      t: Sighting)
    requires Genuine(sha256, s) && Genuine(sha256, t)
    requires CollisionFree(sha256, SightingTexts(signature, s) + SightingTexts(signature, t))
    requires s.status.signature == signature && s.tx.signature == signature && s.status.slot.Some?
    requires t.status.signature == signature && t.tx.signature == signature && t.status.slot.Some?
    ensures var x, y := CompleteEvidence(sha256, p, signature, at, ms, s), CompleteEvidence(sha256, q, signature, bt, ns, t);
      x.observation.canonicalDigest == y.observation.canonicalDigest ==>
        x.observation.slot == y.observation.slot && forall field :: Get(x.observation, field) == Get(y.observation, field)
  {
    var x, y := CompleteEvidence(sha256, p, signature, at, ms, s), CompleteEvidence(sha256, q, signature, bt, ns, t);
    if x.observation.canonicalDigest == y.observation.canonicalDigest {
      EqualCanonicalDigests(sha256, signature, s, t);
      forall field ensures Get(x.observation, field) == Get(y.observation, field) {
        FieldsAgree(sha256, signature, p, q, at, bt, ms, ns, s, t, field);
      }
    }
  }

  /** What the adapter's guarantees make of an answer that carries everything. */
  lemma AdapterSighting(runtime: Runtime, signature: Text, p: Text, at: int, ms: int, answer: Answer)
    requires AdapterAnswer(answer, signature) && HasBoth(runtime, answer)
    ensures ObserveProvider(runtime, p, signature, at, ms, answer)
      == CompleteEvidence(runtime.sha256, p, signature, at, Elapsed(ms), SightingOf(runtime, answer))
    ensures AdapterSigns(runtime.sha256, signature, SightingOf(runtime, answer))
  {
  }

  predicate AdapterSigns(sha256: Hash, signature: Text, s: Sighting) {
    && Genuine(sha256, s) && s.status.signature == signature && s.tx.signature == signature
    && HasSafeSlot(s.status.slot) && s.tx.slot <= MAX_SAFE_INTEGER && s.tx.commitment == Finalized
  }

  /**
   For every pair of answers the adapter can give, the engine and the database reach one
   verdict, as long as SHA-256 does not collide on the texts this check hashes.
   */
  lemma VerdictsAgree(runtime: Runtime, signature: Text, p: Text, q: Text, at: int, ms: int, ns: int, answer: Answer,
      other: Answer)
    requires AdapterAnswer(answer, signature) && AdapterAnswer(other, signature)
    requires CollisionFree(runtime.sha256, HashedTexts(runtime, signature, answer) + HashedTexts(runtime, signature, other))
    ensures var x, y := ObserveProvider(runtime, p, signature, at, ms, answer), ObserveProvider(runtime, q, signature, at, ns, other);
      SqlVerdict([x.observation, y.observation]) == DecideState(x, y)
  {
    var x, y := ObserveProvider(runtime, p, signature, at, ms, answer), ObserveProvider(runtime, q, signature, at, ns, other);
    ObservedThroughAdapter(runtime, signature, p, at, ms, answer);
    ObservedThroughAdapter(runtime, signature, q, at, ns, other);
    if HasBoth(runtime, answer) && HasBoth(runtime, other) {
      AdapterSighting(runtime, signature, p, at, ms, answer);
      AdapterSighting(runtime, signature, q, at, ns, other);
      SightingsAgree(runtime.sha256, signature, p, q, at, at, Elapsed(ms), Elapsed(ns), SightingOf(runtime, answer),
        SightingOf(runtime, other));
      PairVerdict(x, y);
    } else {
      IncompletePair(x, y);
    }
  }

  /** What the adapter's errors make of an answer that lacks something. */
  lemma FailureThroughAdapter(runtime: Runtime, signature: Text, p: Text, at: int, ms: int, answer: Answer)
    requires AdapterAnswer(answer, signature) && !HasBoth(runtime, answer)
    ensures var x := ObserveProvider(runtime, p, signature, at, ms, answer);
      && IsEmpty(x.observation) && !x.validFinalized && x.observation.providerId == p && x.observation.observedAt == at
      && x.observation.responseTimeMs == Elapsed(ms)
      && x.observation.safeErrorCode.Some? && SafeCode(x.observation.safeErrorCode.value)
      && x.observation.safeErrorRetryable.Some?
      && (x.observation.safeErrorCode.value == RpcSignatureConflict ==> !x.observation.safeErrorRetryable.value)
      && (x.observation.safeErrorCode.value == RpcTransactionSchemaInvalid ==> x.observation.safeErrorRetryable.value)
  {
    FailureIsAdapters(runtime, answer, signature);
  }

  /** Only errors of the adapter, or of the observation itself, surface. */
  lemma FailureIsAdapters(runtime: Runtime, answer: Answer, signature: Text)
    requires AdapterAnswer(answer, signature) && !HasBoth(runtime, answer)
    ensures answer.statuses.Err? ==> AdapterError(answer.statuses.error)
    ensures answer.transaction.Err? ==> AdapterError(answer.transaction.error)
  {
  }

  lemma ObservedThroughAdapter(runtime: Runtime, signature: Text, p: Text, at: int, ms: int, answer: Answer)
    requires AdapterAnswer(answer, signature)
    ensures var x := ObserveProvider(runtime, p, signature, at, ms, answer);
      if HasBoth(runtime, answer)
      then IsComplete(x.observation) && x.observation.safeErrorCode.None? && (x.validFinalized <==> SelfConsistent(x.observation))
      else IsEmpty(x.observation) && (x.observation.safeErrorCode == Some(RpcSignatureConflict) ==> x.observation.safeErrorRetryable == Some(false))
  {
    if HasBoth(runtime, answer) {
      AdapterSighting(runtime, signature, p, at, ms, answer);
      SelfConsistencyIsValidity(runtime.sha256, p, signature, at, Elapsed(ms), SightingOf(runtime, answer));
    } else {
      FailureThroughAdapter(runtime, signature, p, at, ms, answer);
    }
  }

  lemma IncompletePair(x: Observed, y: Observed)
    requires x.observation.canonicalDigest.None? || y.observation.canonicalDigest.None?
    requires x.observation.safeErrorCode == Some(RpcSignatureConflict) ==>
      x.observation.safeErrorRetryable == Some(false)
    requires y.observation.safeErrorCode == Some(RpcSignatureConflict) ==>
      y.observation.safeErrorRetryable == Some(false)
    ensures SqlVerdict([x.observation, y.observation]) == DecideState(x, y)
  {
    PairCount(x.observation, y.observation, ConflictRow);
    PairCount(x.observation, y.observation, CompleteRow);
  }

  /** The completion check accepts whatever the engine observes through the adapter. */
  lemma EngineEvidenceIsValid(runtime: Runtime, signature: Text, p: Text, at: int, ms: int, answer: Answer)
    requires AdapterAnswer(answer, signature) && 1 <= |p| <= 64
    requires forall t :: IsHexDigest(runtime.sha256(t))
    ensures ValidObservation(ObserveProvider(runtime, p, signature, at, ms, answer).observation)
  {
    if HasBoth(runtime, answer) {
      AdapterSighting(runtime, signature, p, at, ms, answer);
      var s := SightingOf(runtime, answer);
      FinalityDecides(s.status.confirmationStatus, s.tx.commitment);
      SightingValid(runtime.sha256, signature, p, at, Elapsed(ms), s);
    } else {
      FailureThroughAdapter(runtime, signature, p, at, ms, answer);
    }
  }

  lemma SightingValid(sha256: Hash, signature: Text, p: Text, at: int, ms: int, s: Sighting)
    requires 1 <= |p| <= 64 && 0 <= ms <= 300_000
    requires HasSafeSlot(s.status.slot) && s.tx.slot <= MAX_SAFE_INTEGER
    requires forall t :: IsHexDigest(sha256(t))
    requires IsHexDigest(s.digests.snapshot) && IsHexDigest(s.digests.parsing)
    requires IsHexDigest(s.digests.transferIdentity)
    requires IsHexDigest(s.digests.statusExecution) && IsHexDigest(s.digests.transactionExecution)
    requires IsHexDigest(s.digests.execution)
    requires 1 <= |s.digests.finality| <= 32
    ensures ValidObservation(CompleteEvidence(sha256, p, signature, at, ms, s).observation)
  {}

  // ------------------------------------------------- what agreement means

  /** A row counts as complete only if there was a transaction that parses. */
  lemma CompleteWasSeen(runtime: Runtime, signature: Text, p: Text, at: int, ms: int, answer: Answer)
    requires IsComplete(ObserveProvider(runtime, p, signature, at, ms, answer).observation)
    ensures HasBoth(runtime, answer)
    ensures ObserveProvider(runtime, p, signature, at, ms, answer).observation.parsingDigest
      == Some(CreateParsingDigest(answer.transaction.value.value.tx, runtime.collation, runtime.sha256))
  {
  }

  lemma AgreedRows(x: Observation, y: Observation)
    requires SqlVerdict([x, y]) == Agreed
    ensures IsComplete(x) && IsComplete(y) && x.parsingDigest == y.parsingDigest
  {
    PairCount(x, y, ConflictRow);
    PairCount(x, y, CompleteRow);
    PairValues(x, y);
    assert Get(x, ParsingDigestField) == Get(y, ParsingDigestField);
  }

  /**
   A check settled as agreed: both providers' transactions parse alike for every watched address, or
   SHA-256 collides on their fingerprints.
   */
  lemma AgreedParseAlike(runtime: Runtime, signature: Text, p: Text, q: Text, at: int, ms: int, ns: int, answer: Answer,
      other: Answer, watched: Option<Text>)
    requires AdapterAnswer(answer, signature) && AdapterAnswer(other, signature)
    requires SqlVerdict([ObserveProvider(runtime, p, signature, at, ms, answer).observation, ObserveProvider(runtime, q, signature, at, ns, other).observation]) == Agreed
    ensures HasBoth(runtime, answer) && HasBoth(runtime, other)
    ensures var t, u := answer.transaction.value.value.tx, other.transaction.value.value.tx;
      || ParseTransactionTransfers(t, runtime.base58, watched) == ParseTransactionTransfers(u, runtime.base58, watched)
      || Collision(runtime.sha256, CanonicalText(Fingerprint(t, runtime.collation)), CanonicalText(Fingerprint(u, runtime.collation)))
  {
    AgreedRows(ObserveProvider(runtime, p, signature, at, ms, answer).observation,
      ObserveProvider(runtime, q, signature, at, ns, other).observation);
    CompleteWasSeen(runtime, signature, p, at, ms, answer);
    CompleteWasSeen(runtime, signature, q, at, ns, other);
    EqualDigestsParseAlike(answer.transaction.value.value.tx, other.transaction.value.value.tx, runtime.collation,
      runtime.sha256, runtime.base58, watched);
  }
}
