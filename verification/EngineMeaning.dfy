/**
 What the engine's own verdict means, in terms of what the two providers answered, and what the
 observation of each of them says.
 */
module EngineMeaning {
  import opened Wrappers
  import opened Texts
  import opened CanonicalJson
  import opened Transactions
  import opened TransferParser
  import opened ParsingDigest
  import opened EvidenceTables
  import opened FinalizedConsensus

  // ------------------------------------------------------------------ one provider

  /** The provider answered with one status and a transaction that parses. */
  predicate Whole(runtime: Runtime, answer: Answer) {
    && answer.statuses.Ok? && |answer.statuses.value| == 1 && answer.statuses.value[0].Some?
    && answer.transaction.Ok? && answer.transaction.value.Some?
    && ParseTransactionTransfers(answer.transaction.value.value.tx, runtime.base58, None).Ok?
  }

  /** The observation says what a whole answer says, column by column. */
  predicate Says(o: Observation, runtime: Runtime, status: Status, f: Fetched) {
    && ParseTransactionTransfers(f.tx, runtime.base58, None).Ok?
    && o.snapshotDigest == Some(Digest(f.body, runtime.sha256))
    && o.parsingDigest == Some(CreateParsingDigest(f.tx, runtime.collation, runtime.sha256))
    && o.transferIdentityDigest
       == Some(Digest(runtime.identity(ParseTransactionTransfers(f.tx, runtime.base58, None).value), runtime.sha256))
    && o.statusSlot == status.slot && o.slot == Some(f.tx.slot)
    && o.statusExecutionDigest == Some(Digest(status.err, runtime.sha256))
    && o.transactionExecutionDigest == Some(Digest(f.tx.meta.err, runtime.sha256))
    && (o.executionState == Some(Ascii("succeeded")) <==> status.err == Null && f.tx.meta.err == Null)
    && (o.executionState == Some(Ascii("failed")) <==> status.err != Null || f.tx.meta.err != Null)
    && (o.finality == Some(Ascii("finalized/finalized"))
        <==> status.confirmationStatus == Some(FinalizedStatus) && f.tx.commitment == Finalized)
    && o.canonicalDigest.Some? && o.executionDigest.Some? && o.finality.Some?
    && o.safeErrorCode.None? && o.safeErrorRetryable.None?
  }

  /** The error that is seen, if the requests themselves failed: with two failures the first to settle. */
  function Seen(answer: Answer): Option<Thrown> {
    if answer.statuses.Err? && answer.transaction.Err? then
      Some(if answer.statusesSettleFirst then answer.statuses.error else answer.transaction.error)
    else if answer.statuses.Err? then Some(answer.statuses.error)
    else if answer.transaction.Err? then Some(answer.transaction.error)
    else None
  }

  /** The codes of the pipeline that are safe to keep; everything else is a transport error that may pass. */
  predicate KeptCode(code: ErrorCode) {
    match code
    case RpcTransportError | RpcRateLimited | RpcInvalidJson | RpcError | RpcTransactionMissing | RpcSignatureConflict
       | RpcUnsupportedVersion | RpcTransactionSchemaInvalid | FinalityStatusMissing => true
    case _ => false
  }

  predicate Reports(o: Observation, code: ErrorCode, retryable: bool) {
    o.safeErrorCode == Some(code) && o.safeErrorRetryable == Some(retryable)
  }

  /** An error of the pipeline with a safe code is reported as it is, any other as one of transport. */
  predicate Blames(o: Observation, error: Thrown) {
    match error
    case Ingestion(code, retryable) => if KeptCode(code) then Reports(o, code, retryable) else Reports(o, RpcTransportError, true)
    case Foreign => Reports(o, RpcTransportError, true)
  }

  /** The observation has no evidence, and says why. */
  predicate SaysWhy(o: Observation, runtime: Runtime, answer: Answer) {
    && IsEmpty(o)
    && match Seen(answer)
       case Some(error) => Blames(o, error)
       case None =>
         if |answer.statuses.value| != 1 then Reports(o, RpcInvalidJson, true)
         else if answer.statuses.value[0].None? || answer.transaction.value.None? then Reports(o, FinalityStatusMissing, true)
         else Reports(o, RpcTransportError, true)
  }

  lemma WholeMeans(runtime: Runtime, providerId: Text, signature: Text, at: int, milliseconds: int, answer: Answer)
    requires Whole(runtime, answer)
    ensures Says(ObserveProvider(runtime, providerId, signature, at, milliseconds, answer).observation, runtime,
      answer.statuses.value[0].value, answer.transaction.value.value)
  {
    FinalityDecides(answer.statuses.value[0].value.confirmationStatus, answer.transaction.value.value.tx.commitment);
    assert Ascii("succeeded")[0] != Ascii("failed")[0];
  }

  lemma SafeFailureMeans(providerId: Text, at: int, elapsed: int, error: Thrown)
    ensures var o := SafeFailure(providerId, at, elapsed, error);
      IsEmpty(o) && Blames(o, error) && o.providerId == providerId && o.observedAt == at && o.responseTimeMs == elapsed
  {
  }

  lemma FailureMeans(runtime: Runtime, providerId: Text, at: int, elapsed: int, answer: Answer)
    requires !HasBoth(runtime, answer)
    ensures var o := FailedObservation(runtime, providerId, at, elapsed, answer);
      SaysWhy(o, runtime, answer) && o.providerId == providerId && o.observedAt == at && o.responseTimeMs == elapsed
  {
    if Seen(answer).Some? {
      SafeFailureMeans(providerId, at, elapsed, Seen(answer).value);
    } else {
      SafeFailureMeans(providerId, at, elapsed, Ingestion(RpcInvalidJson, true));
      SafeFailureMeans(providerId, at, elapsed, Foreign);
    }
  }

  /** What is observed of one provider: its answer, or why there is none; in its own name, and within five minutes. */
  lemma ObservationMeans(runtime: Runtime, providerId: Text, signature: Text, at: int, milliseconds: int,
      answer: Answer)
    ensures var o := ObserveProvider(runtime, providerId, signature, at, milliseconds, answer).observation;
      && o.providerId == providerId && o.observedAt == at
      && (0 <= milliseconds <= 300_000 ==> o.responseTimeMs == milliseconds)
      && (milliseconds < 0 ==> o.responseTimeMs == 0) && (milliseconds > 300_000 ==> o.responseTimeMs == 300_000)
      && (Whole(runtime, answer) ==> Says(o, runtime, answer.statuses.value[0].value, answer.transaction.value.value))
      && (!Whole(runtime, answer) ==> SaysWhy(o, runtime, answer))
  {
    if Whole(runtime, answer) {
      WholeMeans(runtime, providerId, signature, at, milliseconds, answer);
    } else {
      FailureMeans(runtime, providerId, at, Elapsed(milliseconds), answer);
    }
  }

  // ------------------------------------------------------------------ both providers

  /** Status and transaction are those asked for, say the same, and are finalized. */
  predicate FinalAnswer(runtime: Runtime, signature: Text, answer: Answer) {
    && Whole(runtime, answer)
    && var status, tx := answer.statuses.value[0].value, answer.transaction.value.value.tx;
       && status.signature == signature && tx.signature == signature
       && status.slot == Some(tx.slot) && Digest(status.err, runtime.sha256) == Digest(tx.meta.err, runtime.sha256)
       && status.confirmationStatus == Some(FinalizedStatus) && tx.commitment == Finalized
  }

  /** The transactions are of one slot, with one body, one fingerprint, one list of transfers and one outcome. */
  predicate SameAnswer(runtime: Runtime, answer: Answer, other: Answer)
    requires Whole(runtime, answer) && Whole(runtime, other)
  {
    var f, g := answer.transaction.value.value, other.transaction.value.value;
    && f.tx.slot == g.tx.slot
    && Digest(f.body, runtime.sha256) == Digest(g.body, runtime.sha256)
    && CreateParsingDigest(f.tx, runtime.collation, runtime.sha256) == CreateParsingDigest(g.tx, runtime.collation, runtime.sha256)
    && Digest(runtime.identity(ParseTransactionTransfers(f.tx, runtime.base58, None).value), runtime.sha256)
       == Digest(runtime.identity(ParseTransactionTransfers(g.tx, runtime.base58, None).value), runtime.sha256)
    && Digest(f.tx.meta.err, runtime.sha256) == Digest(g.tx.meta.err, runtime.sha256)
  }

  /** The provider found the signature to be in conflict, for good. */
  predicate SawConflict(answer: Answer) { Seen(answer) == Some(Ingestion(RpcSignatureConflict, false)) }

  lemma SeenAnswers(runtime: Runtime, providerId: Text, signature: Text, at: int, milliseconds: int, answer: Answer)
    ensures var o := ObserveProvider(runtime, providerId, signature, at, milliseconds, answer).observation;
      && (o.safeErrorCode == Some(RpcSignatureConflict) && o.safeErrorRetryable == Some(false) <==> SawConflict(answer))
      && (o.canonicalDigest.Some? <==> Whole(runtime, answer))
  {
    ObservationMeans(runtime, providerId, signature, at, milliseconds, answer);
  }

  lemma FinalIs(runtime: Runtime, providerId: Text, signature: Text, at: int, milliseconds: int, answer: Answer)
    ensures ObserveProvider(runtime, providerId, signature, at, milliseconds, answer).validFinalized
      <==> FinalAnswer(runtime, signature, answer)
  {
  }

  lemma SameRecordIs(runtime: Runtime, p: Text, q: Text, signature: Text, at: int, ms: int, ns: int, answer: Answer,
      other: Answer)
    requires AdapterAnswer(answer, signature) && AdapterAnswer(other, signature)
    requires CollisionFree(runtime.sha256, HashedTexts(runtime, signature, answer) + HashedTexts(runtime, signature, other))
    requires FinalAnswer(runtime, signature, answer) && FinalAnswer(runtime, signature, other)
    ensures ObserveProvider(runtime, p, signature, at, ms, answer).observation.canonicalDigest
        == ObserveProvider(runtime, q, signature, at, ns, other).observation.canonicalDigest
      <==> SameAnswer(runtime, answer, other)
  {
    AdapterSighting(runtime, signature, p, at, ms, answer);
    AdapterSighting(runtime, signature, q, at, ns, other);
    var s, t := SightingOf(runtime, answer), SightingOf(runtime, other);
    if Digest(CanonicalRecord(signature, s.status, s.tx, s.digests), runtime.sha256)
       == Digest(CanonicalRecord(signature, t.status, t.tx, t.digests), runtime.sha256) {
      EqualCanonicalDigests(runtime.sha256, signature, s, t);
    }
  }

  /** What the verdict looks at in one observation, in terms of the answer. */
  predicate Reflects(x: Observed, runtime: Runtime, signature: Text, answer: Answer) {
    && (x.observation.safeErrorCode == Some(RpcSignatureConflict) && x.observation.safeErrorRetryable == Some(false)
        <==> SawConflict(answer))
    && (x.observation.canonicalDigest.Some? <==> Whole(runtime, answer))
    && (x.validFinalized <==> FinalAnswer(runtime, signature, answer))
    && (FinalAnswer(runtime, signature, answer) ==> Whole(runtime, answer) && !SawConflict(answer))
  }

  lemma AnswerReflected(runtime: Runtime, providerId: Text, signature: Text, at: int, milliseconds: int, answer: Answer)
    ensures Reflects(ObserveProvider(runtime, providerId, signature, at, milliseconds, answer), runtime, signature, answer)
  {
    SeenAnswers(runtime, providerId, signature, at, milliseconds, answer);
    FinalIs(runtime, providerId, signature, at, milliseconds, answer);
  }

  /** Both answers are final and tell of the same transaction. */
  predicate Agrees(runtime: Runtime, signature: Text, answer: Answer, other: Answer) {
    && FinalAnswer(runtime, signature, answer) && FinalAnswer(runtime, signature, other)
    && SameAnswer(runtime, answer, other)
  }

  lemma Judged(runtime: Runtime, signature: Text, x: Observed, y: Observed, answer: Answer, other: Answer)
    requires Reflects(x, runtime, signature, answer) && Reflects(y, runtime, signature, other)
    requires FinalAnswer(runtime, signature, answer) && FinalAnswer(runtime, signature, other) ==>
      (x.observation.canonicalDigest == y.observation.canonicalDigest <==> SameAnswer(runtime, answer, other))
    ensures DecideState(x, y) == Pending <==>
      !SawConflict(answer) && !SawConflict(other) && !(Whole(runtime, answer) && Whole(runtime, other))
    ensures DecideState(x, y) == Agreed <==> Agrees(runtime, signature, answer, other)
  {
  }

  /**
   The engine calls two answers disagreed when a provider saw a conflict, pending when an answer
   is not whole, and agreed exactly when both are final and tell of the same transaction, as long
   as SHA-256 does not collide on the texts hashed.
   */
  lemma EngineVerdictMeans(runtime: Runtime, p: Text, q: Text, signature: Text, at: int, ms: int, ns: int,
      answer: Answer, other: Answer)
    requires AdapterAnswer(answer, signature) && AdapterAnswer(other, signature)
    requires CollisionFree(runtime.sha256, HashedTexts(runtime, signature, answer) + HashedTexts(runtime, signature, other))
    ensures var verdict := DecideState(ObserveProvider(runtime, p, signature, at, ms, answer),
                                       ObserveProvider(runtime, q, signature, at, ns, other));
      && (verdict == Pending <==>
            !SawConflict(answer) && !SawConflict(other) && !(Whole(runtime, answer) && Whole(runtime, other)))
      && (verdict == Agreed <==> Agrees(runtime, signature, answer, other))
  {
    AnswerReflected(runtime, p, signature, at, ms, answer);
    AnswerReflected(runtime, q, signature, at, ns, other);
    if FinalAnswer(runtime, signature, answer) && FinalAnswer(runtime, signature, other) {
      SameRecordIs(runtime, p, q, signature, at, ms, ns, answer, other);
    }
    Judged(runtime, signature, ObserveProvider(runtime, p, signature, at, ms, answer), ObserveProvider(runtime, q, signature, at, ns, other),
      answer, other);
  }
}
