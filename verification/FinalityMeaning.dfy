/**
 What refreshing finality means for every table: which outcome each answer of the provider leads
 to, what the row, the events, the raw transactions and the quarantines become, and what a whole
 batch leaves behind.
 */
module FinalityMeaning {
  import opened Wrappers
  import opened Texts
  import opened Transactions
  import opened ParsingDigest
  import opened EvidenceTables
  import opened RepresentationStore
  import opened FinalityStore
  import opened FinalityEngine
  import Consensus = FinalizedConsensus
  import CanonicalJson

  // ------------------------------------------------------------------ what was observed

  /** Nobody has taken or settled the candidate since it was claimed. */
  predicate Held(t: Tables, c: Candidate) {
    && c.key in t.rows
    && var row := t.rows[c.key];
       && row.providerId == c.providerId && row.state == c.state
       && row.claim.Some? && row.claim.value.token == c.token
  }

  /** Missing for the third time, and for 64 slots since it was first missing and since its own slot. */
  predicate LongMissing(c: Candidate, contextSlot: nat) {
    && 2 <= c.missing && c.firstMissing.Some?
    && 64 <= contextSlot - c.firstMissing.value && 64 <= contextSlot - c.slot
  }

  predicate SaysFailed(e: Evidence) { e.status.Some? && e.status.value.err != CanonicalJson.Null }

  predicate SaysFinalized(e: Evidence) {
    e.status.Some? && e.status.value.err == CanonicalJson.Null && e.status.value.confirmationStatus == Some(Consensus.FinalizedStatus)
  }

  predicate SaysConfirmed(e: Evidence) {
    e.status.Some? && e.status.value.err == CanonicalJson.Null && e.status.value.confirmationStatus == Some(Consensus.ConfirmedStatus)
  }

  /** The finalized transaction is asked for, and the answer is the one in the evidence. */
  predicate AsksFor(c: Candidate, e: Evidence, contextSlot: nat) {
    SaysFinalized(e) || (e.status.None? && LongMissing(c, contextSlot) && !c.hasFinalizedSnapshot)
  }

  predicate Gives(c: Candidate, e: Evidence, contextSlot: nat) {
    AsksFor(c, e, contextSlot) && e.answer.Ok? && e.answer.value.Some?
  }

  predicate Refuses(c: Candidate, e: Evidence, contextSlot: nat) {
    AsksFor(c, e, contextSlot) && e.answer.Err? && e.answer.error.Ingestion? && !e.answer.error.retryable
  }

  /** The request failed in a way that may pass. */
  predicate Passes(e: Evidence) { e.answer.Err? && (e.answer.error.Ingestion? ==> e.answer.error.retryable) }

  predicate FinalizedStored(t: Tables, c: Candidate) {
    exists i :: 0 <= i < |t.raws|
      && t.raws[i].providerId == c.providerId && t.raws[i].signature == c.key.signature && t.raws[i].commitment == Finalized
  }

  /** A finalized transaction with another body is stored already. */
  predicate OtherStored(t: Tables, runtime: Runtime, c: Candidate, e: Evidence, contextSlot: nat) {
    && Gives(c, e, contextSlot)
    && exists i :: 0 <= i < |t.raws|
         && t.raws[i].providerId == c.providerId && t.raws[i].signature == c.key.signature && t.raws[i].commitment == Finalized
         && t.raws[i].digest != Digest(e.answer.value.value.body, runtime.sha256)
  }

  /** The finalized transaction has the parsing digest of the confirmed one. */
  predicate SameContent(runtime: Runtime, c: Candidate, e: Evidence)
    requires e.answer.Ok? && e.answer.value.Some?
  {
    c.confirmedDigest == Some(CreateParsingDigest(e.answer.value.value.tx, runtime.collation, runtime.sha256))
  }

  /** The finalized transaction is not the confirmed one. */
  predicate ContentDiffers(runtime: Runtime, c: Candidate, e: Evidence) {
    SaysFinalized(e) && e.answer.Ok? && e.answer.value.Some? && !SameContent(runtime, c, e)
  }

  /** What tells nothing: the state stays as it is. */
  predicate Undecided(t: Tables, runtime: Runtime, c: Candidate, e: Evidence, contextSlot: nat) {
    if e.status.None? then
      || !LongMissing(c, contextSlot) || c.hasFinalizedSnapshot
      || Passes(e)
      || (e.answer == Ok(None) && FinalizedStored(t, c))
      || (e.answer.Ok? && e.answer.value.Some? && !OtherStored(t, runtime, c, e, contextSlot))
    else if SaysFinalized(e) then
      e.answer == Ok(None) || Passes(e)
    else !SaysFailed(e) && !SaysConfirmed(e)
  }

  // ------------------------------------------------------------------ one candidate

  function Outcome(t: Tables, runtime: Runtime, c: Candidate, e: Evidence, contextSlot: nat): (Tables, FinalityResult) {
    AfterFinality(t, InputOf(runtime, c, e.status, contextSlot, e.answer))
  }

  predicate IsOpen(c: Candidate) { c.state == Detected || c.state == ConfirmedState }

  lemma AskedIs(c: Candidate, contextSlot: nat)
    ensures ShouldTestReversion(c, contextSlot) <==> LongMissing(c, contextSlot)
  {
  }

  /** What the engine makes of the evidence, before the store looks at it. */
  lemma InputIs(runtime: Runtime, c: Candidate, e: Evidence, contextSlot: nat)
    ensures var input := InputOf(runtime, c, e.status, contextSlot, e.answer);
      && input.candidate == c && input.observed == e.status.Some? && input.contextSlot == contextSlot
      && input.snapshot == (if Gives(c, e, contextSlot) then Some(Digest(e.answer.value.value.body, runtime.sha256)) else None)
  {
    AskedIs(c, contextSlot);
  }

  lemma ContradictedIs(t: Tables, runtime: Runtime, c: Candidate, e: Evidence, contextSlot: nat)
    ensures Contradicted(t.raws, InputOf(runtime, c, e.status, contextSlot, e.answer))
      <==> OtherStored(t, runtime, c, e, contextSlot)
    ensures HasFinalized(t.raws, c.providerId, c.key.signature) <==> FinalizedStored(t, c)
  {
    InputIs(runtime, c, e, contextSlot);
  }

  /** What the engine asks the store to record. */
  lemma NextIs(runtime: Runtime, c: Candidate, e: Evidence, contextSlot: nat)
    requires IsOpen(c)
    ensures var next := InputOf(runtime, c, e.status, contextSlot, e.answer).nextState;
      && (next == FailedState <==> SaysFailed(e))
      && (next == QuarantinedState <==> Refuses(c, e, contextSlot) || ContentDiffers(runtime, c, e))
      && (next == FinalizedState <==> SaysFinalized(e) && e.answer.Ok? && e.answer.value.Some? && SameContent(runtime, c, e))
      && (next == Reverted <==> e.status.None? && AsksFor(c, e, contextSlot) && e.answer == Ok(None))
      && (next == ConfirmedState && c.state != ConfirmedState ==> SaysConfirmed(e))
      && (SaysConfirmed(e) ==> next == ConfirmedState)
  {
    AskedIs(c, contextSlot);
  }

  /** The outcome is recorded exactly for a candidate still held, and it is exactly what was observed. */
  lemma OutcomeMeans(t: Tables, runtime: Runtime, c: Candidate, e: Evidence, contextSlot: nat)
    requires IsOpen(c)
    ensures var (next, result) := Outcome(t, runtime, c, e, contextSlot);
      && (result.applied <==> Held(t, c))
      && (!result.applied ==> next == t && result.state == c.state)
      && (result.applied ==>
            && (result.state == FailedState <==> SaysFailed(e))
            && (result.state == QuarantinedState <==>
                  Refuses(c, e, contextSlot) || ContentDiffers(runtime, c, e) || OtherStored(t, runtime, c, e, contextSlot))
            && (result.state == FinalizedState <==>
                  && SaysFinalized(e) && e.answer.Ok? && e.answer.value.Some? && SameContent(runtime, c, e)
                  && !OtherStored(t, runtime, c, e, contextSlot))
            && (result.state == Reverted <==>
                  && e.status.None? && LongMissing(c, contextSlot) && !c.hasFinalizedSnapshot
                  && e.answer == Ok(None) && !FinalizedStored(t, c))
            && (result.state == ConfirmedState <==>
                  SaysConfirmed(e) || (c.state == ConfirmedState && Undecided(t, runtime, c, e, contextSlot)))
            && (result.state == Detected <==> c.state == Detected && Undecided(t, runtime, c, e, contextSlot)))
  {
    NextIs(runtime, c, e, contextSlot);
    InputIs(runtime, c, e, contextSlot);
    ContradictedIs(t, runtime, c, e, contextSlot);
  }

  /** The row carries the outcome, counts the absence from its first slot on, and is free again. */
  predicate RowCarries(before: SignatureRow, after: SignatureRow, state: FinalityState, seen: bool, contextSlot: nat) {
    && after.state == state && after.claim.None?
    && after.missing == (if seen then 0 else before.missing + 1)
    && (seen ==> after.firstMissing.None?)
    && (!seen ==> after.firstMissing == (if before.firstMissing.None? then Some(contextSlot) else before.firstMissing))
    && after.providerId == before.providerId && after.slot == before.slot && after.classification == before.classification
    && after.rawTransactionId == before.rawTransactionId && after.parseDigest == before.parseDigest
  }

  /**
   Of the cluster and signature: a quarantine takes every event, another outcome those that are not
   settled otherwise.
   */
  predicate EventsCarry(before: ChainEvents, after: ChainEvents, cluster: Cluster, signature: Text,
      state: FinalityState) {
    && after.Keys == before.Keys
    && forall id :: id in before ==>
         after[id] == (if before[id].cluster == cluster && before[id].signature == signature
                          && (state == QuarantinedState || before[id].state in {Detected, ConfirmedState})
                       then before[id].(state := state) else before[id])
  }

  /** The finalized transaction that was given is stored, once. */
  predicate RawsCarry(before: seq<RawTransaction>, after: seq<RawTransaction>, runtime: Runtime, c: Candidate,
      e: Evidence,
      contextSlot: nat) {
    if Gives(c, e, contextSlot) then
      var raw := RawTransaction(c.providerId, c.key.signature, Finalized,
        Digest(e.answer.value.value.body, runtime.sha256));
      raw in after && after == (if raw in before then before else before + [raw])
    else after == before
  }

  /** Why a candidate is quarantined: its content, or else the error that came instead of it. */
  function ReasonOf(c: Candidate, e: Evidence, contextSlot: nat): ErrorCode {
    if Refuses(c, e, contextSlot) then e.answer.error.code else FinalityContentConflict
  }

  lemma RowMeans(t: Tables, runtime: Runtime, c: Candidate, e: Evidence, contextSlot: nat)
    requires Held(t, c)
    ensures var (next, result) := Outcome(t, runtime, c, e, contextSlot);
      && next.rows.Keys == t.rows.Keys
      && (forall key :: key in t.rows && key != c.key ==> next.rows[key] == t.rows[key])
      && RowCarries(t.rows[c.key], next.rows[c.key], result.state, e.status.Some?, contextSlot)
  {
  }

  lemma EventsMean(t: Tables, runtime: Runtime, c: Candidate, e: Evidence, contextSlot: nat)
    requires Held(t, c)
    ensures var (next, result) := Outcome(t, runtime, c, e, contextSlot);
      && EventsCarry(t.book.events, next.book.events, c.cluster, c.key.signature, result.state)
      && next.book.normalized == t.book.normalized && next.book.references == t.book.references
  {
  }

  lemma RawMeans(t: Tables, runtime: Runtime, c: Candidate, e: Evidence, contextSlot: nat)
    requires Held(t, c)
    ensures RawsCarry(t.raws, Outcome(t, runtime, c, e, contextSlot).0.raws, runtime, c, e, contextSlot)
  {
    InputIs(runtime, c, e, contextSlot);
  }

  /** A quarantined candidate is reported once. */
  predicate ReportCarries(t: Tables, after: seq<Quarantine>, state: FinalityState, c: Candidate, reason: ErrorCode) {
    var report := Quarantine(c.providerId, c.key.watchTargetId, c.key.signature, reason, true);
    after == (if state == QuarantinedState && report !in t.quarantines then t.quarantines + [report] else t.quarantines)
  }

  /** The code of what is quarantined before the store looks at it. */
  lemma CodeIs(runtime: Runtime, c: Candidate, e: Evidence, contextSlot: nat)
    ensures var code := InputOf(runtime, c, e.status, contextSlot, e.answer).code;
      && (Refuses(c, e, contextSlot) ==> code == Some(e.answer.error.code))
      && (ContentDiffers(runtime, c, e) ==> code == Some(FinalityContentConflict))
  {
    AskedIs(c, contextSlot);
  }

  lemma ReportMeans(t: Tables, runtime: Runtime, c: Candidate, e: Evidence, contextSlot: nat)
    requires IsOpen(c) && Held(t, c)
    ensures var (next, result) := Outcome(t, runtime, c, e, contextSlot);
      ReportCarries(t, next.quarantines, result.state, c, ReasonOf(c, e, contextSlot))
  {
    OutcomeMeans(t, runtime, c, e, contextSlot);
    ContradictedIs(t, runtime, c, e, contextSlot);
    CodeIs(runtime, c, e, contextSlot);
  }

  /** What an outcome that is recorded leaves in every table. */
  lemma TablesMean(t: Tables, runtime: Runtime, c: Candidate, e: Evidence, contextSlot: nat)
    requires IsOpen(c) && Held(t, c)
    ensures var (next, result) := Outcome(t, runtime, c, e, contextSlot);
      && next.rows.Keys == t.rows.Keys
      && (forall key :: key in t.rows && key != c.key ==> next.rows[key] == t.rows[key])
      && RowCarries(t.rows[c.key], next.rows[c.key], result.state, e.status.Some?, contextSlot)
      && EventsCarry(t.book.events, next.book.events, c.cluster, c.key.signature, result.state)
      && next.book.normalized == t.book.normalized && next.book.references == t.book.references
      && RawsCarry(t.raws, next.raws, runtime, c, e, contextSlot)
      && ReportCarries(t, next.quarantines, result.state, c, ReasonOf(c, e, contextSlot))
  {
    RowMeans(t, runtime, c, e, contextSlot);
    EventsMean(t, runtime, c, e, contextSlot);
    RawMeans(t, runtime, c, e, contextSlot);
    ReportMeans(t, runtime, c, e, contextSlot);
  }

  // ------------------------------------------------------------------ a whole batch

  predicate DistinctKeys(candidates: seq<Candidate>) {
    forall i, j :: 0 <= i < j < |candidates| ==> candidates[i].key != candidates[j].key
  }

  predicate AllOpen(candidates: seq<Candidate>) { forall i :: 0 <= i < |candidates| ==> IsOpen(candidates[i]) }

  lemma {:induction false} OthersUntouched(t: Tables, runtime: Runtime, contextSlot: nat, candidates: seq<Candidate>,
      evidence: seq<Evidence>,
      key: RowKey)
    requires |candidates| == |evidence|
    requires forall i :: 0 <= i < |candidates| ==> candidates[i].key != key
    ensures var after := FinalityEngine.Recorded(t, runtime, contextSlot, candidates, evidence).0;
      (key in after.rows <==> key in t.rows) && (key in t.rows ==> after.rows[key] == t.rows[key])
  {
    if candidates != [] {
      var last := |candidates| - 1;
      OthersUntouched(t, runtime, contextSlot, candidates[..last], evidence[..last], key);
    }
  }

  /** The tables the i-th candidate of a batch meets. */
  function Before(t: Tables, runtime: Runtime, contextSlot: nat, candidates: seq<Candidate>, evidence: seq<Evidence>,
      i: nat): Tables
    requires |candidates| == |evidence| && i < |candidates|
  {
    FinalityEngine.Recorded(t, runtime, contextSlot, candidates[..i], evidence[..i]).0
  }

  /**
   A batch of distinct candidates: each one held at the start is met as it was held, its outcome
   is recorded as the tables then stand, and its row still carries that outcome at the end.
   */
  lemma {:induction false} BatchMeans(t: Tables, runtime: Runtime, contextSlot: nat, candidates: seq<Candidate>,
      evidence: seq<Evidence>, i: nat)
    requires |candidates| == |evidence| && DistinctKeys(candidates) && AllOpen(candidates) && i < |candidates|
    ensures var (after, results) := FinalityEngine.Recorded(t, runtime, contextSlot, candidates, evidence);
      && |results| == |candidates|
      && results[i] == Outcome(Before(t, runtime, contextSlot, candidates, evidence, i), runtime, candidates[i], evidence[i], contextSlot).1
      && (results[i].applied <==> Held(t, candidates[i]))
      && (results[i].applied ==>
            && candidates[i].key in after.rows
            && RowCarries(t.rows[candidates[i].key], after.rows[candidates[i].key], results[i].state, evidence[i].status.Some?, contextSlot))
      && (!results[i].applied && candidates[i].key in t.rows ==>
            candidates[i].key in after.rows && after.rows[candidates[i].key] == t.rows[candidates[i].key])
  {
    var last := |candidates| - 1;
    var u := FinalityEngine.Recorded(t, runtime, contextSlot, candidates[..last], evidence[..last]).0;
    if i < last {
      BatchMeans(t, runtime, contextSlot, candidates[..last], evidence[..last], i);
      assert candidates[..last][..i] == candidates[..i] && evidence[..last][..i] == evidence[..i];
      if Held(u, candidates[last]) { TablesMean(u, runtime, candidates[last], evidence[last], contextSlot); }
    } else {
      OthersUntouched(t, runtime, contextSlot, candidates[..last], evidence[..last], candidates[i].key);
      OutcomeMeans(u, runtime, candidates[i], evidence[i], contextSlot);
      if Held(u, candidates[i]) { TablesMean(u, runtime, candidates[i], evidence[i], contextSlot); }
    }
  }

  // ------------------------------------------------------------------ claims

  /** A row waits for finality: open, classified, and not held by a live claim. */
  predicate Waits(row: SignatureRow, providerId: Text, now: int) {
    && row.providerId == providerId && row.state in {Detected, ConfirmedState} && row.classification != Pending
    && (row.claim.Some? ==> row.claim.value.until < now)
  }

  /** A claim takes waiting rows only, leaves the others alone, and its candidates are held and show their rows. */
  lemma ClaimMeans(t: Tables, cluster: Cluster, providerId: Text, now: int, tokens: map<RowKey, Text>)
    requires Claimable(t, providerId, now, tokens)
    ensures var u := AfterFinalityClaim(t, now, tokens);
      && u.raws == t.raws && u.book == t.book && u.quarantines == t.quarantines && u.rows.Keys == t.rows.Keys
      && (forall key :: key in t.rows && key !in tokens ==> u.rows[key] == t.rows[key])
      && forall key :: key in tokens ==>
           && key in t.rows && Waits(t.rows[key], providerId, now)
           && u.rows[key] == t.rows[key].(claim := Some(FinalityClaim(tokens[key], now + 60_000)))
           && var c := CandidateOf(u, cluster, key, tokens[key]);
              && Held(u, c) && IsOpen(c) && c.key == key && c.providerId == providerId && c.cluster == cluster
              && c.slot == t.rows[key].slot && c.state == t.rows[key].state && c.confirmedDigest == t.rows[key].parseDigest
              && c.missing == t.rows[key].missing && c.firstMissing == t.rows[key].firstMissing
              && (c.hasFinalizedSnapshot <==> FinalizedStored(t, c))
  {
    var u := AfterFinalityClaim(t, now, tokens);
    forall key | key in tokens
      ensures key in t.rows && Waits(t.rows[key], providerId, now)
      ensures u.rows[key] == t.rows[key].(claim := Some(FinalityClaim(tokens[key], now + 60_000)))
      ensures var c := CandidateOf(u, cluster, key, tokens[key]);
        Held(u, c) && IsOpen(c) && (c.hasFinalizedSnapshot <==> FinalizedStored(t, c))
    {
      assert Eligible(t.rows[key], providerId, now);
    }
  }

  /**
   Whoever is not claimed by the last claim of its row changes nothing: a row is settled under one
   token at a time.
   */
  lemma SupersededIsIgnored(t: Tables, runtime: Runtime, now: int, providerId: Text, tokens: map<RowKey, Text>,
      c: Candidate, e: Evidence,
      contextSlot: nat)
    requires Claimable(t, providerId, now, tokens) && c.key in tokens && c.token != tokens[c.key]
    ensures var u := AfterFinalityClaim(t, now, tokens);
      Outcome(u, runtime, c, e, contextSlot) == (u, FinalityResult(false, c.state))
  {
  }
}
