/** Refreshing finality: what the statuses and finalized transactions of a batch of candidates lead to. */
module FinalityEngine {
  import opened Wrappers
  import opened Texts
  import opened Transactions
  import opened ParsingDigest
  import opened EvidenceTables
  import opened RepresentationStore
  import opened FinalityStore
  import Consensus = FinalizedConsensus
  import CanonicalJson

  const MISSING_OBSERVATIONS := 3
  const REVERSION_SLOTS := 64

  predicate ShouldTestReversion(c: Candidate, contextSlot: nat) {
    var first := if c.firstMissing.Some? then c.firstMissing.value else contextSlot;
    && c.missing + 1 >= MISSING_OBSERVATIONS
    && contextSlot >= first + REVERSION_SLOTS
    && contextSlot >= c.slot + REVERSION_SLOTS
  }

  type Answer = Result<Option<Consensus.Fetched>, Consensus.Thrown>

  predicate Retryable(error: Consensus.Thrown) { error.Foreign? || error.retryable }

  /** The next state, the finalized snapshot to keep, and whether a retry was asked for. */
  datatype Judgement = Judgement(nextState: FinalityState, code: Option<ErrorCode>, snapshot: Option<Text>,
      retried: bool)

  function SnapshotOf(runtime: Runtime, f: Consensus.Fetched): Option<Text> { Some(Digest(f.body, runtime.sha256)) }

  function CodeOf(error: Consensus.Thrown): ErrorCode { if error.Foreign? then RpcTransportError else error.code }

  /** An error of the transaction request: retryable ones defer, others quarantine. */
  function OnError(c: Candidate, error: Consensus.Thrown): Judgement {
    if Retryable(error) then Judgement(c.state, Some(CodeOf(error)), None, true)
    else Judgement(QuarantinedState, Some(CodeOf(error)), None, false)
  }

  function JudgeMissing(runtime: Runtime, c: Candidate, contextSlot: nat, answer: Answer): Judgement {
    var code := Some(FinalityStatusMissing);
    if !ShouldTestReversion(c, contextSlot) || c.hasFinalizedSnapshot then Judgement(c.state, code, None, false)
    else
      match answer
      case Err(error) => OnError(c, error)
      case Ok(None) => Judgement(Reverted, code, None, false)
      case Ok(Some(f)) => Judgement(c.state, code, SnapshotOf(runtime, f), false)
  }

  function JudgeFinalized(runtime: Runtime, c: Candidate, answer: Answer): Judgement {
    match answer
    case Err(error) => OnError(c, error)
    case Ok(None) => Judgement(c.state, Some(FinalityStatusMissing), None, true)
    case Ok(Some(f)) =>
      if c.confirmedDigest == Some(CreateParsingDigest(f.tx, runtime.collation, runtime.sha256))
      then Judgement(FinalizedState, None, SnapshotOf(runtime, f), false)
      else Judgement(QuarantinedState, Some(FinalityContentConflict), SnapshotOf(runtime, f), false)
  }

  /** `answer` is what `getTransaction` gives at finalized commitment, if it is asked. */
  function Judge(runtime: Runtime, c: Candidate, status: Option<Consensus.Status>, contextSlot: nat,
      answer: Answer): Judgement {
    if status.None? then JudgeMissing(runtime, c, contextSlot, answer)
    else if status.value.err != CanonicalJson.Null then Judgement(FailedState, None, None, false)
    else if status.value.confirmationStatus == Some(Consensus.FinalizedStatus) then JudgeFinalized(runtime, c, answer)
    else Judgement(if status.value.confirmationStatus == Some(Consensus.ConfirmedStatus) then ConfirmedState else c.state, None, None, false)
  }

  function InputOf(runtime: Runtime, c: Candidate, status: Option<Consensus.Status>, contextSlot: nat,
      answer: Answer): FinalityInput {
    var j := Judge(runtime, c, status, contextSlot, answer);
    FinalityInput(c, status.Some?, contextSlot, j.snapshot, j.nextState, j.code)
  }

  /** What a provider says of one candidate, and whether a retry asked for is stored. */
  datatype Evidence = Evidence(status: Option<Consensus.Status>, answer: Answer, retryStored: bool)

  datatype Report = Report(checked: nat, finalized: nat, failed: nat, reverted: nat, deferred: nat, quarantined: nat,
      retries: nat)

  function Counted(report: Report, result: FinalityResult): Report {
    if !result.applied then report.(deferred := report.deferred + 1)
    else
      match result.state
      case FinalizedState => report.(finalized := report.finalized + 1)
      case FailedState => report.(failed := report.failed + 1)
      case Reverted => report.(reverted := report.reverted + 1)
      case QuarantinedState => report.(quarantined := report.quarantined + 1)
      case _ => report.(deferred := report.deferred + 1)
  }

  /** The candidates recorded one after another. */
  function Recorded(t: Tables, runtime: Runtime, contextSlot: nat, candidates: seq<Candidate>,
      evidence: seq<Evidence>): (Tables, seq<FinalityResult>)
    requires |candidates| == |evidence|
    ensures |Recorded(t, runtime, contextSlot, candidates, evidence).1| == |candidates|
  {
    if candidates == [] then (t, [])
    else
      var last := |candidates| - 1;
      var (u, results) := Recorded(t, runtime, contextSlot, candidates[..last], evidence[..last]);
      var (v, result) := AfterFinality(u, InputOf(runtime, candidates[last], evidence[last].status, contextSlot, evidence[last].answer));
      (v, results + [result])
  }

  predicate Yields(results: seq<FinalityResult>, i: nat, state: FinalityState)
    requires i < |results|
  {
    results[i].applied && results[i].state == state
  }

  function Tally(results: seq<FinalityResult>, state: FinalityState): nat {
    if results == [] then 0
    else Tally(results[..|results| - 1], state) + (if Yields(results, |results| - 1, state) then 1 else 0)
  }

  predicate Tallied(report: Report, results: seq<FinalityResult>) {
    && report.finalized == Tally(results, FinalizedState) && report.failed == Tally(results, FailedState)
    && report.reverted == Tally(results, Reverted) && report.quarantined == Tally(results, QuarantinedState)
    && report.finalized + report.failed + report.reverted + report.quarantined + report.deferred == |results|
  }

  lemma TallyGrows(report: Report, results: seq<FinalityResult>, result: FinalityResult)
    requires Tallied(report, results)
    ensures Tallied(Counted(report, result), results + [result])
  {
    var more := results + [result];
    assert more[..|more| - 1] == results;
  }

  /**
   A retry is asked for where the finalized transaction is, and the error passes or the transaction
   is not there yet.
   */
  predicate AsksRetry(c: Candidate, e: Evidence, contextSlot: nat) {
    if e.status.None? then
      ShouldTestReversion(c, contextSlot) && !c.hasFinalizedSnapshot && e.answer.Err? && Retryable(e.answer.error)
    else
      && e.status.value.err == CanonicalJson.Null && e.status.value.confirmationStatus == Some(Consensus.FinalizedStatus)
      && (e.answer == Ok(None) || (e.answer.Err? && Retryable(e.answer.error)))
  }

  function Retries(contextSlot: nat, candidates: seq<Candidate>, evidence: seq<Evidence>): nat
    requires |candidates| == |evidence|
  {
    if candidates == [] then 0
    else
      var last := |candidates| - 1;
      Retries(contextSlot, candidates[..last], evidence[..last])
      + (if AsksRetry(candidates[last], evidence[last], contextSlot) && evidence[last].retryStored then 1 else 0)
  }

  lemma RetryJudged(runtime: Runtime, c: Candidate, e: Evidence, contextSlot: nat)
    ensures Judge(runtime, c, e.status, contextSlot, e.answer).retried == AsksRetry(c, e, contextSlot)
  {
  }

  /** The prefixes of a batch, one candidate longer. */
  lemma OneMore(t: Tables, runtime: Runtime, contextSlot: nat, candidates: seq<Candidate>, evidence: seq<Evidence>,
      i: nat)
    requires |candidates| == |evidence| && i < |candidates|
    ensures var c, e := candidates[i], evidence[i];
      var (u, results) := Recorded(t, runtime, contextSlot, candidates[..i], evidence[..i]);
      var (v, result) := AfterFinality(u, InputOf(runtime, c, e.status, contextSlot, e.answer));
      && Recorded(t, runtime, contextSlot, candidates[..i + 1], evidence[..i + 1]) == (v, results + [result])
      && Retries(contextSlot, candidates[..i + 1], evidence[..i + 1])
         == Retries(contextSlot, candidates[..i], evidence[..i])
            + (if Judge(runtime, c, e.status, contextSlot, e.answer).retried && e.retryStored then 1 else 0)
  {
    assert candidates[..i + 1][..i] == candidates[..i] && evidence[..i + 1][..i] == evidence[..i];
    RetryJudged(runtime, candidates[i], evidence[i], contextSlot);
  }

  /** Each outcome is counted once: the four terminal counters exactly, everything else as deferred. */
  method Refresh(db: RepresentationTables, runtime: Runtime, contextSlot: nat, candidates: seq<Candidate>,
      evidence: seq<Evidence>)
    returns (report: Report)
    requires |candidates| == |evidence|
    modifies db
    ensures db.State() == Recorded(old(db.State()), runtime, contextSlot, candidates, evidence).0
    ensures Tallied(report, Recorded(old(db.State()), runtime, contextSlot, candidates, evidence).1)
    ensures report.checked == |candidates| && report.retries == Retries(contextSlot, candidates, evidence)
  {
    report := Report(|candidates|, 0, 0, 0, 0, 0, 0);
    ghost var results: seq<FinalityResult> := [];
    for i := 0 to |candidates|
      invariant (db.State(), results) == Recorded(old(db.State()), runtime, contextSlot, candidates[..i], evidence[..i])
      invariant Tallied(report, results) && report.checked == |candidates|
      invariant report.retries == Retries(contextSlot, candidates[..i], evidence[..i])
    {
      var c, e := candidates[i], evidence[i];
      var judgement := Judge(runtime, c, e.status, contextSlot, e.answer);
      if judgement.retried && e.retryStored { report := report.(retries := report.retries + 1); }
      var result := RecordFinalityObservation(db,
        FinalityInput(c, e.status.Some?, contextSlot, judgement.snapshot, judgement.nextState, judgement.code));
      OneMore(old(db.State()), runtime, contextSlot, candidates, evidence, i);
      TallyGrows(report, results, result);
      report := Counted(report, result);
      results := results + [result];
    }
    assert candidates[..|candidates|] == candidates && evidence[..|evidence|] == evidence;
  }

  /**
   A candidate is called reverted only on a long enough absence, with no finalized transaction in
   store or at the provider.
   */
  lemma RevertedMeans(t: Tables, runtime: Runtime, c: Candidate, e: Evidence, contextSlot: nat)
    requires c.state == Detected || c.state == ConfirmedState
    ensures var result := AfterFinality(t, InputOf(runtime, c, e.status, contextSlot, e.answer)).1;
      result.applied && result.state == Reverted <==>
        && StillClaimed(t.rows, c) && e.status.None? && e.answer == Ok(None)
        && ShouldTestReversion(c, contextSlot) && !c.hasFinalizedSnapshot
        && !HasFinalized(t.raws, c.providerId, c.key.signature)
  {
  }

  /** A candidate becomes finalized exactly through the digest gate. */
  lemma FinalizedMeans(t: Tables, runtime: Runtime, c: Candidate, e: Evidence, contextSlot: nat)
    requires c.state == Detected || c.state == ConfirmedState
    ensures var input := InputOf(runtime, c, e.status, contextSlot, e.answer);
      var result := AfterFinality(t, input).1;
      result.applied && result.state == FinalizedState <==>
        && StillClaimed(t.rows, c) && e.status.Some? && e.status.value.err == CanonicalJson.Null
        && e.status.value.confirmationStatus == Some(Consensus.FinalizedStatus)
        && e.answer.Ok? && e.answer.value.Some?
        && c.confirmedDigest == Some(CreateParsingDigest(e.answer.value.value.tx, runtime.collation, runtime.sha256))
        && !Contradicted(t.raws, input)
  {
  }
}
