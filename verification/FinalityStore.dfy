/** The finality half of the ingestion store: claiming candidates and recording what was observed of them. */
module FinalityStore {
  import opened Wrappers
  import opened Texts
  import opened Transactions
  import opened EvidenceTables
  import opened RepresentationStore

  datatype Candidate = Candidate(
    providerId: Text, cluster: Cluster, key: RowKey, slot: nat, state: FinalityState, confirmedDigest: Option<Text>,
    missing: nat, firstMissing: Option<nat>, token: Text, hasFinalizedSnapshot: bool)

  const LEASE := 60_000

  // ------------------------------------------------------------------ claimFinalityCandidates

  predicate Eligible(row: SignatureRow, providerId: Text, now: int) {
    && row.providerId == providerId
    && (row.state == Detected || row.state == ConfirmedState)
    && row.classification != Pending
    && (row.claim.None? || row.claim.value.until < now)
  }

  /** The rows a claim takes: some eligible ones, the locked ones skipped, each under a fresh token. */
  predicate Claimable(t: Tables, providerId: Text, now: int, tokens: map<RowKey, Text>) {
    forall key :: key in tokens ==> key in t.rows && Eligible(t.rows[key], providerId, now)
  }

  function AfterFinalityClaim(t: Tables, now: int, tokens: map<RowKey, Text>): Tables {
    t.(rows := map key | key in t.rows ::
      if key in tokens then t.rows[key].(claim := Some(FinalityClaim(tokens[key], now + LEASE))) else t.rows[key])
  }

  predicate HasFinalized(raws: seq<RawTransaction>, providerId: Text, signature: Text) {
    exists i :: 0 <= i < |raws| && raws[i].providerId == providerId && raws[i].signature == signature && raws[i].commitment == Finalized
  }

  function CandidateOf(t: Tables, cluster: Cluster, key: RowKey, token: Text): Candidate
    requires key in t.rows
  {
    var row := t.rows[key];
    Candidate(row.providerId, cluster, key, row.slot, row.state, row.parseDigest, row.missing, row.firstMissing, token,
      HasFinalized(t.raws, row.providerId, key.signature))
  }

  // ------------------------------------------------------------------ recordFinalityObservation

  datatype FinalityInput = FinalityInput(
    candidate: Candidate, observed: bool, contextSlot: nat, snapshot: Option<Text>, nextState: FinalityState, code: Option<ErrorCode>)

  datatype FinalityResult = FinalityResult(applied: bool, state: FinalityState)

  function FinalizedRaw(input: FinalityInput): RawTransaction
    requires input.snapshot.Some?
  {
    RawTransaction(input.candidate.providerId, input.candidate.key.signature, Finalized, input.snapshot.value)
  }

  predicate Contradicted(raws: seq<RawTransaction>, input: FinalityInput) {
    && input.snapshot.Some?
    && exists i :: 0 <= i < |raws| && SameSource(raws[i], FinalizedRaw(input)) && raws[i].digest != input.snapshot.value
  }

  /**
   A stored finalized transaction rules out a reversion, and another one with a different digest
   forces quarantine.
   */
  function EffectiveState(raws: seq<RawTransaction>, input: FinalityInput): FinalityState {
    if Contradicted(raws, input) then QuarantinedState
    else if input.nextState == Reverted && HasFinalized(raws, input.candidate.providerId, input.candidate.key.signature) then input.candidate.state
    else input.nextState
  }

  function EffectiveCode(raws: seq<RawTransaction>, input: FinalityInput): ErrorCode {
    if Contradicted(raws, input) || input.code.None? then FinalityContentConflict else input.code.value
  }

  /** The row is still in the state, and under the token, it was claimed with. */
  predicate StillClaimed(rows: map<RowKey, SignatureRow>, c: Candidate) {
    && c.key in rows && rows[c.key].providerId == c.providerId && rows[c.key].state == c.state
    && rows[c.key].claim.Some? && rows[c.key].claim.value.token == c.token
  }

  function ObservedRow(row: SignatureRow, input: FinalityInput, state: FinalityState): SignatureRow {
    row.(
      state := state,
      missing := if input.observed then 0 else row.missing + 1,
      firstMissing := if input.observed then None else Coalesce(row.firstMissing, Some(input.contextSlot)),
      claim := None)
  }

  /** The CASE over `current_state`: quarantine wins, another terminal state stays. */
  function EventStateAfter(current: FinalityState, next: FinalityState): FinalityState {
    if next == QuarantinedState then QuarantinedState
    else if Terminal(current) && current != next then current
    else next
  }

  function SetEvents(events: ChainEvents, cluster: Cluster, signature: Text, next: FinalityState): ChainEvents {
    map id | id in events ::
      if events[id].cluster == cluster && events[id].signature == signature
      then events[id].(state := EventStateAfter(events[id].state, next))
      else events[id]
  }

  function ReportFinality(quarantines: seq<Quarantine>, c: Candidate, state: FinalityState,
      code: ErrorCode): seq<Quarantine> {
    if state == QuarantinedState && !Reported(quarantines, c.providerId, c.key.watchTargetId, c.key.signature, code)
    then quarantines + [Quarantine(c.providerId, c.key.watchTargetId, c.key.signature, code, true)]
    else quarantines
  }

  function AfterFinality(t: Tables, input: FinalityInput): (Tables, FinalityResult) {
    var c := input.candidate;
    var state := EffectiveState(t.raws, input);
    if !StillClaimed(t.rows, c) then (t, FinalityResult(false, c.state))
    else
      (Tables(
         t.rows[c.key := ObservedRow(t.rows[c.key], input, state)],
         if input.snapshot.Some? then StoreRaw(t.raws, FinalizedRaw(input)) else t.raws,
         t.book.(events := SetEvents(t.book.events, c.cluster, c.key.signature, state)),
         ReportFinality(t.quarantines, c, state, EffectiveCode(t.raws, input))),
       FinalityResult(true, state))
  }

  method RecordFinalityObservation(db: RepresentationTables, input: FinalityInput) returns (result: FinalityResult)
    modifies db
    ensures (db.State(), result) == AfterFinality(old(db.State()), input)
  {
    var c := input.candidate;
    var state := input.nextState;
    var code := if input.code.Some? then input.code.value else FinalityContentConflict;
    if state == Reverted && HasFinalized(db.raws, c.providerId, c.key.signature) { state := c.state; }
    if Contradicted(db.raws, input) {
      state := QuarantinedState;
      code := FinalityContentConflict;
    }
    if !StillClaimed(db.rows, c) { return FinalityResult(false, c.state); }
    db.rows := db.rows[c.key := ObservedRow(db.rows[c.key], input, state)];
    if input.snapshot.Some? { db.raws := StoreRaw(db.raws, FinalizedRaw(input)); }
    db.book := db.book.(events := SetEvents(db.book.events, c.cluster, c.key.signature, state));
    db.quarantines := ReportFinality(db.quarantines, c, state, code);
    result := FinalityResult(true, state);
  }
}
