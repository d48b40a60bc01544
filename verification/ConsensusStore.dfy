/**
 Provider roles, claims and completions of finalized-consensus checks. Each operation is
 one database transaction under its advisory lock, so one atomic step on the tables.
 */
module ConsensusStore {
  import opened Wrappers
  import opened Texts
  import opened EvidenceTables
  import opened FinalizedConsensus

  datatype Role = Primary | Secondary

  datatype Provider = Provider(cluster: Cluster, active: bool)

  datatype RoleRow = RoleRow(organization: Text, cluster: Cluster, role: Role, providerId: Text, createdAt: int)

  /** What the advisory lock of a check is taken on. */
  datatype Key = Key(organization: Text, cluster: Cluster, signature: Text)

  datatype CheckRow = CheckRow(
    generation: nat, primary: Text, secondary: Text, state: Verdict, token: Text,
    claimedUntil: int, startedAt: int, completedAt: Option<int>)

  datatype ObservationRow = ObservationRow(key: Key, generation: nat, observation: Observation, createdAt: int)

  /** The columns of `discovered_signatures` a disagreement reads, ordered by watch target. */
  datatype Discovered = Discovered(watchTargetId: Text, providerId: Text, signature: Text)

  datatype Db = Db(
    providers: map<Text, Provider>,
    roles: seq<RoleRow>,
    checks: map<Key, seq<CheckRow>>,
    observations: seq<ObservationRow>,
    events: ChainEvents,
    discovered: seq<Discovered>,
    quarantines: seq<Quarantine>,
    clock: int)

  datatype StoreError =
    | InvalidRoleInput | InvalidProvider | RolesNotDistinct
    | InvalidClaimInput | RolesDoNotMatch
    | InvalidCompletion | ProvidersDoNotMatch | ConstraintViolated | VerdictInconsistent

  datatype Claim = Claim(key: Key, generation: nat, primary: Text, secondary: Text, token: Text)

  datatype ClaimResult = Settled(state: Verdict, generation: nat) | Claimed(claim: Claim)

  datatype Completion = Completion(applied: bool, state: Verdict, generation: nat)

  const LEASE := 60_000

  // ------------------------------------------------------------------ provider roles

  predicate ValidId(id: Text) { 1 <= |id| <= 64 }

  predicate RoleClashes(row: RoleRow, organization: Text, cluster: Cluster, role: Role, providerId: Text) {
    row.organization == organization && row.cluster == cluster && (row.role == role || row.providerId == providerId)
  }

  function Clashing(roles: seq<RoleRow>, organization: Text, cluster: Cluster, role: Role,
      providerId: Text): seq<RoleRow> {
    if roles == [] then []
    else
      (if RoleClashes(roles[0], organization, cluster, role, providerId) then [roles[0]] else [])
      + Clashing(roles[1..], organization, cluster, role, providerId)
  }

  function Exact(rows: seq<RoleRow>, role: Role, providerId: Text): Option<RoleRow> {
    if rows == [] then None
    else if rows[0].role == role && rows[0].providerId == providerId then Some(rows[0])
    else Exact(rows[1..], role, providerId)
  }

  function AfterSetRole(db: Db, organization: Text, cluster: Cluster, role: Role, providerId: Text, now: int)
    : (Db, Result<RoleRow, StoreError>)
  {
    var existing := Clashing(db.roles, organization, cluster, role, providerId);
    var row := RoleRow(organization, cluster, role, providerId, now);
    if !ValidId(providerId) then (db, Err(InvalidRoleInput))
    else if providerId !in db.providers || !db.providers[providerId].active || db.providers[providerId].cluster != cluster then
      (db, Err(InvalidProvider))
    else if Exact(existing, role, providerId).Some? then (db, Ok(Exact(existing, role, providerId).value))
    else if existing != [] then (db, Err(RolesNotDistinct))
    else (db.(roles := db.roles + [row]), Ok(row))
  }

  // ------------------------------------------------------------------ claims

  predicate ActiveRole(db: Db, row: RoleRow, organization: Text, role: Role, providerId: Text) {
    && row.organization == organization && row.role == role && row.providerId == providerId
    && providerId in db.providers && db.providers[providerId].active && db.providers[providerId].cluster == row.cluster
  }

  function ActiveRoles(db: Db, roles: seq<RoleRow>, organization: Text, role: Role, providerId: Text): seq<RoleRow> {
    if roles == [] then []
    else
      (if ActiveRole(db, roles[0], organization, role, providerId) then [roles[0]] else [])
      + ActiveRoles(db, roles[1..], organization, role, providerId)
  }

  /** The cluster of a configured pair of active, distinct roles. */
  function PairCluster(db: Db, organization: Text, primary: Text, secondary: Text): Option<Cluster> {
    var rows := ActiveRoles(db, db.roles, organization, Primary, primary) + ActiveRoles(db, db.roles, organization, Secondary, secondary);
    if |rows| != 2 || rows[0].cluster != rows[1].cluster || rows[0].role != Primary || rows[1].role != Secondary then None
    else Some(rows[0].cluster)
  }

  predicate ValidClaimInput(primary: Text, secondary: Text, signature: Text) {
    primary != secondary && ValidId(primary) && ValidId(secondary) && 32 <= |signature| <= 128
  }

  function Rows(db: Db, key: Key): seq<CheckRow> {
    if key in db.checks then db.checks[key] else []
  }

  /** `ORDER BY generation DESC LIMIT 1`. */
  function LatestIndex(rows: seq<CheckRow>): (i: nat)
    requires rows != []
    ensures i < |rows|
  {
    var last := |rows| - 1;
    if last == 0 then 0
    else
      var i := LatestIndex(rows[..last]);
      if rows[last].generation >= rows[i].generation then last else i
  }

  function Latest(rows: seq<CheckRow>): Option<CheckRow> {
    if rows == [] then None else Some(rows[LatestIndex(rows)])
  }

  function ToClaim(key: Key, row: CheckRow): ClaimResult {
    Claimed(Claim(key, row.generation, row.primary, row.secondary, row.token))
  }

  /** `selectedAt` and `insertedAt` are the clock readings of the two statements. */
  function AfterClaim(db: Db, organization: Text, primary: Text, secondary: Text, signature: Text, token: Text,
      selectedAt: int, insertedAt: int): (Db, Result<ClaimResult, StoreError>)
  {
    var cluster := PairCluster(db, organization, primary, secondary);
    if !ValidClaimInput(primary, secondary, signature) then (db, Err(InvalidClaimInput))
    else if cluster.None? then (db, Err(RolesDoNotMatch))
    else
      var key := Key(organization, cluster.value, signature);
      var latest := Latest(Rows(db, key));
      var matches := latest.Some? && latest.value.primary == primary && latest.value.secondary == secondary;
      if matches && latest.value.state != Pending then (db, Ok(Settled(latest.value.state, latest.value.generation)))
      else if matches && latest.value.completedAt.None? && latest.value.claimedUntil >= selectedAt then (db, Ok(ToClaim(key, latest.value)))
      else
        var generation := if latest.Some? then latest.value.generation + 1 else 1;
        var row := CheckRow(generation, primary, secondary, Pending, token, insertedAt + LEASE, insertedAt, None);
        (db.(checks := db.checks[key := Rows(db, key) + [row]]), Ok(ToClaim(key, row)))
  }

  // ------------------------------------------------------------------ completions

  predicate IsLowerHex(u: CodeUnit) { IsDigit(u) || 0x61 <= u <= 0x66 }

  predicate ValidUuid(t: Text) {
    && |t| == 36
    && (forall i :: 0 <= i < 36 ==> if i in [8, 13, 18, 23] then t[i] == 0x2D else IsLowerHex(t[i]))
    && 0x31 <= t[14] <= 0x35
    && t[19] in [0x38, 0x39, 0x61, 0x62]
  }

  predicate SamePair(a: Text, b: Text, p: Text, q: Text) {
    (a == p && b == q) || (a == q && b == p)
  }

  predicate ValidCompletion(claim: Claim, observations: seq<Observation>) {
    && |observations| == 2
    && ValidUuid(claim.key.organization) && ValidUuid(claim.token)
    && 1 <= claim.generation <= MAX_SAFE_INTEGER
    && 32 <= |claim.key.signature| <= 128
    && ValidId(claim.primary) && ValidId(claim.secondary)
    && (forall i :: 0 <= i < |observations| ==> ValidObservation(observations[i]))
    && SamePair(observations[0].providerId, observations[1].providerId, claim.primary, claim.secondary)
  }

  /** The readings of the database clock inside one completion, statement by statement. */
  datatype Readings = Readings(selectedAt: int, inserts: int, updatedAt: int)

  predicate Monotone(db: Db, r: Readings) {
    db.clock <= r.selectedAt <= r.inserts <= r.updatedAt
  }

  /** The latest row still waits for exactly this claim. */
  predicate Open(latest: Option<CheckRow>, claim: Claim, now: int) {
    && latest.Some? && latest.value.generation == claim.generation && latest.value.token == claim.token
    && latest.value.completedAt.None? && latest.value.state == Pending && latest.value.claimedUntil >= now
  }

  /** The checks of the observation table that the input validation does not imply. */
  predicate RowAllowed(stored: seq<ObservationRow>, row: ObservationRow) {
    && row.createdAt >= row.observation.observedAt
    && (row.observation.safeErrorCode == Some(RpcTransactionSchemaInvalid) ==> row.observation.safeErrorRetryable == Some(true))
    && forall i :: 0 <= i < |stored| ==>
         !(stored[i].key == row.key && stored[i].generation == row.generation && stored[i].observation.providerId == row.observation.providerId)
  }

  function ObservationRows(claim: Claim, observations: seq<Observation>, createdAt: int): (rows: seq<ObservationRow>)
    ensures |rows| == |observations|
  {
    seq(|observations|, i requires 0 <= i < |observations| => ObservationRow(claim.key, claim.generation, observations[i], createdAt))
  }

  predicate AllAllowed(stored: seq<ObservationRow>, rows: seq<ObservationRow>) {
    forall i :: 0 <= i < |rows| ==> RowAllowed(stored + rows[..i], rows[i])
  }

  /** The rows the verdict is derived from. */
  function Evidence(stored: seq<ObservationRow>, claim: Claim): seq<Observation> {
    if stored == [] then []
    else
      (if stored[0].key == claim.key && stored[0].generation == claim.generation
          && (stored[0].observation.providerId == claim.primary || stored[0].observation.providerId == claim.secondary)
       then [stored[0].observation] else [])
      + Evidence(stored[1..], claim)
  }

  function FirstUnreported(discovered: seq<Discovered>, quarantines: seq<Quarantine>, providerId: Text,
      signature: Text): seq<Quarantine> {
    if discovered == [] then []
    else if discovered[0].providerId == providerId && discovered[0].signature == signature
         && !Reported(quarantines, providerId, discovered[0].watchTargetId, signature, FinalityProviderDisagreement)
    then [Quarantine(providerId, discovered[0].watchTargetId, signature, FinalityProviderDisagreement, true)]
    else FirstUnreported(discovered[1..], quarantines, providerId, signature)
  }

  /** Settles the latest row; a disagreement also quarantines the events and reports the signature. */
  function Close(db: Db, claim: Claim, derived: Verdict, stored: seq<ObservationRow>, completedAt: int): Db
    requires Rows(db, claim.key) != []
  {
    var rows := Rows(db, claim.key);
    var closed := rows[LatestIndex(rows)].(state := derived, completedAt := Some(completedAt));
    db.(checks := db.checks[claim.key := rows[LatestIndex(rows) := closed]],
        observations := stored,
        events := if derived == Disagreed then QuarantineEvents(db.events, claim.key.cluster, claim.key.signature) else db.events,
        quarantines := if derived == Disagreed then db.quarantines + FirstUnreported(db.discovered, db.quarantines, claim.primary, claim.key.signature) else db.quarantines)
  }

  function AfterComplete(db: Db, claim: Claim, state: Verdict, observations: seq<Observation>, r: Readings)
    : (Db, Result<Completion, StoreError>)
  {
    var rows := Rows(db, claim.key);
    var latest := Latest(rows);
    if !ValidCompletion(claim, observations) then (db, Err(InvalidCompletion))
    else if !Open(latest, claim, r.selectedAt) then
      (db, Ok(Completion(false, if latest.Some? then latest.value.state else Pending, if latest.Some? then latest.value.generation else claim.generation)))
    else if latest.value.primary != claim.primary || latest.value.secondary != claim.secondary then (db, Err(ProvidersDoNotMatch))
    else
      var added := ObservationRows(claim, observations, r.inserts);
      var stored := db.observations + added;
      var derived := SqlVerdict(Evidence(stored, claim));
      if !AllAllowed(db.observations, added) then (db, Err(ConstraintViolated))
      else if derived != state then (db, Err(VerdictInconsistent))
      else if latest.value.claimedUntil < r.updatedAt then (db, Ok(Completion(false, Pending, claim.generation)))
      else
        (Close(db, claim, derived, stored, r.updatedAt),
         Ok(Completion(true, derived, claim.generation)))
  }

  /** The tables as the store updates them. */
  class ConsensusTables {
    var providers: map<Text, Provider>
    var roles: seq<RoleRow>
    var checks: map<Key, seq<CheckRow>>
    var observations: seq<ObservationRow>
    var events: ChainEvents
    var discovered: seq<Discovered>
    var quarantines: seq<Quarantine>
    var clock: int

    function State(): Db
      reads this
    {
      Db(providers, roles, checks, observations, events, discovered, quarantines, clock)
    }

    method SetProviderRole(organization: Text, cluster: Cluster, role: Role, providerId: Text, now: int)
      returns (result: Result<RoleRow, StoreError>)
      modifies this`roles
      ensures (State(), result) == AfterSetRole(old(State()), organization, cluster, role, providerId, now)
    {
      if !ValidId(providerId) { return Err(InvalidRoleInput); }
      if providerId !in providers || !providers[providerId].active || providers[providerId].cluster != cluster {
        return Err(InvalidProvider);
      }
      var existing := Clashing(roles, organization, cluster, role, providerId);
      var exact := Exact(existing, role, providerId);
      if exact.Some? { return Ok(exact.value); }
      if existing != [] { return Err(RolesNotDistinct); }
      var row := RoleRow(organization, cluster, role, providerId, now);
      roles := roles + [row];
      result := Ok(row);
    }

    method ClaimFinalizedConsensus(organization: Text, primary: Text, secondary: Text, signature: Text, token: Text,
        selectedAt: int, insertedAt: int) returns (result: Result<ClaimResult, StoreError>)
      modifies this`checks
      ensures (State(), result)
        == AfterClaim(old(State()), organization, primary, secondary, signature, token, selectedAt, insertedAt)
    {
      if !ValidClaimInput(primary, secondary, signature) { return Err(InvalidClaimInput); }
      var cluster := PairCluster(State(), organization, primary, secondary);
      if cluster.None? { return Err(RolesDoNotMatch); }
      var key := Key(organization, cluster.value, signature);
      var rows := if key in checks then checks[key] else [];
      var latest := Latest(rows);
      var generation := 1;
      if latest.Some? {
        generation := latest.value.generation + 1;
        if latest.value.primary == primary && latest.value.secondary == secondary {
          if latest.value.state != Pending { return Ok(Settled(latest.value.state, latest.value.generation)); }
          if latest.value.completedAt.None? && latest.value.claimedUntil >= selectedAt {
            return Ok(ToClaim(key, latest.value));
          }
        }
      }
      var row := CheckRow(generation, primary, secondary, Pending, token, insertedAt + LEASE, insertedAt, None);
      checks := checks[key := rows + [row]];
      result := Ok(ToClaim(key, row));
    }

    /** The rows after the inserts, or `None` when the database refuses one. */
    method InsertObservations(claim: Claim, evidence: seq<Observation>,
        createdAt: int) returns (stored: Option<seq<ObservationRow>>)
      ensures var added := ObservationRows(claim, evidence, createdAt);
        stored == if AllAllowed(observations, added) then Some(observations + added) else None
    {
      ghost var added := ObservationRows(claim, evidence, createdAt);
      var rows := observations;
      for i := 0 to |evidence|
        invariant rows == observations + added[..i]
        invariant forall j :: 0 <= j < i ==> RowAllowed(observations + added[..j], added[j])
      {
        var row := ObservationRow(claim.key, claim.generation, evidence[i], createdAt);
        assert added[i] == row && added[..i + 1] == added[..i] + [row];
        if !RowAllowed(rows, row) { return None; }
        rows := rows + [row];
      }
      assert added[..|evidence|] == added;
      stored := Some(rows);
    }

    /** Inserts and the quarantine of events take effect only if the final update still finds the lease live. */
    method CompleteFinalizedConsensus(claim: Claim, state: Verdict, evidence: seq<Observation>, r: Readings)
      returns (result: Result<Completion, StoreError>)
      modifies this`checks, this`observations, this`events, this`quarantines
      ensures (State(), result) == AfterComplete(old(State()), claim, state, evidence, r)
    {
      if !ValidCompletion(claim, evidence) { return Err(InvalidCompletion); }
      var rows := if claim.key in checks then checks[claim.key] else [];
      var latest := Latest(rows);
      if !Open(latest, claim, r.selectedAt) {
        return Ok(Completion(false, if latest.Some? then latest.value.state else Pending, if latest.Some? then latest.value.generation else claim.generation));
      }
      if latest.value.primary != claim.primary || latest.value.secondary != claim.secondary {
        return Err(ProvidersDoNotMatch);
      }

      var inserted := InsertObservations(claim, evidence, r.inserts);
      if inserted.None? { return Err(ConstraintViolated); }
      var stored := inserted.value;
      var derived := SqlVerdict(Evidence(stored, claim));
      if derived != state { return Err(VerdictInconsistent); }
      if latest.value.claimedUntil < r.updatedAt { return Ok(Completion(false, Pending, claim.generation)); }
      if derived == Disagreed {
        quarantines := quarantines + FirstUnreported(discovered, quarantines, claim.primary, claim.key.signature);
        events := QuarantineEvents(events, claim.key.cluster, claim.key.signature);
      }
      observations := stored;
      checks := checks[claim.key := rows[LatestIndex(rows) := latest.value.(state := derived, completedAt := Some(r.updatedAt))]];
      result := Ok(Completion(true, derived, claim.generation));
    }
  }
}
