/**
 Safety of finalized consensus over every interleaving of role-setting, claims,
 completions and lapses of time by any number of workers.
 */
module ConsensusHistory {
  import opened Wrappers
  import opened Texts
  import opened EvidenceTables
  import opened ParsingDigest
  import opened FinalizedConsensus
  import opened ConsensusStore

  datatype Step =
    | SetRole(organization: Text, cluster: Cluster, role: Role, providerId: Text, now: int)
    | MakeClaim(org: Text, primary: Text, secondary: Text, signature: Text, token: Text, selectedAt: int, insertedAt: int)
    | Complete(claim: Claim, state: Verdict, evidence: seq<Observation>, readings: Readings)
    | PassTime(until: int)
    | SetProvider(id: Text, provider: Provider)
    | OtherTables(events: ChainEvents, discovered: seq<Discovered>, quarantines: seq<Quarantine>)

  datatype Outcome =
    | RoleOutcome(role: Result<RoleRow, StoreError>)
    | ClaimOutcome(claimed: Result<ClaimResult, StoreError>)
    | CompleteOutcome(completed: Result<Completion, StoreError>)
    | NoOutcome

  /** The database clock never runs back, and a provider never changes cluster. */
  predicate Enabled(db: Db, step: Step) {
    match step
    case MakeClaim(_, _, _, _, _, selectedAt, insertedAt) => db.clock <= selectedAt <= insertedAt
    case Complete(_, _, _, readings) => Monotone(db, readings)
    case PassTime(until) => db.clock <= until
    case SetProvider(id, provider) => id in db.providers ==> db.providers[id].cluster == provider.cluster
    case _ => true
  }

  function Apply(db: Db, step: Step): (Db, Outcome) {
    match step
    case SetRole(o, c, role, p, now) => var (d, r) := AfterSetRole(db, o, c, role, p, now); (d, RoleOutcome(r))
    case MakeClaim(o, p, s, signature, token, selectedAt, insertedAt) =>
      var (d, r) := AfterClaim(db, o, p, s, signature, token, selectedAt, insertedAt);
      (d.(clock := insertedAt), ClaimOutcome(r))
    case Complete(claim, state, evidence, readings) =>
      var (d, r) := AfterComplete(db, claim, state, evidence, readings);
      (d.(clock := readings.updatedAt), CompleteOutcome(r))
    case PassTime(until) => (db.(clock := until), NoOutcome)
    case SetProvider(id, provider) => (db.(providers := db.providers[id := provider]), NoOutcome)
    case OtherTables(events, discovered, quarantines) =>
      (db.(events := events, discovered := discovered, quarantines := quarantines), NoOutcome)
  }

  // ------------------------------------------------------------------ the invariant

  /** Generations of a key are 1, 2, .., n. */
  predicate Numbered(rows: seq<CheckRow>) {
    forall i :: 0 <= i < |rows| ==> rows[i].generation == i + 1
  }

  predicate RowSound(row: CheckRow, clock: int) {
    && row.claimedUntil == row.startedAt + LEASE
    && row.startedAt <= clock
    && (row.state != Pending ==> row.completedAt.Some?)
    && (row.completedAt.Some? ==> row.startedAt <= row.completedAt.value <= row.claimedUntil && row.completedAt.value <= clock)
  }

  /** A generation gives way to the next only pending, and only completed or expired. */
  predicate Superseded(row: CheckRow, next: CheckRow) {
    row.state == Pending && (row.completedAt.Some? || row.claimedUntil < next.startedAt)
  }

  predicate RowsSound(rows: seq<CheckRow>, clock: int) {
    && Numbered(rows)
    && (forall i :: 0 <= i < |rows| ==> RowSound(rows[i], clock))
    && (forall i :: 0 <= i < |rows| - 1 ==> Superseded(rows[i], rows[i + 1]))
  }

  predicate RoleSound(db: Db, row: RoleRow) {
    row.providerId in db.providers && db.providers[row.providerId].cluster == row.cluster
  }

  predicate RolesDiffer(a: RoleRow, b: RoleRow) {
    a.organization == b.organization && a.cluster == b.cluster ==> a.role != b.role && a.providerId != b.providerId
  }

  predicate RolesSound(db: Db) {
    && (forall i :: 0 <= i < |db.roles| ==> RoleSound(db, db.roles[i]))
    && (forall i, j :: 0 <= i < j < |db.roles| ==> RolesDiffer(db.roles[i], db.roles[j]))
  }

  predicate HasRole(db: Db, organization: Text, cluster: Cluster, role: Role, providerId: Text) {
    exists i :: 0 <= i < |db.roles| && db.roles[i].organization == organization && db.roles[i].cluster == cluster
      && db.roles[i].role == role && db.roles[i].providerId == providerId
  }

  /** Every check was claimed for the pair of roles configured for its organization and cluster. */
  predicate PairSound(db: Db, key: Key, row: CheckRow) {
    && HasRole(db, key.organization, key.cluster, Primary, row.primary)
    && HasRole(db, key.organization, key.cluster, Secondary, row.secondary)
  }

  /** Observations are kept of completed checks only. */
  predicate ObservationSound(db: Db, row: ObservationRow) {
    && 1 <= row.generation <= |Rows(db, row.key)|
    && Rows(db, row.key)[row.generation - 1].completedAt.Some?
  }

  ghost predicate Inv(db: Db) {
    && RolesSound(db)
    && (forall key :: RowsSound(Rows(db, key), db.clock))
    && (forall key, i :: 0 <= i < |Rows(db, key)| ==> PairSound(db, key, Rows(db, key)[i]))
    && (forall i :: 0 <= i < |db.observations| ==> ObservationSound(db, db.observations[i]))
  }

  predicate Initial(db: Db) {
    db.roles == [] && db.checks == map[] && db.observations == []
  }

  ghost predicate History(dbs: seq<Db>, steps: seq<Step>) {
    && |dbs| == |steps| + 1
    && Initial(dbs[0])
    && forall i :: 0 <= i < |steps| ==> Enabled(dbs[i], steps[i]) && dbs[i + 1] == Apply(dbs[i], steps[i]).0
  }

  // ------------------------------------------------------------------ one step keeps it

  lemma {:induction false} ClashingMembers(roles: seq<RoleRow>, organization: Text, cluster: Cluster, role: Role,
      providerId: Text)
    ensures forall i :: 0 <= i < |roles| && RoleClashes(roles[i], organization, cluster, role, providerId) ==>
              roles[i] in Clashing(roles, organization, cluster, role, providerId)
  {
    if roles != [] { ClashingMembers(roles[1..], organization, cluster, role, providerId); }
  }

  lemma HasRoleKept(db: Db, next: Db)
    requires db.roles <= next.roles
    ensures forall o, c, r, p :: HasRole(db, o, c, r, p) ==> HasRole(next, o, c, r, p)
  {
    forall o, c, r, p | HasRole(db, o, c, r, p) ensures HasRole(next, o, c, r, p) {
      var i :| 0 <= i < |db.roles| && db.roles[i].organization == o && db.roles[i].cluster == c && db.roles[i].role == r && db.roles[i].providerId == p;
      assert next.roles[i] == db.roles[i];
    }
  }

  /** A step that leaves the checks alone keeps what is known of them. */
  lemma ChecksKept(db: Db, next: Db)
    requires Inv(db) && RolesSound(next) && db.roles <= next.roles && db.clock <= next.clock
    requires next.checks == db.checks && next.observations == db.observations
    ensures Inv(next)
  {
    HasRoleKept(db, next);
    forall key ensures RowsSound(Rows(next, key), next.clock) { assert RowsSound(Rows(db, key), db.clock); }
    forall key, i | 0 <= i < |Rows(next, key)| ensures PairSound(next, key, Rows(next, key)[i]) {
      assert PairSound(db, key, Rows(db, key)[i]);
    }
    forall i | 0 <= i < |next.observations| ensures ObservationSound(next, next.observations[i]) {
      assert ObservationSound(db, db.observations[i]);
    }
  }

  lemma SetRoleKeeps(db: Db, o: Text, c: Cluster, role: Role, p: Text, now: int)
    requires Inv(db)
    ensures Inv(AfterSetRole(db, o, c, role, p, now).0)
  {
    var next := AfterSetRole(db, o, c, role, p, now).0;
    ClashingMembers(db.roles, o, c, role, p);
    if next != db {
      var row := RoleRow(o, c, role, p, now);
      forall i | 0 <= i < |db.roles| ensures RolesDiffer(db.roles[i], row) {
        assert !RoleClashes(db.roles[i], o, c, role, p);
      }
      forall i | 0 <= i < |next.roles| ensures RoleSound(next, next.roles[i]) {
        if i < |db.roles| { assert RoleSound(db, db.roles[i]); }
      }
      ChecksKept(db, next);
    }
  }

  lemma {:induction false} ActiveRolesAreRoles(db: Db, roles: seq<RoleRow>, o: Text, role: Role, p: Text)
    ensures forall row :: row in ActiveRoles(db, roles, o, role, p) ==> row in roles && ActiveRole(db, row, o, role, p)
  {
    if roles != [] { ActiveRolesAreRoles(db, roles[1..], o, role, p); }
  }

  /** A configured pair really is the primary and the secondary of its cluster. */
  lemma PairHasRoles(db: Db, o: Text, p: Text, s: Text)
    requires PairCluster(db, o, p, s).Some?
    ensures HasRole(db, o, PairCluster(db, o, p, s).value, Primary, p)
    ensures HasRole(db, o, PairCluster(db, o, p, s).value, Secondary, s)
  {
    var ps, ss := ActiveRoles(db, db.roles, o, Primary, p), ActiveRoles(db, db.roles, o, Secondary, s);
    var rows := ps + ss;
    ActiveRolesAreRoles(db, db.roles, o, Primary, p);
    ActiveRolesAreRoles(db, db.roles, o, Secondary, s);
    assert forall row: RoleRow :: row in rows ==> row in db.roles && row.organization == o;
    assert forall row: RoleRow :: row in rows && row.role == Primary ==> row.providerId == p;
    assert forall row: RoleRow :: row in rows && row.role == Secondary ==> row.providerId == s;
    assert rows[0] in rows && rows[1] in rows;
  }

  /** What a claim does, once its input and roles are in order. */
  lemma ClaimCases(db: Db, o: Text, p: Text, s: Text, signature: Text, token: Text, selectedAt: int, insertedAt: int)
    requires Inv(db) && ValidClaimInput(p, s, signature) && PairCluster(db, o, p, s).Some?
    ensures var key := Key(o, PairCluster(db, o, p, s).value, signature);
      var rows := Rows(db, key);
      var (next, result) := AfterClaim(db, o, p, s, signature, token, selectedAt, insertedAt);
      if rows != [] && rows[|rows| - 1].state != Pending then
        next == db && result == Ok(Settled(rows[|rows| - 1].state, |rows|))
      else if rows != [] && rows[|rows| - 1].completedAt.None? && rows[|rows| - 1].claimedUntil >= selectedAt then
        next == db && result == Ok(Claimed(Claim(key, |rows|, p, s, rows[|rows| - 1].token)))
      else
        var row := CheckRow(|rows| + 1, p, s, Pending, token, insertedAt + LEASE, insertedAt, None);
        next == db.(checks := db.checks[key := rows + [row]]) && result == Ok(Claimed(Claim(key, |rows| + 1, p, s, token)))
  {
    var cluster := PairCluster(db, o, p, s).value;
    var rows := Rows(db, Key(o, cluster, signature));
    assert RowsSound(rows, db.clock);
    if rows != [] {
      var last := rows[|rows| - 1];
      PairHasRoles(db, o, p, s);
      assert PairSound(db, Key(o, cluster, signature), last);
    }
  }

  lemma NewRowSound(rows: seq<CheckRow>, row: CheckRow, clock: int)
    requires RowsSound(rows, clock) && clock <= row.startedAt && RowSound(row, row.startedAt)
    requires row.generation == |rows| + 1
    requires rows != [] ==> Superseded(rows[|rows| - 1], row)
    ensures RowsSound(rows + [row], row.startedAt)
  {
    forall i | 0 <= i < |rows| ensures Superseded((rows + [row])[i], (rows + [row])[i + 1]) {
      if i < |rows| - 1 { assert Superseded(rows[i], rows[i + 1]); }
    }
  }

  lemma SoundLater(rows: seq<CheckRow>, clock: int, later: int)
    requires RowsSound(rows, clock) && clock <= later
    ensures RowsSound(rows, later)
  {
  }

  lemma NewRowKeepsRows(db: Db, key: Key, row: CheckRow, next: Db)
    requires Inv(db) && db.clock <= row.startedAt
    requires RowSound(row, row.startedAt) && row.generation == |Rows(db, key)| + 1
    requires var rows := Rows(db, key); rows != [] ==> Superseded(rows[|rows| - 1], row)
    requires next.clock == row.startedAt && Rows(next, key) == Rows(db, key) + [row]
    requires forall k :: k != key ==> Rows(next, k) == Rows(db, k)
    ensures forall k :: RowsSound(Rows(next, k), next.clock)
  {
    assert RowsSound(Rows(db, key), db.clock);
    NewRowSound(Rows(db, key), row, db.clock);
    forall k | k != key ensures RowsSound(Rows(next, k), next.clock) { SoundLater(Rows(db, k), db.clock, next.clock); }
  }

  lemma NewRowKeeps(db: Db, key: Key, row: CheckRow, next: Db)
    requires Inv(db) && PairSound(db, key, row) && db.clock <= row.startedAt
    requires RowSound(row, row.startedAt) && row.generation == |Rows(db, key)| + 1
    requires var rows := Rows(db, key); rows != [] ==> Superseded(rows[|rows| - 1], row)
    requires next.clock == row.startedAt && next.roles == db.roles && next.providers == db.providers
    requires next.observations == db.observations
    requires Rows(next, key) == Rows(db, key) + [row]
    requires forall k :: k != key ==> Rows(next, k) == Rows(db, k)
    ensures Inv(next)
  {
    NewRowKeepsRows(db, key, row, next);
    assert forall i :: 0 <= i < |next.roles| ==> RoleSound(db, db.roles[i]);
    HasRoleKept(db, next);
    forall k, i | 0 <= i < |Rows(next, k)| ensures PairSound(next, k, Rows(next, k)[i]) {
      assert i < |Rows(db, k)| ==> PairSound(db, k, Rows(db, k)[i]);
    }
    forall i | 0 <= i < |next.observations| ensures ObservationSound(next, next.observations[i]) {
      assert ObservationSound(db, db.observations[i]);
    }
  }

  /** The case of a fresh generation. */
  lemma FreshClaimKeeps(db: Db, key: Key, p: Text, s: Text, token: Text, insertedAt: int, next: Db)
    requires Inv(db) && db.clock <= insertedAt
    requires var rows := Rows(db, key);
      rows != [] ==> rows[|rows| - 1].state == Pending && (rows[|rows| - 1].completedAt.Some? || rows[|rows| - 1].claimedUntil < insertedAt)
    requires var row := CheckRow(|Rows(db, key)| + 1, p, s, Pending, token, insertedAt + LEASE, insertedAt, None);
      PairSound(db, key, row) && next == db.(checks := db.checks[key := Rows(db, key) + [row]], clock := insertedAt)
    ensures Inv(next)
  {
    NewRowKeeps(db, key, CheckRow(|Rows(db, key)| + 1, p, s, Pending, token, insertedAt + LEASE, insertedAt, None),
      next);
  }

  lemma AdmittedClaimKeeps(db: Db, o: Text, p: Text, s: Text, signature: Text, token: Text, selectedAt: int,
      insertedAt: int, next: Db)
    requires Inv(db) && db.clock <= selectedAt <= insertedAt && ValidClaimInput(p, s, signature)
    requires PairCluster(db, o, p, s).Some?
    requires next == AfterClaim(db, o, p, s, signature, token, selectedAt, insertedAt).0
    ensures Inv(next.(clock := insertedAt))
  {
    ClaimCases(db, o, p, s, signature, token, selectedAt, insertedAt);
    if next == db {
      ChecksKept(db, next.(clock := insertedAt));
    } else {
      PairHasRoles(db, o, p, s);
      FreshClaimKeeps(db, Key(o, PairCluster(db, o, p, s).value, signature), p, s, token, insertedAt,
        next.(clock := insertedAt));
    }
  }

  lemma ClaimKeeps(db: Db, o: Text, p: Text, s: Text, signature: Text, token: Text, selectedAt: int, insertedAt: int)
    requires Inv(db) && db.clock <= selectedAt <= insertedAt
    ensures Inv(AfterClaim(db, o, p, s, signature, token, selectedAt, insertedAt).0.(clock := insertedAt))
  {
    var next := AfterClaim(db, o, p, s, signature, token, selectedAt, insertedAt).0;
    if !ValidClaimInput(p, s, signature) || PairCluster(db, o, p, s).None? {
      ChecksKept(db, next.(clock := insertedAt));
    } else {
      AdmittedClaimKeeps(db, o, p, s, signature, token, selectedAt, insertedAt, next);
    }
  }

  lemma {:induction false} NoEvidenceBefore(stored: seq<ObservationRow>, more: seq<ObservationRow>, claim: Claim)
    requires forall i :: 0 <= i < |stored| ==> stored[i].key != claim.key || stored[i].generation != claim.generation
    ensures Evidence(stored + more, claim) == Evidence(more, claim)
  {
    if stored == [] {
      assert stored + more == more;
    } else {
      NoEvidenceBefore(stored[1..], more, claim);
      assert (stored + more)[1..] == stored[1..] + more;
    }
  }

  lemma OwnEvidence(claim: Claim, x: Observation, y: Observation, createdAt: int)
    requires SamePair(x.providerId, y.providerId, claim.primary, claim.secondary)
    ensures Evidence(ObservationRows(claim, [x, y], createdAt), claim) == [x, y]
  {
    var more := ObservationRows(claim, [x, y], createdAt);
    assert more[1..][1..] == [] && more[1..][0] == more[1];
    assert Evidence(more[1..], claim) == [y];
    assert Evidence(more, claim) == [x] + [y];
  }

  /** An open generation has no observations yet. */
  lemma NoneStoredYet(db: Db, claim: Claim)
    requires Inv(db) && 0 < claim.generation == |Rows(db, claim.key)|
    requires Rows(db, claim.key)[claim.generation - 1].completedAt.None?
    ensures forall i :: 0 <= i < |db.observations| ==> db.observations[i].key != claim.key || db.observations[i].generation != claim.generation
  {
    forall i | 0 <= i < |db.observations|
      ensures db.observations[i].key != claim.key || db.observations[i].generation != claim.generation
    {
      assert ObservationSound(db, db.observations[i]);
    }
  }

  /** The verdict of a completion is derived from its own two observations and nothing else. */
  lemma EvidenceIsOwn(db: Db, claim: Claim, evidence: seq<Observation>, createdAt: int)
    requires Inv(db) && ValidCompletion(claim, evidence)
    requires claim.generation == |Rows(db, claim.key)| && Rows(db, claim.key)[claim.generation - 1].completedAt.None?
    ensures Evidence(db.observations + ObservationRows(claim, evidence, createdAt), claim) == evidence
  {
    NoneStoredYet(db, claim);
    NoEvidenceBefore(db.observations, ObservationRows(claim, evidence, createdAt), claim);
    OwnEvidence(claim, evidence[0], evidence[1], createdAt);
    assert evidence == [evidence[0], evidence[1]];
  }

  predicate IsApplied(result: Result<Completion, StoreError>) { result.Ok? && result.value.applied }

  /** What an applied completion found and did, before the evidence is known to be its own. */
  lemma AppliedCloses(db: Db, claim: Claim, state: Verdict, evidence: seq<Observation>, r: Readings)
    requires IsApplied(AfterComplete(db, claim, state, evidence, r).1)
    ensures ValidCompletion(claim, evidence) && Open(Latest(Rows(db, claim.key)), claim, r.selectedAt)
    ensures r.updatedAt <= Latest(Rows(db, claim.key)).value.claimedUntil
    ensures var stored := db.observations + ObservationRows(claim, evidence, r.inserts);
      && state == SqlVerdict(Evidence(stored, claim))
      && AfterComplete(db, claim, state, evidence, r) == (Close(db, claim, state, stored, r.updatedAt), Ok(Completion(true, state, claim.generation)))
  {
    assert ValidCompletion(claim, evidence);
    assert Open(Latest(Rows(db, claim.key)), claim, r.selectedAt);
  }

  /** A completion that is not applied changes no table: everything it wrote is rolled back. */
  lemma NotAppliedChangesNothing(db: Db, claim: Claim, state: Verdict, evidence: seq<Observation>, r: Readings)
    requires !IsApplied(AfterComplete(db, claim, state, evidence, r).1)
    ensures AfterComplete(db, claim, state, evidence, r).0 == db
  {
    assert ValidCompletion(claim, evidence) || !ValidCompletion(claim, evidence);
  }

  /** The last row of a key waits for this claim. */
  predicate Awaits(rows: seq<CheckRow>, claim: Claim) {
    && rows != [] && claim.generation == |rows|
    && var last := rows[|rows| - 1];
    last.token == claim.token && last.completedAt.None? && last.state == Pending
  }

  function ClosedRows(rows: seq<CheckRow>, state: Verdict, completedAt: int): seq<CheckRow>
    requires rows != []
  {
    rows[|rows| - 1 := rows[|rows| - 1].(state := state, completedAt := Some(completedAt))]
  }

  lemma OpenAwaits(db: Db, claim: Claim, now: int)
    requires Inv(db) && Open(Latest(Rows(db, claim.key)), claim, now)
    ensures Awaits(Rows(db, claim.key), claim)
    ensures Latest(Rows(db, claim.key)) == Some(Rows(db, claim.key)[claim.generation - 1])
  {
    assert RowsSound(Rows(db, claim.key), db.clock);
  }

  /** An applied completion closes the last, live, pending row with the verdict of its own evidence. */
  lemma CompleteCases(db: Db, claim: Claim, state: Verdict, evidence: seq<Observation>, r: Readings)
    requires Inv(db) && IsApplied(AfterComplete(db, claim, state, evidence, r).1)
    ensures var rows := Rows(db, claim.key);
      && Awaits(rows, claim)
      && r.selectedAt <= rows[|rows| - 1].claimedUntil && r.updatedAt <= rows[|rows| - 1].claimedUntil
      && state == SqlVerdict(evidence)
      && AfterComplete(db, claim, state, evidence, r)
         == (Close(db, claim, state, db.observations + ObservationRows(claim, evidence, r.inserts), r.updatedAt), Ok(Completion(true, state, |rows|)))
  {
    AppliedCloses(db, claim, state, evidence, r);
    OpenAwaits(db, claim, r.selectedAt);
    EvidenceIsOwn(db, claim, evidence, r.inserts);
  }

  lemma CloseRows(db: Db, claim: Claim, state: Verdict, stored: seq<ObservationRow>, completedAt: int)
    requires Inv(db) && Rows(db, claim.key) != []
    ensures var next := Close(db, claim, state, stored, completedAt);
      && next.roles == db.roles && next.providers == db.providers && next.clock == db.clock && next.observations == stored
      && Rows(next, claim.key) == ClosedRows(Rows(db, claim.key), state, completedAt)
      && forall k :: k != claim.key ==> Rows(next, k) == Rows(db, k)
  {
    assert RowsSound(Rows(db, claim.key), db.clock);
  }

  lemma ClosedRowsSound(rows: seq<CheckRow>, state: Verdict, completedAt: int, clock: int)
    requires RowsSound(rows, clock) && rows != [] && clock <= completedAt <= rows[|rows| - 1].claimedUntil
    ensures RowsSound(ClosedRows(rows, state, completedAt), completedAt)
  {
    var closed := ClosedRows(rows, state, completedAt);
    forall i | 0 <= i < |closed| - 1 ensures Superseded(closed[i], closed[i + 1]) { assert Superseded(rows[i], rows[i + 1]); }
  }

  lemma SettledRowKeepsRows(db: Db, key: Key, state: Verdict, completedAt: int, next: Db)
    requires Inv(db) && Rows(db, key) != []
    requires db.clock <= completedAt <= Rows(db, key)[|Rows(db, key)| - 1].claimedUntil
    requires next.clock == completedAt
    requires Rows(next, key) == ClosedRows(Rows(db, key), state, completedAt)
    requires forall k :: k != key ==> Rows(next, k) == Rows(db, k)
    ensures forall k :: RowsSound(Rows(next, k), next.clock)
  {
    ClosedRowsSound(Rows(db, key), state, completedAt, db.clock);
    forall k | k != key ensures RowsSound(Rows(next, k), next.clock) { SoundLater(Rows(db, k), db.clock, next.clock); }
  }

  /** Settling a row keeps the tables sound. */
  lemma SettledRowKeeps(db: Db, key: Key, state: Verdict, completedAt: int, more: seq<ObservationRow>, next: Db)
    requires Inv(db) && Rows(db, key) != []
    requires db.clock <= completedAt <= Rows(db, key)[|Rows(db, key)| - 1].claimedUntil
    requires next.clock == completedAt && next.roles == db.roles && next.providers == db.providers
    requires Rows(next, key) == ClosedRows(Rows(db, key), state, completedAt)
    requires forall k :: k != key ==> Rows(next, k) == Rows(db, k)
    requires next.observations == db.observations + more
    requires forall i :: 0 <= i < |more| ==> more[i].key == key && more[i].generation == |Rows(db, key)|
    ensures Inv(next)
  {
    SettledRowKeepsRows(db, key, state, completedAt, next);
    assert forall i :: 0 <= i < |next.roles| ==> RoleSound(db, db.roles[i]);
    HasRoleKept(db, next);
    forall k, i | 0 <= i < |Rows(next, k)| ensures PairSound(next, k, Rows(next, k)[i]) {
      assert PairSound(db, k, Rows(db, k)[i]);
    }
    forall i | 0 <= i < |next.observations| ensures ObservationSound(next, next.observations[i]) {
      if i < |db.observations| { assert ObservationSound(db, db.observations[i]); }
    }
  }

  lemma AppliedIsLive(db: Db, claim: Claim, state: Verdict, evidence: seq<Observation>, r: Readings)
    requires Inv(db) && IsApplied(AfterComplete(db, claim, state, evidence, r).1)
    ensures var rows := Rows(db, claim.key); Awaits(rows, claim) && r.updatedAt <= rows[claim.generation - 1].claimedUntil
  {
    AppliedCloses(db, claim, state, evidence, r);
    OpenAwaits(db, claim, r.selectedAt);
  }

  lemma CloseKeeps(db: Db, claim: Claim, state: Verdict, more: seq<ObservationRow>, completedAt: int)
    requires Inv(db) && Awaits(Rows(db, claim.key), claim)
    requires db.clock <= completedAt <= Rows(db, claim.key)[claim.generation - 1].claimedUntil
    requires forall i :: 0 <= i < |more| ==> more[i].key == claim.key && more[i].generation == claim.generation
    ensures Inv(Close(db, claim, state, db.observations + more, completedAt).(clock := completedAt))
  {
    CloseRows(db, claim, state, db.observations + more, completedAt);
    SettledRowKeeps(db, claim.key, state, completedAt, more,
      Close(db, claim, state, db.observations + more, completedAt).(clock := completedAt));
  }

  lemma AppliedKeeps(db: Db, claim: Claim, state: Verdict, evidence: seq<Observation>, r: Readings)
    requires Inv(db) && Monotone(db, r) && IsApplied(AfterComplete(db, claim, state, evidence, r).1)
    ensures Inv(Close(db, claim, state, db.observations + ObservationRows(claim, evidence, r.inserts), r.updatedAt).(clock := r.updatedAt))
  {
    AppliedIsLive(db, claim, state, evidence, r);
    CloseKeeps(db, claim, state, ObservationRows(claim, evidence, r.inserts), r.updatedAt);
  }

  lemma CompleteKeeps(db: Db, claim: Claim, state: Verdict, evidence: seq<Observation>, r: Readings)
    requires Inv(db) && Monotone(db, r)
    ensures Inv(AfterComplete(db, claim, state, evidence, r).0.(clock := r.updatedAt))
  {
    if IsApplied(AfterComplete(db, claim, state, evidence, r).1) {
      CompleteCases(db, claim, state, evidence, r);
      AppliedKeeps(db, claim, state, evidence, r);
    } else {
      NotAppliedChangesNothing(db, claim, state, evidence, r);
      ChecksKept(db, db.(clock := r.updatedAt));
    }
  }

  lemma StepKeeps(db: Db, step: Step)
    requires Inv(db) && Enabled(db, step)
    ensures Inv(Apply(db, step).0)
  {
    var next := Apply(db, step).0;
    match step
    case SetRole(o, c, role, p, now) => SetRoleKeeps(db, o, c, role, p, now);
    case MakeClaim(o, p, s, signature, token, selectedAt, insertedAt) => ClaimKeeps(db, o, p, s, signature, token, selectedAt, insertedAt);
    case Complete(claim, state, evidence, readings) => CompleteKeeps(db, claim, state, evidence, readings);
    case SetProvider(id, provider) =>
      assert forall i :: 0 <= i < |db.roles| ==> RoleSound(db, db.roles[i]);
      ChecksKept(db, next);
    case _ => ChecksKept(db, next);
  }

  // ------------------------------------------------------------------ over whole histories

  /**
   In every reachable state: generations 1..n without gaps, only the last may be settled, each
   superseded one completed or expired.
   */
  lemma {:induction false} ReachableSound(dbs: seq<Db>, steps: seq<Step>, n: nat)
    requires History(dbs, steps) && n <= |steps|
    ensures Inv(dbs[n])
  {
    if n == 0 {
      assert Rows(dbs[0], Key([], [], [])) == [];
    } else {
      ReachableSound(dbs, steps, n - 1);
      StepKeeps(dbs[n - 1], steps[n - 1]);
    }
  }

  /** Generations are 1 to n without a gap; all but the last are pending, and gave way completed or expired. */
  lemma GenerationsAreContiguous(dbs: seq<Db>, steps: seq<Step>, n: nat, key: Key)
    requires History(dbs, steps) && n <= |steps|
    ensures var rows := Rows(dbs[n], key);
      forall i :: 0 <= i < |rows| ==>
        && rows[i].generation == i + 1
        && (rows[i].state != Pending ==> i == |rows| - 1 && rows[i].completedAt.Some?)
        && (rows[i].completedAt.Some? ==> rows[i].startedAt <= rows[i].completedAt.value <= rows[i].startedAt + LEASE)
        && (i < |rows| - 1 ==> rows[i].completedAt.Some? || rows[i].claimedUntil < rows[i + 1].startedAt)
  {
    ReachableSound(dbs, steps, n);
    var rows := Rows(dbs[n], key);
    assert RowsSound(rows, dbs[n].clock);
    forall i | 0 <= i < |rows|
      ensures rows[i].state != Pending ==> i == |rows| - 1
      ensures i < |rows| - 1 ==> rows[i].completedAt.Some? || rows[i].claimedUntil < rows[i + 1].startedAt
    {
      if i < |rows| - 1 { assert Superseded(rows[i], rows[i + 1]); }
    }
  }

  predicate SettledAs(db: Db, key: Key, verdict: Verdict, generation: nat) {
    var rows := Rows(db, key);
    |rows| == generation > 0 && verdict != Pending && rows[generation - 1].state == verdict
  }

  /**
   What one step can do to the rows of one check: nothing, close the last, pending row, or append
   after a pending one.
   */
  ghost predicate RowsStep(rows: seq<CheckRow>, next: seq<CheckRow>) {
    || next == rows
    || (rows != [] && rows[|rows| - 1].state == Pending && exists state, at :: next == ClosedRows(rows, state, at))
    || (|next| == |rows| + 1 && next[..|rows|] == rows && (rows != [] ==> rows[|rows| - 1].state == Pending))
  }

  lemma ClaimStepsRows(db: Db, o: Text, p: Text, s: Text, signature: Text, token: Text, selectedAt: int,
      insertedAt: int, key: Key)
    requires Inv(db)
    ensures RowsStep(Rows(db, key), Rows(AfterClaim(db, o, p, s, signature, token, selectedAt, insertedAt).0, key))
  {
    if ValidClaimInput(p, s, signature) && PairCluster(db, o, p, s).Some? {
      ClaimCases(db, o, p, s, signature, token, selectedAt, insertedAt);
    }
  }

  lemma CloseStepsRows(db: Db, claim: Claim, state: Verdict, stored: seq<ObservationRow>, at: int, key: Key)
    requires Inv(db) && Awaits(Rows(db, claim.key), claim)
    ensures RowsStep(Rows(db, key), Rows(Close(db, claim, state, stored, at), key))
  {
    CloseRows(db, claim, state, stored, at);
    assert key != claim.key ==> Rows(Close(db, claim, state, stored, at), key) == Rows(db, key);
  }

  lemma CompleteStepsRows(db: Db, claim: Claim, state: Verdict, evidence: seq<Observation>, r: Readings, key: Key)
    requires Inv(db)
    ensures RowsStep(Rows(db, key), Rows(AfterComplete(db, claim, state, evidence, r).0, key))
  {
    if IsApplied(AfterComplete(db, claim, state, evidence, r).1) {
      CompleteCases(db, claim, state, evidence, r);
      CloseStepsRows(db, claim, state, db.observations + ObservationRows(claim, evidence, r.inserts), r.updatedAt, key);
    } else {
      NotAppliedChangesNothing(db, claim, state, evidence, r);
    }
  }

  lemma StepsRows(db: Db, step: Step, key: Key)
    requires Inv(db)
    ensures RowsStep(Rows(db, key), Rows(Apply(db, step).0, key))
  {
    match step
    case MakeClaim(o, p, s, signature, token, selectedAt, insertedAt) => ClaimStepsRows(db, o, p, s, signature, token, selectedAt, insertedAt, key);
    case Complete(claim, state, evidence, readings) => CompleteStepsRows(db, claim, state, evidence, readings, key);
    case _ => OtherStepsRows(db, step, key);
  }

  lemma OtherStepsRows(db: Db, step: Step, key: Key)
    requires !step.MakeClaim? && !step.Complete?
    ensures Rows(Apply(db, step).0, key) == Rows(db, key)
  {
  }

  /** The successive rows of one check. */
  ghost predicate RowsRun(run: seq<seq<CheckRow>>) {
    forall k :: 0 <= k < |run| - 1 ==> RowsStep(run[k], run[k + 1])
  }

  lemma {:induction false} SettledAlong(run: seq<seq<CheckRow>>, i: nat, j: nat)
    requires RowsRun(run) && i <= j < |run| && run[i] != [] && run[i][|run[i]| - 1].state != Pending
    ensures run[j] == run[i]
    decreases j
  {
    if i < j {
      SettledAlong(run, i, j - 1);
      assert RowsStep(run[j - 1], run[j - 1 + 1]);
    }
  }

  lemma {:induction false} ClosedAlong(run: seq<seq<CheckRow>>, i: nat, j: nat, generation: nat)
    requires RowsRun(run) && i <= j < |run| && 1 <= generation <= |run[i]| && run[i][generation - 1].completedAt.Some?
    ensures generation <= |run[j]| && run[j][generation - 1].completedAt.Some?
    decreases j
  {
    if i < j {
      ClosedAlong(run, i, j - 1, generation);
      assert RowsStep(run[j - 1], run[j - 1 + 1]);
    }
  }

  function RowsOf(dbs: seq<Db>, key: Key): (run: seq<seq<CheckRow>>)
    ensures |run| == |dbs| && forall k :: 0 <= k < |dbs| ==> run[k] == Rows(dbs[k], key)
  {
    seq(|dbs|, k requires 0 <= k < |dbs| => Rows(dbs[k], key))
  }

  lemma HistoryRuns(dbs: seq<Db>, steps: seq<Step>, key: Key)
    requires History(dbs, steps)
    ensures RowsRun(RowsOf(dbs, key))
  {
    forall k | 0 <= k < |steps| ensures RowsStep(RowsOf(dbs, key)[k], RowsOf(dbs, key)[k + 1]) {
      ReachableSound(dbs, steps, k);
      StepsRows(dbs[k], steps[k], key);
    }
  }

  /** A settled verdict is never changed, however the history goes on. */
  lemma SettledForever(dbs: seq<Db>, steps: seq<Step>, i: nat, j: nat, key: Key, verdict: Verdict, generation: nat)
    requires History(dbs, steps) && i <= j <= |steps| && SettledAs(dbs[i], key, verdict, generation)
    ensures SettledAs(dbs[j], key, verdict, generation)
  {
    HistoryRuns(dbs, steps, key);
    SettledAlong(RowsOf(dbs, key), i, j);
  }

  /** Once settled, every later claim that is admitted returns that verdict and generation. */
  lemma SettledIsReturned(dbs: seq<Db>, steps: seq<Step>, i: nat, j: nat, key: Key, verdict: Verdict, generation: nat)
    requires History(dbs, steps) && i <= j < |steps| && SettledAs(dbs[i], key, verdict, generation)
    requires steps[j].MakeClaim? && steps[j].org == key.organization && steps[j].signature == key.signature
    requires PairCluster(dbs[j], steps[j].org, steps[j].primary, steps[j].secondary) == Some(key.cluster)
    requires ValidClaimInput(steps[j].primary, steps[j].secondary, steps[j].signature)
    ensures Apply(dbs[j], steps[j]).1 == ClaimOutcome(Ok(Settled(verdict, generation)))
  {
    SettledForever(dbs, steps, i, j, key, verdict, generation);
    ReachableSound(dbs, steps, j);
    var s := steps[j];
    ClaimCases(dbs[j], s.org, s.primary, s.secondary, s.signature, s.token, s.selectedAt, s.insertedAt);
  }

  predicate Applied(db: Db, step: Step, key: Key, generation: nat) {
    && step.Complete? && step.claim.key == key && step.claim.generation == generation
    && IsApplied(AfterComplete(db, step.claim, step.state, step.evidence, step.readings).1)
  }

  predicate Closed(db: Db, key: Key, generation: nat) {
    1 <= generation <= |Rows(db, key)| && Rows(db, key)[generation - 1].completedAt.Some?
  }

  lemma ClosedForever(dbs: seq<Db>, steps: seq<Step>, i: nat, j: nat, key: Key, generation: nat)
    requires History(dbs, steps) && i <= j <= |steps| && Closed(dbs[i], key, generation)
    ensures Closed(dbs[j], key, generation)
  {
    HistoryRuns(dbs, steps, key);
    ClosedAlong(RowsOf(dbs, key), i, j, generation);
  }

  lemma ApplyingCloses(db: Db, claim: Claim, state: Verdict, evidence: seq<Observation>, r: Readings)
    requires Inv(db) && IsApplied(AfterComplete(db, claim, state, evidence, r).1)
    ensures Awaits(Rows(db, claim.key), claim)
    ensures Rows(AfterComplete(db, claim, state, evidence, r).0, claim.key)
      == ClosedRows(Rows(db, claim.key), state, r.updatedAt)
  {
    CompleteCases(db, claim, state, evidence, r);
    CloseRows(db, claim, state, db.observations + ObservationRows(claim, evidence, r.inserts), r.updatedAt);
  }

  lemma AppliedStepCloses(db: Db, step: Step, key: Key, generation: nat)
    requires Inv(db) && Applied(db, step, key, generation)
    ensures !Closed(db, key, generation) && Closed(Apply(db, step).0, key, generation)
    ensures Rows(Apply(db, step).0, key)[generation - 1].state == step.state
  {
    ApplyingCloses(db, step.claim, step.state, step.evidence, step.readings);
  }

  /** Two workers may hold one claim, but it completes at most once. */
  lemma CompletesOnce(dbs: seq<Db>, steps: seq<Step>, i: nat, j: nat, key: Key, generation: nat)
    requires History(dbs, steps) && i < j < |steps| && Applied(dbs[i], steps[i], key, generation)
    ensures !Applied(dbs[j], steps[j], key, generation)
  {
    ReachableSound(dbs, steps, i);
    AppliedStepCloses(dbs[i], steps[i], key, generation);
    ClosedForever(dbs, steps, i + 1, j, key, generation);
    ReachableSound(dbs, steps, j);
    if Applied(dbs[j], steps[j], key, generation) { AppliedStepCloses(dbs[j], steps[j], key, generation); }
  }

  lemma AppliedVerdict(db: Db, claim: Claim, state: Verdict, evidence: seq<Observation>, r: Readings)
    requires Inv(db) && IsApplied(AfterComplete(db, claim, state, evidence, r).1)
    ensures state == SqlVerdict(evidence)
  {
    CompleteCases(db, claim, state, evidence, r);
  }

  lemma AppliedMeets(db: Db, claim: Claim, state: Verdict, evidence: seq<Observation>, r: Readings)
    requires Inv(db) && IsApplied(AfterComplete(db, claim, state, evidence, r).1)
    ensures Awaits(Rows(db, claim.key), claim)
    ensures r.updatedAt <= Rows(db, claim.key)[claim.generation - 1].startedAt + LEASE
    ensures state == SqlVerdict(evidence)
    ensures Rows(AfterComplete(db, claim, state, evidence, r).0, claim.key)
      == ClosedRows(Rows(db, claim.key), state, r.updatedAt)
  {
    ApplyingCloses(db, claim, state, evidence, r);
    AppliedVerdict(db, claim, state, evidence, r);
    AppliedIsLive(db, claim, state, evidence, r);
    assert RowsSound(Rows(db, claim.key), db.clock);
  }

  lemma AppliedStepMeets(db: Db, step: Step, key: Key, generation: nat)
    requires Inv(db) && Applied(db, step, key, generation)
    ensures Awaits(Rows(db, key), step.claim)
    ensures step.readings.updatedAt <= Rows(db, key)[generation - 1].startedAt + LEASE
    ensures step.state == SqlVerdict(step.evidence)
    ensures Rows(Apply(db, step).0, key) == ClosedRows(Rows(db, key), step.state, step.readings.updatedAt)
  {
    AppliedMeets(db, step.claim, step.state, step.evidence, step.readings);
  }

  /**
   A completion that applies does so for the current generation, under the token of its
   claim, before the lease runs out on the database clock, with the verdict its own two
   observations derive.
   */
  lemma AppliedIsTimely(dbs: seq<Db>, steps: seq<Step>, i: nat, key: Key, generation: nat)
    requires History(dbs, steps) && i < |steps| && Applied(dbs[i], steps[i], key, generation)
    ensures Awaits(Rows(dbs[i], key), steps[i].claim)
    ensures steps[i].readings.updatedAt <= Rows(dbs[i], key)[generation - 1].startedAt + LEASE
    ensures steps[i].state == SqlVerdict(steps[i].evidence)
    ensures Rows(dbs[i + 1], key) == ClosedRows(Rows(dbs[i], key), steps[i].state, steps[i].readings.updatedAt)
  {
    ReachableSound(dbs, steps, i);
    AppliedStepMeets(dbs[i], steps[i], key, generation);
  }

  /** While a lease is live, every further claim is handed the same claim and nothing is written. */
  lemma LiveLeaseIsShared(db: Db, o: Text, p: Text, s: Text, signature: Text, token: Text, selectedAt: int,
      insertedAt: int, row: CheckRow)
    requires Inv(db) && ValidClaimInput(p, s, signature) && PairCluster(db, o, p, s).Some?
    requires var rows := Rows(db, Key(o, PairCluster(db, o, p, s).value, signature)); rows != [] && rows[|rows| - 1] == row
    requires row.completedAt.None? && selectedAt <= row.startedAt + LEASE
    ensures var key := Key(o, PairCluster(db, o, p, s).value, signature);
      AfterClaim(db, o, p, s, signature, token, selectedAt, insertedAt) == (db, Ok(Claimed(Claim(key, row.generation, p, s, row.token))))
  {
    assert RowsSound(Rows(db, Key(o, PairCluster(db, o, p, s).value, signature)), db.clock);
    ClaimCases(db, o, p, s, signature, token, selectedAt, insertedAt);
  }

  lemma CompleteAbsorbs(db: Db, claim: Claim, state: Verdict, evidence: seq<Observation>, r: Readings)
    ensures QuarantineAbsorbs(db.events, AfterComplete(db, claim, state, evidence, r).0.events)
  {
    if IsApplied(AfterComplete(db, claim, state, evidence, r).1) {
      AppliedCloses(db, claim, state, evidence, r);
    } else {
      NotAppliedChangesNothing(db, claim, state, evidence, r);
    }
  }

  /** No consensus step lets a quarantined event out of quarantine, or loses an event. */
  lemma StepAbsorbsQuarantine(db: Db, step: Step)
    requires !step.OtherTables?
    ensures QuarantineAbsorbs(db.events, Apply(db, step).0.events)
  {
    if step.Complete? { CompleteAbsorbs(db, step.claim, step.state, step.evidence, step.readings); }
  }

  // ------------------------------------------------------------------ the engine's own completions

  /** A claim as the store hands them out, still held by its worker. */
  predicate Held(db: Db, claim: Claim, now: int) {
    && ValidUuid(claim.key.organization) && ValidUuid(claim.token)
    && claim.generation <= MAX_SAFE_INTEGER && ValidClaimInput(claim.primary, claim.secondary, claim.key.signature)
    && Open(Latest(Rows(db, claim.key)), claim, now)
    && Latest(Rows(db, claim.key)).value.primary == claim.primary
    && Latest(Rows(db, claim.key)).value.secondary == claim.secondary
  }

  /** The database refuses the two rows only when the observation is dated after the insert. */
  lemma PairAllowed(db: Db, claim: Claim, x: Observation, y: Observation, createdAt: int)
    requires Inv(db) && Awaits(Rows(db, claim.key), claim)
    requires x.providerId != y.providerId && x.observedAt == y.observedAt
    requires x.safeErrorCode == Some(RpcTransactionSchemaInvalid) ==> x.safeErrorRetryable == Some(true)
    requires y.safeErrorCode == Some(RpcTransactionSchemaInvalid) ==> y.safeErrorRetryable == Some(true)
    ensures AllAllowed(db.observations, ObservationRows(claim, [x, y], createdAt)) <==> x.observedAt <= createdAt
  {
    var rows := ObservationRows(claim, [x, y], createdAt);
    forall i | 0 <= i < |db.observations|
      ensures db.observations[i].key != claim.key || db.observations[i].generation != claim.generation
    {
      assert ObservationSound(db, db.observations[i]);
    }
    assert rows[..0] == [] && db.observations + [] == db.observations;
    assert rows[..1] == [rows[0]];
    assert RowAllowed(db.observations, rows[0]) <==> x.observedAt <= createdAt;
    assert RowAllowed(db.observations + [rows[0]], rows[1]) <==> x.observedAt <= createdAt;
    assert AllAllowed(db.observations, rows) <==> RowAllowed(db.observations + rows[..0], rows[0]) && RowAllowed(db.observations + rows[..1], rows[1]);
  }

  /** What a completion answers once its input is valid, its claim open and its verdict consistent. */
  lemma ConsistentCompletion(db: Db, claim: Claim, state: Verdict, x: Observation, y: Observation, r: Readings)
    requires Inv(db) && Held(db, claim, r.selectedAt) && ValidCompletion(claim, [x, y])
    requires state == SqlVerdict([x, y])
    ensures var result := AfterComplete(db, claim, state, [x, y], r).1;
      if !AllAllowed(db.observations, ObservationRows(claim, [x, y], r.inserts)) then result == Err(ConstraintViolated)
      else result == Ok(if r.updatedAt <= Latest(Rows(db, claim.key)).value.claimedUntil
                        then Completion(true, state, claim.generation) else Completion(false, Pending, claim.generation))
  {
    OpenAwaits(db, claim, r.selectedAt);
    EvidenceIsOwn(db, claim, [x, y], r.inserts);
  }

  /** What the engine observes through the adapter is a pair the completion admits. */
  lemma ObservedPairIsAdmitted(claim: Claim, runtime: Runtime, at: int, ms: int, ns: int, answer: Answer, other: Answer)
    requires AdapterAnswer(answer, claim.key.signature) && AdapterAnswer(other, claim.key.signature)
    requires ValidUuid(claim.key.organization) && ValidUuid(claim.token) && 1 <= claim.generation <= MAX_SAFE_INTEGER
    requires ValidClaimInput(claim.primary, claim.secondary, claim.key.signature)
    requires forall t :: IsHexDigest(runtime.sha256(t))
    ensures var x := ObserveProvider(runtime, claim.primary, claim.key.signature, at, ms, answer).observation;
      var y := ObserveProvider(runtime, claim.secondary, claim.key.signature, at, ns, other).observation;
      && ValidCompletion(claim, [x, y]) && x.providerId == claim.primary && y.providerId == claim.secondary
      && x.observedAt == at && y.observedAt == at
  {
    ObservedIdentity(runtime, claim.key.signature, claim.primary, at, ms, answer);
    ObservedIdentity(runtime, claim.key.signature, claim.secondary, at, ns, other);
    EngineEvidenceIsValid(runtime, claim.key.signature, claim.primary, at, ms, answer);
    EngineEvidenceIsValid(runtime, claim.key.signature, claim.secondary, at, ns, other);
  }

  lemma ObservedIdentity(runtime: Runtime, signature: Text, p: Text, at: int, ms: int, answer: Answer)
    requires AdapterAnswer(answer, signature)
    ensures var x := ObserveProvider(runtime, p, signature, at, ms, answer).observation;
      && x.providerId == p && x.observedAt == at
      && (x.safeErrorCode == Some(RpcTransactionSchemaInvalid) ==> x.safeErrorRetryable == Some(true))
  {
    if HasBoth(runtime, answer) {
      AdapterSighting(runtime, signature, p, at, ms, answer);
    } else {
      FailureThroughAdapter(runtime, signature, p, at, ms, answer);
    }
  }

  /**
   The engine's own evidence is never refused as inconsistent: a completion of a held claim
   is stored exactly when the lease still runs at its last statement, and it fails exactly
   when the worker's clock ran ahead of the database clock.
   */
  lemma EngineCompletionAccepted(db: Db, claim: Claim, runtime: Runtime, at: int, ms: int, ns: int, answer: Answer,
      other: Answer, r: Readings)
    requires Inv(db) && Held(db, claim, r.selectedAt)
    requires AdapterAnswer(answer, claim.key.signature) && AdapterAnswer(other, claim.key.signature)
    requires CollisionFree(runtime.sha256, HashedTexts(runtime, claim.key.signature, answer) + HashedTexts(runtime, claim.key.signature, other))
    requires forall t :: IsHexDigest(runtime.sha256(t))
    ensures var x := ObserveProvider(runtime, claim.primary, claim.key.signature, at, ms, answer);
      var y := ObserveProvider(runtime, claim.secondary, claim.key.signature, at, ns, other);
      var state := DecideState(x, y);
      var result := AfterComplete(db, claim, state, [x.observation, y.observation], r).1;
      if at > r.inserts then result == Err(ConstraintViolated)
      else result == Ok(if r.updatedAt <= Latest(Rows(db, claim.key)).value.claimedUntil
                        then Completion(true, state, claim.generation) else Completion(false, Pending, claim.generation))
  {
    var signature := claim.key.signature;
    var x := ObserveProvider(runtime, claim.primary, signature, at, ms, answer);
    var y := ObserveProvider(runtime, claim.secondary, signature, at, ns, other);
    OpenAwaits(db, claim, r.selectedAt);
    ObservedPairIsAdmitted(claim, runtime, at, ms, ns, answer, other);
    VerdictsAgree(runtime, signature, claim.primary, claim.secondary, at, ms, ns, answer, other);
    ObservedIdentity(runtime, signature, claim.primary, at, ms, answer);
    ObservedIdentity(runtime, signature, claim.secondary, at, ns, other);
    PairAllowed(db, claim, x.observation, y.observation, r.inserts);
    ConsistentCompletion(db, claim, DecideState(x, y), x.observation, y.observation, r);
  }
}
