/**
 What the operations on consensus checks mean for every table: roles, admitted claims, and above
 all completions, which settle a check and quarantine what the providers disagree on.
 */
module ConsensusMeaning {
  import opened Wrappers
  import opened Texts
  import opened EvidenceTables
  import opened FinalizedConsensus
  import opened ConsensusStore
  import opened ConsensusHistory
  import EngineMeaning

  // ------------------------------------------------------------------ the verdict

  /** Every column of evidence is there. */
  predicate HasEvidence(o: Observation) {
    && o.canonicalDigest.Some? && o.snapshotDigest.Some? && o.parsingDigest.Some? && o.transferIdentityDigest.Some?
    && o.statusSlot.Some? && o.slot.Some? && o.executionState.Some? && o.executionDigest.Some?
    && o.statusExecutionDigest.Some? && o.transactionExecutionDigest.Some? && o.finality.Some?
  }

  /** The same evidence, whoever observed it and however long it took. */
  predicate SameEvidence(x: Observation, y: Observation) {
    && x.canonicalDigest == y.canonicalDigest && x.snapshotDigest == y.snapshotDigest
    && x.parsingDigest == y.parsingDigest && x.transferIdentityDigest == y.transferIdentityDigest
    && x.slot == y.slot && x.executionState == y.executionState && x.executionDigest == y.executionDigest
    && x.statusExecutionDigest == y.statusExecutionDigest
    && x.transactionExecutionDigest == y.transactionExecutionDigest && x.finality == y.finality
  }

  /** Status and transaction say the same, and both are finalized. */
  predicate FinalEvidence(o: Observation) {
    o.statusSlot == o.slot && o.statusExecutionDigest == o.transactionExecutionDigest && o.finality == Some(Ascii("finalized/finalized"))
  }

  predicate ReportsConflict(o: Observation) { o.safeErrorCode == Some(RpcSignatureConflict) }

  /** The verdict on two observations without errors beside their evidence. */
  lemma VerdictMeans(x: Observation, y: Observation)
    requires HasEvidence(x) ==> x.safeErrorCode.None?
    requires HasEvidence(y) ==> y.safeErrorCode.None?
    ensures SqlVerdict([x, y]) == Disagreed <==>
      || ReportsConflict(x) || ReportsConflict(y)
      || (HasEvidence(x) && HasEvidence(y) && !(SameEvidence(x, y) && FinalEvidence(x) && FinalEvidence(y)))
    ensures SqlVerdict([x, y]) == Agreed <==>
      HasEvidence(x) && HasEvidence(y) && SameEvidence(x, y) && FinalEvidence(x) && FinalEvidence(y)
  {
    PairCount(x, y, ConflictRow);
    PairCount(x, y, CompleteRow);
    assert IsComplete(x) == HasEvidence(x) && IsComplete(y) == HasEvidence(y);
    if HasEvidence(x) && HasEvidence(y) {
      SqlOfPair(x, y);
      SameColumns(x, y);
    }
  }

  lemma SameColumns(x: Observation, y: Observation)
    ensures x.slot == y.slot && (forall field :: Get(x, field) == Get(y, field)) <==> SameEvidence(x, y)
  {
    if forall field :: Get(x, field) == Get(y, field) {
      assert Get(x, CanonicalDigest) == Get(y, CanonicalDigest) && Get(x, SnapshotDigest) == Get(y, SnapshotDigest);
      assert Get(x, ParsingDigestField) == Get(y, ParsingDigestField) && Get(x, TransferIdentityDigest) == Get(y, TransferIdentityDigest);
      assert Get(x, ExecutionState) == Get(y, ExecutionState) && Get(x, ExecutionDigest) == Get(y, ExecutionDigest);
      assert Get(x, StatusExecutionDigest) == Get(y, StatusExecutionDigest);
      assert Get(x, TransactionExecutionDigest) == Get(y, TransactionExecutionDigest) && Get(x, Finality) == Get(y, Finality);
    }
  }

  // ------------------------------------------------------------------ roles

  /** A role of this kind, or of this provider, is given already. */
  predicate TakenRole(row: RoleRow, organization: Text, cluster: Cluster, role: Role, providerId: Text) {
    row.organization == organization && row.cluster == cluster && (row.role == role || row.providerId == providerId)
  }

  predicate GivenRole(row: RoleRow, organization: Text, cluster: Cluster, role: Role, providerId: Text) {
    row.organization == organization && row.cluster == cluster && row.role == role && row.providerId == providerId
  }

  /** The provider is known, active, and of the cluster. */
  predicate Usable(db: Db, providerId: Text, cluster: Cluster) {
    && 1 <= |providerId| <= 64
    && providerId in db.providers && db.providers[providerId].active && db.providers[providerId].cluster == cluster
  }

  lemma {:induction false} ClashingAre(roles: seq<RoleRow>, organization: Text, cluster: Cluster, role: Role,
      providerId: Text)
    ensures forall row ::
      row in Clashing(roles, organization, cluster, role, providerId) <==> row in roles && TakenRole(row, organization, cluster, role, providerId)
  {
    if roles != [] { ClashingAre(roles[1..], organization, cluster, role, providerId); }
  }

  lemma {:induction false} ExactIs(rows: seq<RoleRow>, role: Role, providerId: Text)
    ensures var found := Exact(rows, role, providerId);
      && (found.Some? ==> found.value in rows && found.value.role == role && found.value.providerId == providerId)
      && (found.None? ==> forall row :: row in rows ==> !(row.role == role && row.providerId == providerId))
  {
    if rows != [] { ExactIs(rows[1..], role, providerId); }
  }

  /**
   A role is newly given exactly when the provider is usable and neither kind nor provider has one;
   a repeated call finds it.
   */
  lemma SetRoleMeans(db: Db, organization: Text, cluster: Cluster, role: Role, providerId: Text, now: int)
    ensures var (next, result) := AfterSetRole(db, organization, cluster, role, providerId, now);
      var given := exists row :: row in db.roles && GivenRole(row, organization, cluster, role, providerId);
      var taken := exists row :: row in db.roles && TakenRole(row, organization, cluster, role, providerId);
      && (result.Ok? <==> Usable(db, providerId, cluster) && (given || !taken))
      && (result.Ok? ==> GivenRole(result.value, organization, cluster, role, providerId) && result.value in next.roles)
      && (result.Ok? && !taken ==> next == db.(roles := db.roles + [RoleRow(organization, cluster, role, providerId, now)]))
      && (result.Err? || given ==> next == db)
  {
    var existing := Clashing(db.roles, organization, cluster, role, providerId);
    ClashingAre(db.roles, organization, cluster, role, providerId);
    ExactIs(existing, role, providerId);
    if existing != [] { assert existing[0] in existing; }
    forall row | row in db.roles && GivenRole(row, organization, cluster, role, providerId) ensures row in existing {
    }
  }

  // ------------------------------------------------------------------ claims

  predicate Serves(db: Db, providerId: Text, cluster: Cluster) {
    providerId in db.providers && db.providers[providerId].active && db.providers[providerId].cluster == cluster
  }

  predicate HoldsRole(db: Db, organization: Text, cluster: Cluster, role: Role, providerId: Text) {
    exists row :: row in db.roles && GivenRole(row, organization, cluster, role, providerId)
  }

  /** Both providers are active in the cluster, in these roles for the organization. */
  predicate Configured(db: Db, organization: Text, primary: Text, secondary: Text, cluster: Cluster) {
    && Serves(db, primary, cluster) && HoldsRole(db, organization, cluster, Primary, primary)
    && Serves(db, secondary, cluster) && HoldsRole(db, organization, cluster, Secondary, secondary)
  }

  predicate AllDiffer(roles: seq<RoleRow>) { forall i, j :: 0 <= i < j < |roles| ==> RolesDiffer(roles[i], roles[j]) }

  lemma {:induction false} NoneActive(db: Db, roles: seq<RoleRow>, organization: Text, role: Role, providerId: Text)
    requires forall i :: 0 <= i < |roles| ==> !ActiveRole(db, roles[i], organization, role, providerId)
    ensures ActiveRoles(db, roles, organization, role, providerId) == []
  {
    if roles != [] { NoneActive(db, roles[1..], organization, role, providerId); }
  }

  lemma {:induction false} ActiveAre(db: Db, roles: seq<RoleRow>, organization: Text, role: Role, providerId: Text)
    requires AllDiffer(roles)
    ensures var found := ActiveRoles(db, roles, organization, role, providerId);
      && |found| <= 1
      && forall row :: row in found <==> row in roles && ActiveRole(db, row, organization, role, providerId)
  {
    if roles != [] {
      var rest := ActiveRoles(db, roles[1..], organization, role, providerId);
      ActiveAre(db, roles[1..], organization, role, providerId);
      if ActiveRole(db, roles[0], organization, role, providerId) {
        forall i | 0 <= i < |roles[1..]| ensures !ActiveRole(db, roles[1..][i], organization, role, providerId) {
          assert RolesDiffer(roles[0], roles[i + 1]);
        }
        NoneActive(db, roles[1..], organization, role, providerId);
      }
    }
  }

  /** The role rows of one provider: none, or the one of the cluster it serves. */
  lemma ActiveOne(db: Db, organization: Text, role: Role, providerId: Text)
    requires AllDiffer(db.roles)
    ensures var found := ActiveRoles(db, db.roles, organization, role, providerId);
      && |found| <= 1
      && (found != [] ==> found[0].role == role)
      && forall cluster :: Serves(db, providerId, cluster) && HoldsRole(db, organization, cluster, role, providerId)
           <==> found != [] && found[0].cluster == cluster
  {
    var found := ActiveRoles(db, db.roles, organization, role, providerId);
    ActiveAre(db, db.roles, organization, role, providerId);
    if found != [] {
      assert found[0] in found;
      assert GivenRole(found[0], organization, found[0].cluster, role, providerId);
    }
    forall cluster | Serves(db, providerId, cluster) && HoldsRole(db, organization, cluster, role, providerId)
      ensures found != [] && found[0].cluster == cluster
    {
      var row :| row in db.roles && GivenRole(row, organization, cluster, role, providerId);
      assert row in found;
    }
  }

  lemma PairMeans(db: Db, organization: Text, primary: Text, secondary: Text, cluster: Cluster)
    requires AllDiffer(db.roles)
    ensures PairCluster(db, organization, primary, secondary) == Some(cluster)
      <==> Configured(db, organization, primary, secondary, cluster)
  {
    ActiveOne(db, organization, Primary, primary);
    ActiveOne(db, organization, Secondary, secondary);
  }

  /** Two providers, and a signature, of admissible length. */
  predicate Admissible(primary: Text, secondary: Text, signature: Text) {
    primary != secondary && 1 <= |primary| <= 64 && 1 <= |secondary| <= 64 && 32 <= |signature| <= 128
  }

  /** What a claim is answered, and what it adds to the generations of its check. */
  predicate ClaimGives(rows: seq<CheckRow>, after: seq<CheckRow>, result: ClaimResult, key: Key, primary: Text,
      secondary: Text,
      token: Text, selectedAt: int, insertedAt: int) {
    if rows != [] && rows[|rows| - 1].state != Pending then
      after == rows && result == Settled(rows[|rows| - 1].state, |rows|)
    else if rows != [] && rows[|rows| - 1].completedAt.None? && selectedAt <= rows[|rows| - 1].claimedUntil then
      after == rows && result == Claimed(Claim(key, |rows|, primary, secondary, rows[|rows| - 1].token))
    else
      && after == rows + [CheckRow(|rows| + 1, primary, secondary, Pending, token, insertedAt + 60_000, insertedAt, None)]
      && result == Claimed(Claim(key, |rows| + 1, primary, secondary, token))
  }

  lemma PairOfAny(db: Db, organization: Text, primary: Text, secondary: Text)
    requires AllDiffer(db.roles)
    ensures forall cluster ::
      Configured(db, organization, primary, secondary, cluster) <==> PairCluster(db, organization, primary, secondary) == Some(cluster)
  {
    forall cluster
      ensures Configured(db, organization, primary, secondary, cluster)
        <==> PairCluster(db, organization, primary, secondary) == Some(cluster)
    {
      PairMeans(db, organization, primary, secondary, cluster);
    }
  }

  /** A claim is answered exactly for an admissible input and a configured pair, and else changes nothing. */
  lemma ClaimRefusedIff(db: Db, organization: Text, primary: Text, secondary: Text, signature: Text, token: Text,
      selectedAt: int,
      insertedAt: int)
    requires Inv(db)
    ensures var (next, result) := AfterClaim(db, organization, primary, secondary, signature, token, selectedAt, insertedAt);
      && (result.Err? ==> next == db)
      && (result.Err? <==> !Admissible(primary, secondary, signature) || forall cluster :: !Configured(db, organization, primary, secondary, cluster))
  {
    PairOfAny(db, organization, primary, secondary);
    var pair := PairCluster(db, organization, primary, secondary);
    if pair.Some? { assert Configured(db, organization, primary, secondary, pair.value); }
  }

  /** An admitted claim settles nothing and touches only the check it is for. */
  lemma ClaimMeans(db: Db, organization: Text, primary: Text, secondary: Text, signature: Text, token: Text,
      selectedAt: int,
      insertedAt: int, cluster: Cluster)
    requires Inv(db) && Admissible(primary, secondary, signature)
    requires Configured(db, organization, primary, secondary, cluster)
    ensures var (next, result) := AfterClaim(db, organization, primary, secondary, signature, token, selectedAt, insertedAt);
      var key := Key(organization, cluster, signature);
      && next == db.(checks := next.checks) && (forall other :: other != key ==> Rows(next, other) == Rows(db, other))
      && result.Ok?
      && ClaimGives(Rows(db, key), Rows(next, key), result.value, key, primary, secondary, token, selectedAt, insertedAt)
  {
    PairMeans(db, organization, primary, secondary, cluster);
    ClaimCases(db, organization, primary, secondary, signature, token, selectedAt, insertedAt);
  }

  // ------------------------------------------------------------------ completions

  /** A SHA-256 digest in hexadecimal. */
  predicate IsDigest(t: Option<Text>) {
    t.Some? && |t.value| == 64 && forall i :: 0 <= i < 64 ==> 0x30 <= t.value[i] <= 0x39 || 0x61 <= t.value[i] <= 0x66
  }

  predicate IsSlot(slot: Option<nat>) { slot.Some? && slot.value < 0x1_0000_0000_0000_0000 }

  /** All evidence, in form, and no error. */
  predicate GoodEvidence(o: Observation) {
    && IsDigest(o.canonicalDigest) && IsDigest(o.snapshotDigest) && IsDigest(o.parsingDigest)
    && IsDigest(o.transferIdentityDigest) && IsDigest(o.executionDigest) && IsDigest(o.statusExecutionDigest)
    && IsDigest(o.transactionExecutionDigest) && IsSlot(o.statusSlot) && IsSlot(o.slot)
    && (o.executionState == Some(Ascii("succeeded")) || o.executionState == Some(Ascii("failed")))
    && o.finality.Some? && 1 <= |o.finality.value| <= 32
    && o.safeErrorCode.None? && o.safeErrorRetryable.None?
  }

  /** No evidence, and a safe error, which is final if it is a conflict. */
  predicate GoodFailure(o: Observation) {
    && o.canonicalDigest.None? && o.snapshotDigest.None? && o.parsingDigest.None? && o.transferIdentityDigest.None?
    && o.statusSlot.None? && o.slot.None? && o.executionState.None? && o.executionDigest.None?
    && o.statusExecutionDigest.None? && o.transactionExecutionDigest.None? && o.finality.None?
    && o.safeErrorCode.Some? && EngineMeaning.KeptCode(o.safeErrorCode.value) && o.safeErrorRetryable.Some?
    && (o.safeErrorCode == Some(RpcSignatureConflict) ==> o.safeErrorRetryable == Some(false))
  }

  predicate GoodObservation(o: Observation) {
    && 1 <= |o.providerId| <= 64 && 0 <= o.responseTimeMs <= 300_000
    && (GoodEvidence(o) || GoodFailure(o))
  }

  lemma ValidIs(o: Observation)
    ensures ValidObservation(o) <==> GoodObservation(o)
  {
    assert forall d: Option<Text> :: HasDigest(d) <==> IsDigest(d);
  }

  /** The claim is in form, and two good observations are of its two providers. */
  predicate GoodCompletion(claim: Claim, evidence: seq<Observation>) {
    && ValidUuid(claim.key.organization) && ValidUuid(claim.token)
    && 1 <= claim.generation < 0x20_0000_0000_0000 && 32 <= |claim.key.signature| <= 128
    && |evidence| == 2 && GoodObservation(evidence[0]) && GoodObservation(evidence[1])
    && (|| (evidence[0].providerId == claim.primary && evidence[1].providerId == claim.secondary)
        || (evidence[0].providerId == claim.secondary && evidence[1].providerId == claim.primary))
  }

  lemma GoodIs(claim: Claim, evidence: seq<Observation>)
    ensures ValidCompletion(claim, evidence) <==> GoodCompletion(claim, evidence)
  {
    if |evidence| == 2 {
      ValidIs(evidence[0]);
      ValidIs(evidence[1]);
    }
  }

  /** The latest generation waits for this claim, and its lease has not run out. */
  predicate WaitsFor(rows: seq<CheckRow>, claim: Claim, now: int) {
    && rows != [] && |rows| == claim.generation
    && var last := rows[|rows| - 1];
       && last.token == claim.token && last.completedAt.None? && last.state == Pending && now <= last.claimedUntil
       && last.primary == claim.primary && last.secondary == claim.secondary
  }

  /** What the table of observations refuses of a valid one. */
  predicate Storable(o: Observation, now: int) {
    o.observedAt <= now && (o.safeErrorCode == Some(RpcTransactionSchemaInvalid) ==> o.safeErrorRetryable == Some(true))
  }

  lemma StorablePair(db: Db, claim: Claim, x: Observation, y: Observation, now: int)
    requires Inv(db) && 0 < claim.generation == |Rows(db, claim.key)|
    requires Rows(db, claim.key)[claim.generation - 1].completedAt.None?
    requires x.providerId != y.providerId
    ensures AllAllowed(db.observations, ObservationRows(claim, [x, y], now)) <==> Storable(x, now) && Storable(y, now)
  {
    var rows := ObservationRows(claim, [x, y], now);
    NoneStoredYet(db, claim);
    assert rows[..0] == [] && db.observations + [] == db.observations;
    assert rows[..1] == [rows[0]];
    assert RowAllowed(db.observations, rows[0]) <==> Storable(x, now);
    var more := db.observations + [rows[0]];
    assert forall i :: 0 <= i < |db.observations| ==> more[i] == db.observations[i];
    assert RowAllowed(more, rows[1]) <==> Storable(y, now);
  }

  lemma {:induction false} LastIsLatest(rows: seq<CheckRow>)
    requires rows != [] && forall i :: 0 <= i < |rows| ==> rows[i].generation == i + 1
    ensures LatestIndex(rows) == |rows| - 1
  {
    if |rows| > 1 { LastIsLatest(rows[..|rows| - 1]); }
  }

  /** Of a claim that is open, the two statements of evidence are what is judged. */
  lemma OpenEvidence(db: Db, claim: Claim, evidence: seq<Observation>, r: Readings)
    requires Inv(db) && Open(Latest(Rows(db, claim.key)), claim, r.selectedAt) && ValidCompletion(claim, evidence)
    requires claim.primary != claim.secondary
    ensures var added := ObservationRows(claim, evidence, r.inserts);
      && Evidence(db.observations + added, claim) == evidence
      && (AllAllowed(db.observations, added) <==> Storable(evidence[0], r.inserts) && Storable(evidence[1], r.inserts))
  {
    var rows := Rows(db, claim.key);
    assert RowsSound(rows, db.clock);
    LastIsLatest(rows);
    OpenAwaits(db, claim, r.selectedAt);
    EvidenceIsOwn(db, claim, evidence, r.inserts);
    assert evidence == [evidence[0], evidence[1]];
    StorablePair(db, claim, evidence[0], evidence[1], r.inserts);
  }

  /** The last generation waits under this token. */
  predicate Awaited(rows: seq<CheckRow>, claim: Claim, now: int)
    requires rows != []
  {
    var last := rows[|rows| - 1];
    && |rows| == claim.generation && last.token == claim.token && last.completedAt.None? && last.state == Pending
    && now <= last.claimedUntil
  }

  lemma OpenIsAwaited(rows: seq<CheckRow>, claim: Claim, now: int, clock: int)
    requires RowsSound(rows, clock) && rows != []
    ensures Latest(rows) == Some(rows[|rows| - 1]) && rows[|rows| - 1].generation == |rows|
    ensures Open(Latest(rows), claim, now) <==> Awaited(rows, claim, now)
  {
    LastIsLatest(rows);
  }

  /** Why a completion does not apply, in the order the reasons count. */
  lemma RefusalMeans(db: Db, claim: Claim, state: Verdict, evidence: seq<Observation>, r: Readings)
    requires Inv(db) && Monotone(db, r) && claim.primary != claim.secondary
    ensures var result, rows := AfterComplete(db, claim, state, evidence, r).1, Rows(db, claim.key);
      if !GoodCompletion(claim, evidence) then result == Err(InvalidCompletion)
      else if rows == [] then result == Ok(Completion(false, Pending, claim.generation))
      else if !Awaited(rows, claim, r.selectedAt) then result == Ok(Completion(false, rows[|rows| - 1].state, |rows|))
      else if rows[|rows| - 1].primary != claim.primary || rows[|rows| - 1].secondary != claim.secondary then
        result == Err(ProvidersDoNotMatch)
      else if !Storable(evidence[0], r.inserts) || !Storable(evidence[1], r.inserts) then result == Err(ConstraintViolated)
      else if state != SqlVerdict(evidence) then result == Err(VerdictInconsistent)
      else if rows[|rows| - 1].claimedUntil < r.updatedAt then result == Ok(Completion(false, Pending, claim.generation))
      else result == Ok(Completion(true, state, claim.generation))
  {
    var rows := Rows(db, claim.key);
    assert RowsSound(rows, db.clock);
    GoodIs(claim, evidence);
    if rows != [] { OpenIsAwaited(rows, claim, r.selectedAt, db.clock); }
    if ValidCompletion(claim, evidence) && rows != [] && Awaited(rows, claim, r.selectedAt) {
      OpenEvidence(db, claim, evidence, r);
    }
  }

  /**
   A completion applies exactly when its input is valid, its claim still waits, and its verdict is
   that of its evidence.
   */
  lemma AppliedIff(db: Db, claim: Claim, state: Verdict, evidence: seq<Observation>, r: Readings)
    requires Inv(db) && Monotone(db, r) && claim.primary != claim.secondary
    ensures AfterComplete(db, claim, state, evidence, r).1 == Ok(Completion(true, state, claim.generation)) <==>
      && GoodCompletion(claim, evidence) && WaitsFor(Rows(db, claim.key), claim, r.updatedAt)
      && Storable(evidence[0], r.inserts) && Storable(evidence[1], r.inserts) && state == SqlVerdict(evidence)
  {
    RefusalMeans(db, claim, state, evidence, r);
  }

  /** A discovered row of the provider and signature that has no open report yet. */
  predicate Unreported(d: Discovered, quarantines: seq<Quarantine>, providerId: Text, signature: Text) {
    && d.providerId == providerId && d.signature == signature
    && Quarantine(providerId, d.watchTargetId, signature, FinalityProviderDisagreement, true) !in quarantines
  }

  /** The first such row, in the order of watch targets. */
  predicate IsFirst(discovered: seq<Discovered>, quarantines: seq<Quarantine>, providerId: Text, signature: Text,
      k: nat) {
    && k < |discovered| && Unreported(discovered[k], quarantines, providerId, signature)
    && forall j :: 0 <= j < k ==> !Unreported(discovered[j], quarantines, providerId, signature)
  }

  /** What a disagreement reports: the first row without an open report, or nothing. */
  predicate ReportsFirst(discovered: seq<Discovered>, before: seq<Quarantine>, after: seq<Quarantine>, providerId: Text,
      signature: Text) {
    && (forall k :: 0 <= k < |discovered| && IsFirst(discovered, before, providerId, signature, k) ==>
          after == before + [Quarantine(providerId, discovered[k].watchTargetId, signature, FinalityProviderDisagreement, true)])
    && ((forall k :: 0 <= k < |discovered| ==> !Unreported(discovered[k], before, providerId, signature)) ==> after == before)
  }

  lemma {:induction false} FirstIs(discovered: seq<Discovered>, quarantines: seq<Quarantine>, providerId: Text,
      signature: Text)
    ensures ReportsFirst(discovered, quarantines, quarantines + FirstUnreported(discovered, quarantines, providerId, signature), providerId, signature)
  {
    if discovered != [] {
      FirstIs(discovered[1..], quarantines, providerId, signature);
      if !Unreported(discovered[0], quarantines, providerId, signature) {
        forall k | 0 < k < |discovered| && IsFirst(discovered, quarantines, providerId, signature, k)
          ensures IsFirst(discovered[1..], quarantines, providerId, signature, k - 1)
        {
          assert discovered[1..][k - 1] == discovered[k];
          assert forall j :: 0 <= j < k - 1 ==> discovered[1..][j] == discovered[j + 1];
        }
        assert forall k :: 0 <= k < |discovered[1..]| ==> discovered[1..][k] == discovered[k + 1];
      }
    }
  }

  /** Exactly the events of the cluster and signature are quarantined. */
  predicate QuarantinedOnly(before: ChainEvents, after: ChainEvents, cluster: Cluster, signature: Text) {
    && after.Keys == before.Keys
    && forall id :: id in before ==>
         after[id] == (if before[id].cluster == cluster && before[id].signature == signature
                       then before[id].(state := QuarantinedState) else before[id])
  }

  /** The last row of the check is settled; no other check changes. */
  predicate SettlesLast(before: map<Key, seq<CheckRow>>, after: map<Key, seq<CheckRow>>, key: Key, state: Verdict,
      at: int) {
    && key in before && before[key] != []
    && var rows := before[key];
       after == before[key := rows[..|rows| - 1] + [rows[|rows| - 1].(state := state, completedAt := Some(at))]]
  }

  /**
   What a completion does. An applied one settles its check and keeps both observations. If the
   providers disagreed, all events of the signature are quarantined and the first discovered row
   without an open report is reported; otherwise events and quarantines are untouched. One that is
   not applied changes nothing.
   */
  lemma CompletionMeans(db: Db, claim: Claim, state: Verdict, evidence: seq<Observation>, r: Readings)
    requires Inv(db)
    ensures var (next, result) := AfterComplete(db, claim, state, evidence, r);
      var applied := result.Ok? && result.value.applied;
      && (!applied ==> next == db)
      && (applied ==>
            && next.providers == db.providers && next.roles == db.roles && next.discovered == db.discovered && next.clock == db.clock
            && |evidence| == 2
            && next.observations == db.observations + [ObservationRow(claim.key, claim.generation, evidence[0], r.inserts),
                                                       ObservationRow(claim.key, claim.generation, evidence[1], r.inserts)]
            && SettlesLast(db.checks, next.checks, claim.key, state, r.updatedAt))
      && (applied && state == Disagreed ==>
            && QuarantinedOnly(db.events, next.events, claim.key.cluster, claim.key.signature)
            && ReportsFirst(db.discovered, db.quarantines, next.quarantines, claim.primary, claim.key.signature))
      && (applied && state != Disagreed ==> next.events == db.events && next.quarantines == db.quarantines)
  {
    var (next, result) := AfterComplete(db, claim, state, evidence, r);
    if result.Ok? && result.value.applied {
      CompleteCases(db, claim, state, evidence, r);
      assert evidence == [evidence[0], evidence[1]];
      SettledRows(db, claim, state, evidence[0], evidence[1], r);
      SettledEvents(db, claim, state, next.observations, r.updatedAt);
    } else {
      NotAppliedChangesNothing(db, claim, state, evidence, r);
    }
  }

  /** What settling does to checks and observations. */
  lemma SettledRows(db: Db, claim: Claim, state: Verdict, x: Observation, y: Observation, r: Readings)
    requires Inv(db) && Awaits(Rows(db, claim.key), claim)
    ensures var stored := db.observations + ObservationRows(claim, [x, y], r.inserts);
      var next := Close(db, claim, state, stored, r.updatedAt);
      && next.observations == db.observations + [ObservationRow(claim.key, claim.generation, x, r.inserts),
                                                 ObservationRow(claim.key, claim.generation, y, r.inserts)]
      && SettlesLast(db.checks, next.checks, claim.key, state, r.updatedAt)
  {
    var rows := Rows(db, claim.key);
    assert RowsSound(rows, db.clock);
    LastIsLatest(rows);
    var last := |rows| - 1;
    var closed := rows[last].(state := state, completedAt := Some(r.updatedAt));
    assert rows[last := closed] == rows[..last] + [closed];
    var added := ObservationRows(claim, [x, y], r.inserts);
    assert added == [added[0], added[1]];
  }

  lemma SettledEvents(db: Db, claim: Claim, state: Verdict, stored: seq<ObservationRow>, at: int)
    requires Rows(db, claim.key) != []
    ensures var next := Close(db, claim, state, stored, at);
      && next.providers == db.providers && next.roles == db.roles && next.discovered == db.discovered && next.clock == db.clock
      && (state == Disagreed ==>
            && QuarantinedOnly(db.events, next.events, claim.key.cluster, claim.key.signature)
            && ReportsFirst(db.discovered, db.quarantines, next.quarantines, claim.primary, claim.key.signature))
      && (state != Disagreed ==> next.events == db.events && next.quarantines == db.quarantines)
  {
    FirstIs(db.discovered, db.quarantines, claim.primary, claim.key.signature);
  }
}
