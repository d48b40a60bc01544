/** The tables that consensus, representation and finality steps share. */
module EvidenceTables {
  import opened Texts

  /** `mainnet-beta`, `devnet` or `localnet`. */
  type Cluster = Text

  datatype ErrorCode =
    | RpcTransportError
    | RpcRateLimited
    | RpcInvalidJson
    | RpcError
    | RpcTransactionMissing
    | RpcPageNoProgress
    | RpcPageOrderInvalid
    | RpcSignatureConflict
    | RpcUnsupportedVersion
    | RpcTransactionSchemaInvalid
    | RawDigestConflict
    | EventIdentityConflict
    | DatabaseUnavailable
    | DatabaseSerializationFailure
    | CursorCompareFailed
    | FinalityStatusMissing
    | FinalityProviderDisagreement
    | FinalityContentConflict
    | InvalidConfiguration
    | WorkerBusy

  datatype FinalityState = Detected | ConfirmedState | FinalizedState | FailedState | Reverted | QuarantinedState

  predicate Terminal(s: FinalityState) {
    s.FinalizedState? || s.FailedState? || s.Reverted? || s.QuarantinedState?
  }

  /** A row of `chain_events`, without its event id. */
  datatype ChainEvent = ChainEvent(
    cluster: Cluster, signature: Text, outer: nat, inner: int, rawTransactionId: nat, state: FinalityState)

  /** `chain_events` by event id. */
  type ChainEvents = map<Text, ChainEvent>

  /** `UPDATE chain_events SET current_state = 'quarantined' WHERE cluster = .. AND signature = ..`. */
  function QuarantineEvents(events: ChainEvents, cluster: Cluster, signature: Text): ChainEvents {
    map id | id in events ::
      if events[id].cluster == cluster && events[id].signature == signature
      then events[id].(state := QuarantinedState)
      else events[id]
  }

  /** No event disappears, changes identity or leaves quarantine. */
  ghost predicate QuarantineAbsorbs(before: ChainEvents, after: ChainEvents) {
    forall id :: id in before ==>
      && id in after
      && after[id].(state := before[id].state) == before[id]
      && (before[id].state.QuarantinedState? ==> after[id].state.QuarantinedState?)
  }

  /** A row of `ingestion_quarantines`. */
  datatype Quarantine = Quarantine(providerId: Text, watchTargetId: Text, signature: Text, code: ErrorCode, open: bool)

  predicate Reported(quarantines: seq<Quarantine>, providerId: Text, watchTargetId: Text, signature: Text,
      code: ErrorCode) {
    Quarantine(providerId, watchTargetId, signature, code, true) in quarantines
  }
}
