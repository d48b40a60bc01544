# Evidence pipeline: a verified model

This project models the part of the payment system that decides which on-chain payments count:

- **Reading a transaction**: account keys, token instruction data, asset evidence and transfers
  (`Transactions`, `TokenInstruction`, `TransferParser`, `Envelope`), which transfers a parse has and when it
  refuses (`ParserMeaning`), which envelopes are accepted (`EnvelopeMeaning`), the canonical text, the parsing digest
  and the snapshotted body of a transaction (`CanonicalJson`, `ParsingDigest`, `Snapshots`), structural
  limits (`EvidenceLimits`) and the verification of one payment (`PaymentVerifier`).
- **Finalized consensus**: the verdict computed by the engine and by the database
  (`FinalizedConsensus`), what that verdict says of the providers' answers (`EngineMeaning`), the database
  steps of roles, claims and completions (`ConsensusStore`), what each of them does to every table
  (`ConsensusMeaning`) and what every interleaving of them keeps (`ConsensusHistory`).
- **Representation and finality**: `RepresentationStore`, `FinalityStore` and `FinalityEngine` are the
  steps on discovered signatures, raw transactions, chain events and quarantines; `RecordingMeaning` and
  `FinalityMeaning` say what each step leaves in every table, in terms of its input;
  `RepresentationHistory` is about all their interleavings, `RepresentationReplay` about recording the
  same evidence again.
- **Backfill**: `Discovery` pages and orders, `PagingMeaning` says where it ends and with what, `Backfill` is one run, `BackfillMeaning` says what a run makes of
  each signature's answers and what it reports, `Coverage` says what a run finds in a
  growing history, `BackfillHistory` and `BackfillReplay` are about all runs of a target, `LateEntries` and
  `BackfillLimits` about where their properties end.
- **Public wallet analysis**: `WalletAnalysis`, `WalletCoverage`, `WalletTransfers`, `WalletMeaning`, and amounts as text
  (`TokenAmounts`).
- **The worker**: round-robin cursors (`WorkerCursors`), the concurrent maps (`ConcurrentMap`) and the
  scheduling loop (`WorkerLoop`).

Each database transaction under its advisory locks is one atomic step on tables held in memory. Where
the source updates tables, counters or maps in place there is a class or a loop, proved against a
specification function (`AfterClaim`, `AfterComplete`, `AfterRepresentation`, `AfterFinality`,
`AfterSync`, `Discover`, `AnalysisOf`, `StartDue`), and the properties are proved of that function. The
`*Meaning` modules state the exact outcome of each such function for all inputs without its helpers: which
branch is taken when, and what every column becomes.
Answers of the provider are parameters: arbitrary where a property holds against any provider, pages of
one growing history where it is about coverage. SHA-256 is a parameter too. Nothing assumes that it is
injective: a property that needs it either names the two texts it would collide on, or asks that it does
not collide on the texts hashed in that check, or of the transactions handed to the store in that history. Strings are sequences of UTF-16 code units.

Some properties one may expect do not hold of the code, and are stated as they are:

- Only terminal finality states absorb. Recording a discovery again moves a confirmed row back to
  detected (`RepresentationHistory.PendingReopens`); it changes nothing if and only if the row is terminal
  or already detected (`RepresentationHistory.RediscoveryIsSilentIff`).
- The store takes the snapshot and the parse digest separately and each is written once. Backfill always
  passes both from one body (`BackfillHistory.RecordingsArePaired`); otherwise one row can mix two
  transactions (`RepresentationHistory.MixedIsUnsound`). After two recordings of a fresh signature the
  evidence is sound if and only if the first body and the first parse digest passed are of one
  transaction (`RepresentationHistory.SoundIffOfOne`).
- Stored references are a set and are compared with the raw list, so recording a parsed transaction again
  quarantines it exactly when a transfer repeats a reference
  (`RepresentationReplay.ReplayParsesIffDistinct`).
- An entry that appears late, behind the committed head but inside the overlap, is not yet recorded
  (`BackfillLimits.LateEntryIsMissed`). As long as the cursor stays, everything up to the head is recorded
  if and only if each entry there was met by the run that moved the cursor, or taken up by a later run
  (`LateEntries.RecordedUpToHeadIff`). A late entry is never below the floor of the next run
  (`BackfillHistory.LateIsAboveFloor`), which is why nothing is lost.
- A run that fails reports nothing, but the rows it stored stay (`BackfillLimits.AbortedRunHides`), and a
  discovery that is stored although its recording throws is not counted. The reported numbers add up to the
  stored rows if and only if no run stores the discovery of a signature without a row and then fails, or has
  the answer to that recording lost (`BackfillReplay.ReportsAddUpIff`).
- A cursor the decoders do not recognize sends the round-robin elsewhere; the exact condition is in
  `WorkerCursors.GoesOnIffDecodable` and `WorkerCursors.BatchGoesOnIffDecodable`.
- Two workers may hold the same consensus claim at once (`ConsensusHistory.LiveLeaseIsShared`); what is
  exclusive is completion.

`dafny verify dfyconfig.toml` checks the whole project.

## Model

| member | source | states |
|---|---|---|
| `CanonicalJson.EscapeReads` | packages/core/src/canonical-json.ts:12-17 | A JSON string reader gets back exactly the string that was escaped, control characters and lone surrogates included, and stops at the closing quote. |
| `CanonicalJson.PrintDecodes` | packages/core/src/canonical-json.ts:12-17 | A printed value, followed by anything that can follow a value, determines both the value and what follows, at any nesting: printing is injective. |
| `CanonicalJson.CanonicalTextDecides` | packages/core/src/canonical-json.ts:1-17 | Canonical texts of two JSON-compatible values are equal if and only if the values are equal up to the order of object keys at every depth. |
| `TokenInstruction.ReadU64LittleEndian` | packages/core/src/solana/token-instruction.ts:18-26 | The shift-and-or loop gives the weighted sum of the eight bytes, below 2^64, or nothing when a byte is missing. |
| `TokenInstruction.TransferDecodesExactly` | packages/core/src/solana/token-instruction.ts:28-59 | Data decodes to a transfer of an amount if and only if it is the transfer discriminator and the little-endian encoding of that amount, which is below 2^64. |
| `TokenInstruction.TransferCheckedDecodesExactly` | packages/core/src/solana/token-instruction.ts:28-59 | The same for checked transfers, with the decimals byte at the end. |
| `ParsingDigest.SameFingerprint` | packages/ingestion/src/archive/canonical-snapshot.ts:40-99 | Fingerprints that are equal up to key order fix all evidence the parser reads; pre and post balances only as one multiset. |
| `ParsingDigest.AssetEvidenceUnordered` | packages/core/src/solana/parse-transaction.ts:32-75 | Mint and decimals, and every refusal to name them, depend on the merged balances only as a multiset. |
| `ParsingDigest.AlikeParseAlike` | packages/core/src/solana/parse-transaction.ts:100-265 | Transactions alike in that evidence give the same transfers or the same refusal, for every watched address. |
| `ParsingDigest.EqualFingerprintsParseAlike` | packages/ingestion/src/archive/canonical-snapshot.ts:40-99 | Equal canonical fingerprint texts: same parsing outcome for every watched address, same cluster, signature and slot. |
| `ParsingDigest.EqualDigestsParseAlike` | packages/ingestion/src/archive/canonical-snapshot.ts:40-99 | Equal parsing digests: same parsing outcome, or SHA-256 collides on the two fingerprint texts. |
| `Snapshots.CarriedOnce` | packages/core/src/fixtures/schema.ts:30-125 | A value, in whatever order its keys are and whatever further fields it has, carries at most one pattern of a given shape. |
| `Snapshots.BodyDecides` | packages/core/src/fixtures/schema.ts:30-125 | One JSON body reads as one transaction: every field is determined, the execution error up to the order of its keys. |
| `Snapshots.BodyReads` | packages/core/src/fixtures/schema.ts:30-125 | Every transaction has a body that reads as it. |
| `Snapshots.EqualSnapshots` | packages/ingestion/src/archive/canonical-snapshot.ts:30-38 | Equal snapshot digests: one and the same transaction, or SHA-256 collides on the two canonical bodies. |
| `Envelope.ValidateEnvelope` | packages/core/src/fixtures/schema.ts:133-267 | The validator raises no issue if and only if header counts, indexes, lookups and inner-instruction parents are all consistent. |
| `EnvelopeMeaning.AcceptedIff` | packages/core/src/fixtures/schema.ts:133-267 | Accepted exactly when signatures and header fit the keys, as many addresses are loaded as are looked up, and none by a legacy transaction, no instruction or balance points past the last key, and inner groups have distinct, existing parents. |
| `Envelope.KeysFormBlocks` | packages/core/src/solana/compiled-message.ts:8-53 | In an accepted envelope the resolved keys are six contiguous signer/writable blocks of exactly the header's and the loaded counts. |
| `Envelope.LocationsInRange` | packages/core/src/solana/parse-transaction.ts:77-98 | Every program and account index the parser follows in an accepted envelope is that of a resolved key. |
| `Envelope.ExtrasPartition` | packages/core/src/solana/parse-transaction.ts:229-246 | References and unsupported extras together are exactly the extra accounts, with multiplicity; none is unresolved. |
| `Envelope.TransferExtrasSplit` | packages/core/src/solana/parse-transaction.ts:77-265 | For every transfer parsed from an accepted envelope, references and unsupported extras together are exactly the addresses of its own instruction's extra accounts. |
| `Envelope.EventIdInjective` | packages/core/src/solana/parse-transaction.ts:229-265 | Within one transaction the event id determines outer and inner instruction index. |
| `Envelope.EventIdsDistinct` | packages/core/src/solana/parse-transaction.ts:77-265 | All transfers parsed from an accepted envelope have pairwise distinct event ids. |
| `Envelope.CheckedTransferParses` | packages/core/src/solana/parse-transaction.ts:100-265 | The instruction a client encodes for a checked transfer, with its accounts in order, parses to exactly that transfer. |
| `Envelope.LegacyTransferParses` | packages/core/src/solana/parse-transaction.ts:100-265 | A plain transfer parses to the transfer asked for, with the mint and decimals its balances agree on. |
| `Envelope.WatchingOnlyRefuses` | packages/core/src/solana/parse-transaction.ts:100-265 | Which address is watched never changes the transfers found, only whether unsupported evidence refuses the transaction. |
| `ParserMeaning.InstructionMeans` | packages/core/src/solana/parse-transaction.ts:110-265 | An instruction refuses the parse exactly when it is a token instruction not understood, or of Token-2022, that touches the watched address, or a transfer whose accounts or balances do not bear it out; it yields a transfer exactly when data, accounts and balances ask for it, and then field by field that one. |
| `ParserMeaning.ParseMeans` | packages/core/src/solana/parse-transaction.ts:100-265 | A transaction is refused if and only if one of its instructions is; otherwise the parse has exactly the transfers among the instructions, each once, in their order. |
| `ParserMeaning.PlacesMean` | packages/core/src/solana/parse-transaction.ts:77-98 | The parser looks at every outer instruction at its own index, then at exactly the inner instructions, each under its parent and its index in the group. |
| `ParserMeaning.KeysMean` | packages/core/src/solana/compiled-message.ts:8-53 | The resolved keys are the static, the loaded writable and the loaded read-only addresses, in this order. |
| `ParserMeaning.ReferencesMean` | packages/core/src/solana/parse-transaction.ts:229-246 | References are exactly the extra accounts that neither sign nor may be written, in order. |
| `ParserMeaning.ExtrasMean` | packages/core/src/solana/parse-transaction.ts:229-246 | Unsupported extras are exactly the other ones, in order. |
| `ParserMeaning.UnknownRefuses` | packages/core/src/solana/parse-transaction.ts:113-144 | One token instruction that is not understood and touches the watched address refuses the whole transaction. |
| `FinalizedConsensus.SqlOfPair` | packages/ingestion/src/storage/consensus-store.ts:299-356 | For two complete rows the database's aggregate CASE says agreed if and only if each is finalized and self-consistent and all compared columns are equal. |
| `FinalizedConsensus.VerdictsAgree` | packages/ingestion/src/consensus/finalized-consensus.ts:105-209 | For any two answers the adapter can produce, the verdict the database derives from the stored observations is the one the engine decides. |
| `FinalizedConsensus.EngineEvidenceIsValid` | packages/ingestion/src/storage/consensus-store.ts:496-555 | Every observation the engine makes through the adapter passes the completion's validation. |
| `FinalizedConsensus.AgreedParseAlike` | packages/ingestion/src/storage/consensus-store.ts:299-356 | If the database derives agreed, both providers had a transaction, and the two parse alike for every watched address, or SHA-256 collides on their fingerprints. |
| `EngineMeaning.ObservationMeans` | packages/ingestion/src/consensus/finalized-consensus.ts:105-260 | An observation carries, column by column, the digests, slots, execution and finality of what the provider answered, or else no evidence and the error that was seen, in a safe form. |
| `EngineMeaning.EngineVerdictMeans` | packages/ingestion/src/consensus/finalized-consensus.ts:272-291 | The engine says agreed if and only if both answers are whole, finalized, consistent in themselves and of the same transaction; pending if and only if no provider saw a conflict and an answer is not whole. |
| `ConsensusHistory.SetRoleKeeps` | packages/ingestion/src/storage/consensus-store.ts:52-113 | Setting a role, whatever is asked for, keeps one provider per role and no provider in two roles of a cluster, and every claim's pair the pair of its roles. |
| `ConsensusMeaning.SetRoleMeans` | packages/ingestion/src/storage/consensus-store.ts:52-113 | A role is given exactly when the provider is active in the cluster and neither the role nor the provider is taken; a repeated call finds the role it gave, every other one changes nothing. |
| `ConsensusMeaning.PairMeans` | packages/ingestion/src/storage/consensus-store.ts:120-146 | A pair is configured in a cluster exactly when both providers are active there and hold the two roles for the organization. |
| `ConsensusMeaning.ClaimRefusedIff` | packages/ingestion/src/storage/consensus-store.ts:115-146 | A claim is refused, and changes nothing, if and only if its input is inadmissible or the pair is configured in no cluster. |
| `ConsensusHistory.ClaimCases` | packages/ingestion/src/storage/consensus-store.ts:115-219 | In a sound state an admitted claim gets the settled verdict of the last generation, or the live claim, and changes nothing; otherwise exactly one pending generation is appended. |
| `ConsensusMeaning.ClaimMeans` | packages/ingestion/src/storage/consensus-store.ts:147-219 | An admitted claim touches only the check of its own organization, cluster and signature: it returns what is settled or live there, or appends one pending generation with a lease of 60 seconds. |
| `ConsensusStore.ConsensusTables.InsertObservations` | packages/ingestion/src/storage/consensus-store.ts:251-298 | The insertion loop stores both observations or, when a table constraint refuses one, none. |
| `ConsensusStore.ConsensusTables.CompleteFinalizedConsensus` | packages/ingestion/src/storage/consensus-store.ts:221-413 | The loops and statements of a completion come to its specification, whose exact outcome is in `ConsensusMeaning.CompletionMeans`; observations, quarantines and the verdict take effect together or not at all. |
| `ConsensusMeaning.VerdictMeans` | packages/ingestion/src/storage/consensus-store.ts:299-356 | The database says disagreed if and only if a provider reported a conflict or two complete observations differ or are not finalized; agreed if and only if both are complete, finalized and the same. |
| `ConsensusMeaning.AppliedIff` | packages/ingestion/src/storage/consensus-store.ts:221-413 | A completion applies if and only if its input is valid, its claim is the last, pending and live at the end, both observations can be stored, and the verdict is that of its evidence. |
| `ConsensusMeaning.RefusalMeans` | packages/ingestion/src/storage/consensus-store.ts:221-413 | For every completion the exact answer, in the order the reasons count: invalid input, nothing or another generation waiting, other providers, an observation that cannot be stored, a verdict that is not that of the evidence, a lease run out; else applied. |
| `ConsensusMeaning.CompletionMeans` | packages/ingestion/src/storage/consensus-store.ts:357-413 | An applied completion settles its check and keeps both observations. Disagreed quarantines exactly the events of its cluster and signature and reports the first discovered row without an open report, if there is one; any other verdict touches neither. A completion that is not applied changes nothing. |
| `ConsensusHistory.ReachableSound` | packages/ingestion/src/storage/consensus-store.ts:52-413 | Every interleaving keeps roles disjoint, generations contiguous, leases and completion times consistent, and observations only of completed generations. |
| `ConsensusHistory.GenerationsAreContiguous` | packages/ingestion/src/storage/consensus-store.ts:160-219 | In every reachable state the generations of a key are 1 to n; at most the last is settled; each earlier one was completed pending or had expired before the next began; nothing completes after its lease. |
| `ConsensusHistory.SettledForever` | packages/ingestion/src/storage/consensus-store.ts:160-180 | Once settled, a key keeps its verdict and generation in every later state. |
| `ConsensusHistory.SettledIsReturned` | packages/ingestion/src/storage/consensus-store.ts:160-180 | Every later claim of a settled key is answered with that verdict and generation. |
| `ConsensusHistory.CompletesOnce` | packages/ingestion/src/storage/consensus-store.ts:387-413 | Over a whole history at most one completion applies per key and generation. |
| `ConsensusHistory.AppliedIsTimely` | packages/ingestion/src/storage/consensus-store.ts:251-264 | A completion that applies holds the newest generation with its token, ends within the lease, carries the verdict of its own evidence, and changes only that row of the key. |
| `ConsensusHistory.LiveLeaseIsShared` | packages/ingestion/src/storage/consensus-store.ts:181-188 | While a lease is live, another claim gets the very same claim and nothing changes. |
| `ConsensusHistory.StepAbsorbsQuarantine` | packages/ingestion/src/storage/consensus-store.ts:357-386 | No consensus step removes a chain event, changes anything but its state, or takes it out of quarantine. |
| `ConsensusHistory.EngineCompletionAccepted` | packages/ingestion/src/consensus/finalized-consensus.ts:53-84 | What the engine observes and decides is never rejected as inconsistent: the completion applies if the lease is still live at the end, else reports itself not applied; the one refusal left is an observation dated after its insertion. |
| `RepresentationStore.RepresentationTables.FindConflict` | packages/ingestion/src/storage/representation-store.ts:124-199 | The loop finds a conflict if and only if some transfer meets a stored event of its identity with other content or other references. |
| `RepresentationStore.RepresentationTables.InsertEvents` | packages/ingestion/src/storage/representation-store.ts:254-308 | The insertion loop comes to its specification and counts the new events, or leaves everything on an error; what is stored of each transfer is in `RecordingMeaning.TransfersStored`. |
| `RepresentationStore.RepresentationTables.PersistRepresentation` | packages/ingestion/src/storage/representation-store.ts:49-348 | The whole new state and result of recording a representation is that of its specification, slot and content conflicts included; what it means for each table is in `RecordingMeaning`. |
| `RecordingMeaning.DecisionMeans` | packages/ingestion/src/storage/representation-store.ts:71-199 | A recording is quarantined for a changed body, else for a changed slot, else, when passed as parsed, for a stored event that contradicts a transfer; otherwise it is taken as what it is passed. |
| `RecordingMeaning.RawsMean` | packages/ingestion/src/storage/representation-store.ts:83-122 | The raw transaction passed is stored once, under its provider, signature, commitment and digest, and no other is touched. |
| `RecordingMeaning.NewRowMeans` | packages/ingestion/src/storage/representation-store.ts:201-227 | A new row has the slot, class, finality state and evidence of its recording. |
| `RecordingMeaning.KnownRowMeans` | packages/ingestion/src/storage/representation-store.ts:228-244 | A known row takes class and state of the recording unless it is terminal, never goes back to pending, and takes evidence only where it has none. |
| `RecordingMeaning.TransfersStored` | packages/ingestion/src/storage/representation-store.ts:254-308 | Of every new transfer of a parsed recording, source, destination, mint, authority, amount, decimals and extras are stored field by field, its event at its place, confirmed and pointing at the raw transaction passed, and exactly its own references. |
| `RecordingMeaning.NewVersionStored` | packages/ingestion/src/storage/representation-store.ts:284-299 | A transfer known under another parser version is stored once more under the new one, field by field. |
| `RecordingMeaning.EventsKept` | packages/ingestion/src/storage/representation-store.ts:246-268 | No known event changes, except that a quarantined recording quarantines exactly those of its cluster and signature. |
| `RecordingMeaning.QuarantinesMean` | packages/ingestion/src/storage/representation-store.ts:310-334 | A quarantined recording is reported once, under its target, signature and code; no other is reported. |
| `RecordingMeaning.AnswerMeans` | packages/ingestion/src/storage/representation-store.ts:254-346 | The answer says exactly whether a row was added, and how many events. |
| `RepresentationHistory.ReachableSound` | packages/ingestion/src/storage/representation-store.ts:201-268 | In every reachable state class and finality state fit each other; raw id and parse digest are present together and are digests of one transaction that was handed to the store; a finalized row has a stored finalized transaction, also handed to the store, with the row's own parse digest. |
| `RepresentationHistory.EvolvesForever` | packages/ingestion/src/storage/representation-store.ts:228-252 | Between any two states of a history: no row disappears or changes slot, terminal rows keep state and class, no class returns to pending, evidence is written once, quarantined events stay quarantined. |
| `RepresentationHistory.FinalizedParsesAlike` | packages/ingestion/src/finality/finality-engine.ts:191-223 | For every finalized row there is a stored finalized transaction of its signature such that any transactions handed to the store that have its digest and the digest of the row's raw transaction parse alike for every watched address, if SHA-256 does not collide on the texts of the transactions handed to the store. |
| `RepresentationHistory.PendingReopens` | packages/ingestion/src/storage/representation-store.ts:239-243 | Recording a discovery again moves any non-terminal row to detected and changes nothing else. |
| `RepresentationHistory.RediscoveryIsSilentIff` | packages/ingestion/src/storage/representation-store.ts:228-244 | Recording a discovery again, at its slot, changes nothing if and only if the row is terminal or already detected. |
| `RepresentationHistory.UnpairedMixes` | packages/ingestion/src/storage/representation-store.ts:228-244 | A transaction without snapshot, then a snapshot of another one, leave one row with the parse digest of the first and the raw body of the second. |
| `RepresentationHistory.MixedIsUnsound` | packages/ingestion/src/storage/representation-store.ts:228-244 | When the two have different bodies and different fingerprints, that row is not of one transaction: it breaks the invariant that paired recordings keep. |
| `RepresentationHistory.SoundIffOfOne` | packages/ingestion/src/storage/representation-store.ts:201-244 | Whatever two recordings of a fresh signature pass, the evidence they leave is sound if and only if the first body and the first parse digest are of one transaction handed to the store. |
| `RepresentationHistory.RecordedRow` | packages/ingestion/src/storage/postgres-store.ts:673-819 | A finality observation under a live claim leaves a sound row: evidence kept, nothing terminal or written changed, finalized only with a stored transaction behind the digest gate. |
| `FinalityEngine.Refresh` | packages/ingestion/src/finality/finality-engine.ts:148-277 | All candidates are judged and recorded in turn; each outcome and each stored retry is counted exactly once, and the counters add up to the candidates. What each outcome is, is in `FinalityMeaning.OutcomeMeans`. |
| `FinalityEngine.RevertedMeans` | packages/ingestion/src/finality/finality-engine.ts:155-171 | A row becomes reverted if and only if its claim still holds, the status is missing for the third time across 64 slots, and no finalized transaction exists at the provider or in store. |
| `FinalityEngine.FinalizedMeans` | packages/ingestion/src/finality/finality-engine.ts:191-223 | A row becomes finalized if and only if its claim still holds, the status is finalized without error, and the finalized transaction has the confirmed parsing digest and contradicts nothing stored. |
| `FinalityMeaning.OutcomeMeans` | packages/ingestion/src/finality/finality-engine.ts:148-277 | For each of the six states the exact condition under which a candidate gets it: failed, quarantined, finalized, reverted, confirmed or left as it was; recorded if and only if the claim still holds. |
| `FinalityMeaning.TablesMean` | packages/ingestion/src/storage/postgres-store.ts:673-819 | A recorded outcome sets the row, its count of absences and its first absent slot, frees the claim, moves exactly the events of the signature that are not settled otherwise, keeps the finalized transaction given, and reports a quarantine once with its code. |
| `FinalityMeaning.BatchMeans` | packages/ingestion/src/finality/finality-engine.ts:148-277 | In a batch of distinct candidates each one held at the start gets the outcome of its own evidence, and its row carries it at the end. |
| `FinalityMeaning.ClaimMeans` | packages/ingestion/src/storage/postgres-store.ts:592-671 | A claim takes only open, classified rows of the provider without a live claim, for 60 seconds, and its candidates are held and show their rows. |
| `FinalityMeaning.SupersededIsIgnored` | packages/ingestion/src/storage/postgres-store.ts:716-725 | An observation under an earlier token of a row claimed again changes nothing. |
| `RepresentationReplay.DistinctMatches` | packages/ingestion/src/storage/representation-store.ts:42-47 | Stored references, a set, match the list they came from if and only if it repeats none. |
| `RepresentationReplay.ReplayParsesIffDistinct` | packages/ingestion/src/storage/representation-store.ts:124-199 | After a parsed recording the same recording is parsed again if and only if no transfer repeats a reference; otherwise it is quarantined. |
| `RepresentationReplay.NeverRefused` | packages/ingestion/src/storage/representation-store.ts:254-308 | The unique index on the place of an event never refuses a recording whose transfers are those of one transaction. |
| `RepresentationReplay.RecordingSettles` | packages/ingestion/src/storage/representation-store.ts:49-348 | After evidence is recorded, recording it again would add no row, raw transaction, event or quarantine. |
| `RepresentationReplay.StaysSettled` | packages/ingestion/src/storage/representation-store.ts:49-348 | Recording another signature, or one without evidence, does not undo that. |
| `RepresentationReplay.RunSettles` | packages/ingestion/src/storage/representation-store.ts:49-348 | After a whole run over distinct signatures all of its evidence is settled. |
| `RepresentationReplay.ReplayAddsNothing` | packages/ingestion/src/storage/representation-store.ts:49-348 | Recording any selection of a run again, in any order and any number of times, adds nothing and reports nothing new. |
| `Discovery.AddPage` | packages/ingestion/src/backfill/backfill-engine.ts:248-270 | The loop over a page keeps the first finding of each signature at or above the floor and reports a signature met with two slots. |
| `Discovery.DiscoverSignatures` | packages/ingestion/src/backfill/backfill-engine.ts:198-276 | The paging loop ends with exactly the findings, page count and ending of the specification, whatever the provider answers. |
| `PagingMeaning.PagingMeans` | packages/ingestion/src/backfill/backfill-engine.ts:198-276 | Whatever the provider answers, paging ends at the first answer that ends it, with the ending that answer calls for: an error, a page that repeats its boundary, is out of order, is not recorded, or gives a signature a second slot, an empty page, or one that reaches below the floor; when done it has found exactly the head and the signatures at or above the floor on its pages. |
| `PagingMeaning.FloorMeans` | packages/ingestion/src/backfill/backfill-engine.ts:37-46 | The floor is the overlap below the committed head, but never below the cutover, and the cutover without a head. |
| `Discovery.ProcessedBySlot` | packages/ingestion/src/backfill/backfill-engine.ts:306-310 | What is processed is a permutation of what was found, oldest slot first and in discovery order within a slot. |
| `Coverage.DiscoveryCovers` | packages/ingestion/src/backfill/backfill-engine.ts:198-276 | With honest pages of a growing history, a run that ends well has found the captured head and all older entries at or above the floor, and nothing that is not in the history. |
| `Coverage.DiscoveryEnds` | packages/ingestion/src/backfill/backfill-engine.ts:198-276 | If at most n entries are ever behind the head, paging has ended after n + 1 answers. |
| `Coverage.DiscoveryIsExact` | packages/ingestion/src/backfill/backfill-engine.ts:198-276 | If the history grows only at its front, the run finds exactly the captured head and the older entries at or above the floor. |
| `BackfillHistory.EntryIsClassified` | packages/ingestion/src/backfill/backfill-engine.ts:315-480 | Processing one signature never regresses a row, and leaves it classified unless the run is blocked from then on. |
| `BackfillHistory.RecordingsArePaired` | packages/ingestion/src/backfill/backfill-engine.ts:315-480 | Whatever backfill records, snapshot and transaction are passed together and from one body. |
| `Backfill.BackfillEngine.Classify` | packages/ingestion/src/backfill/backfill-engine.ts:315-480 | The classification loop treats the signatures in order, each once, as far as the replies reach. |
| `Backfill.BackfillEngine.SyncWatchTarget` | packages/ingestion/src/backfill/backfill-engine.ts:105-514 | The loops of a run compose to its specification: tables, committed head and report, runs that are cut short, lose the compare-and-set or fail in their completion included; those that fail report nothing. |
| `BackfillMeaning.EntryMeans` | packages/ingestion/src/backfill/backfill-engine.ts:418-459 | A signature not heard of before, whose recordings commit, ends failed if and only if the transaction or the history entry has an error, else quarantined if and only if the parse refuses, else parsed if and only if there are transfers, else irrelevant; with every parsed transfer in the book. |
| `BackfillMeaning.OtherAnswersMean` | packages/ingestion/src/backfill/backfill-engine.ts:350-416 | Without a transaction the signature stays pending, or is quarantined with its code when the error is final. |
| `BackfillMeaning.FlagsMean` | packages/ingestion/src/backfill/backfill-engine.ts:315-480 | A signature blocks the run if and only if a recording is not acknowledged or its transaction may still come; it marks the run incomplete if and only if it cannot be represented. |
| `BackfillMeaning.CountersMean` | packages/ingestion/src/backfill/backfill-engine.ts:412-478 | The counters grow by exactly the rows, events and reports that acknowledged recordings added. |
| `BackfillMeaning.MovedRunRepresents` | packages/ingestion/src/backfill/backfill-engine.ts:315-500 | After a run that moved the cursor every signature of its agenda not heard of before has that class, and every transfer of every such transaction is in the book. |
| `BackfillMeaning.ReportMeans` | packages/ingestion/src/backfill/backfill-engine.ts:482-509 | A run that got to the end reports what it found and counted; the cursor moved if and only if nothing was blocked and the completion went through, and the result is complete if and only if it moved with nothing quarantined. |
| `BackfillMeaning.OtherRunsMean` | packages/ingestion/src/backfill/backfill-engine.ts:142-182 | A run without a head, with a failed head request, blocked paging, or replies that end early leaves tables or target as they were and reports exactly that, or nothing. |
| `BackfillHistory.RunClassifies` | packages/ingestion/src/backfill/backfill-engine.ts:315-480 | A run that is not blocked leaves every signature it went through stored with a class that is not pending. |
| `BackfillHistory.SyncOutcome` | packages/ingestion/src/backfill/backfill-engine.ts:482-500 | The cursor advances only when everything discovered is classified; rows never regress, however a run ends. |
| `BackfillHistory.AdvanceCovers` | packages/ingestion/src/backfill/backfill-engine.ts:482-500 | With what was covered below the floor before, an advance means that the whole captured history from the cutover on is classified. |
| `BackfillHistory.LateIsAboveFloor` | packages/ingestion/src/backfill/backfill-engine.ts:37-46 | An entry that shows up late within the overlap is never below the floor of the next run, unless below the cutover. |
| `BackfillHistory.NothingIsLost` | packages/ingestion/src/backfill/backfill-engine.ts:198-500 | Over any sequence of runs, failed and blocked ones included: every entry from the cutover on that was in the history when the committed head was captured is classified, and so is every entry below the floor of the next run, late ones included. |
| `LateEntries.SitesShown` | packages/ingestion/src/backfill/backfill-engine.ts:315-349 | In every reachable state the rows of a target are of signatures its history has shown, at their slots. |
| `LateEntries.RunTakes` | packages/ingestion/src/backfill/backfill-engine.ts:315-480 | Going through a run's signatures classifies exactly those whose answers carry both recordings through, and leaves every other class as it was. |
| `LateEntries.CapturedIsRecorded` | packages/ingestion/src/backfill/backfill-engine.ts:482-500 | In every reachable state every entry from the cutover up to the committed head is classified, when all of those were in the history when the head was captured. |
| `LateEntries.RecordedUpToHeadIff` | packages/ingestion/src/backfill/backfill-engine.ts:198-500 | In every state since the cursor last moved, failed and blocked runs in between included, every entry from the cutover up to the head is classified if and only if the moving run met each of them, in the captured history or on a page, or a later run took it up: on its agenda, as far as it got, discovery acknowledged, a final class, committed. |
| `BackfillLimits.LateEntryIsMissed` | packages/ingestion/src/backfill/backfill-engine.ts:37-46 | After a run that moved the cursor an entry appears behind the head within the overlap: it is not classified, so not everything up to the head is recorded. |
| `BackfillReplay.SyncCountsRows` | packages/ingestion/src/backfill/backfill-engine.ts:319-349 | The rows a run adds for its target are those it reports as stored, and the hidden ones, whose exact number is told from the tables before the run and the answers it gets. |
| `BackfillReplay.ReportsAddUp` | packages/ingestion/src/backfill/backfill-engine.ts:319-349 | Over any sequence of runs the rows stored for the target are the sum of the reported numbers and of the hidden rows. |
| `BackfillReplay.RunHidesNothing` | packages/ingestion/src/backfill/backfill-engine.ts:331-346 | A run hides no row if and only if each signature it deals with has a row already, or its discovery is not stored, or is acknowledged in a run that does not fail. |
| `BackfillReplay.ReportsAddUpIff` | packages/ingestion/src/storage/postgres-store.ts:561-590 | The reported numbers add up to the stored rows if and only if every run met that condition on the tables it started from and the answers it got. |
| `BackfillLimits.AbortedRunHides` | packages/ingestion/src/backfill/backfill-engine.ts:331-346 | A run that stores a discovery and then fails leaves one row that no report counts. |
| `BackfillReplay.ResyncAddsNothing` | packages/ingestion/src/backfill/backfill-engine.ts:442-478 | After a run that moved the cursor, a second run over the unchanged history adds no signature, raw transaction, event or quarantine and reports none, when the transactions came through the adapter and no transfer repeats a reference. |
| `WalletAnalysis.PageThrough` | packages/ingestion/src/public-analysis/wallet-analysis.ts:171-257 | Paging one account ends against any provider at all, since every further page spends budget, and never inspects beyond the budget. |
| `WalletAnalysis.DiscoverCandidates` | packages/ingestion/src/public-analysis/wallet-analysis.ts:171-257 | Discovery over all accounts ends against any provider and inspects at most `maxSignatures`. |
| `WalletAnalysis.ExamineCandidates` | packages/ingestion/src/public-analysis/wallet-analysis.ts:366-469 | Every candidate is examined; the transfers of all of them are put together in candidate order, partial if any was. |
| `WalletAnalysis.AnalyzePublicWallet` | packages/ingestion/src/public-analysis/wallet-analysis.ts:353-478 | The analysis as a whole is the specification function its coverage is proved of. |
| `WalletCoverage.SearchCovers` | packages/ingestion/src/public-analysis/wallet-analysis.ts:171-257 | An account searched without leaving anything unknown has every entry of the range among the candidates, watched by that account, and nothing else was added. |
| `WalletCoverage.SearchAllCovers` | packages/ingestion/src/public-analysis/wallet-analysis.ts:171-257 | The same for all accounts together. |
| `WalletTransfers.CompleteDiscovery` | packages/ingestion/src/public-analysis/wallet-analysis.ts:171-257 | Complete discovery has exactly one candidate per due signature, with exactly the accounts whose history holds it. |
| `WalletTransfers.ExamineReports` | packages/ingestion/src/public-analysis/wallet-analysis.ts:366-469 | A candidate examined completely reports exactly the stablecoin transfers of its transaction in which an account that led to it takes part, each once. |
| `WalletTransfers.CompleteMeansExact` | packages/ingestion/src/public-analysis/wallet-analysis.ts:353-478 | When coverage is reported complete, the transfers are exactly the USDC and USDT transfers in which a watched account takes part in the finalized successful in-range transactions of the watched histories, each once, and every such transaction was found. |
| `WalletMeaning.AnalysisReports` | packages/ingestion/src/public-analysis/wallet-analysis.ts:380-469 | Whatever is reported, completely or not, is of a candidate transaction within the range, parsed for a watched account it runs out of or into, with the asset of its mint, its time and its first sixteen references. |
| `WalletMeaning.AsksOnePage` | packages/ingestion/src/public-analysis/wallet-analysis.ts:184-205 | A page is asked for a hundred entries, or as many as the budget leaves; no other reply counts. |
| `WalletMeaning.CompleteReports` | packages/ingestion/src/public-analysis/wallet-analysis.ts:353-478 | A complete analysis reports exactly the transfers of the watched mints out of or into the watched accounts in finalized, successful transactions of the range, each once, with its asset and all of its references. |
| `WalletMeaning.SmallIsComplete` | packages/ingestion/src/public-analysis/wallet-analysis.ts:171-257 | When the histories fit the budget, are answered, and their times are known, and the transactions are there and parse, coverage is complete if and only if neither the candidates nor the transfers found are more than may be reported. |
| `TokenAmounts.FormatReads` | packages/ingestion/src/public-analysis/request.ts:178-181 | Reading a formatted amount gives the base units back, for every amount. |
| `TokenAmounts.FormatMatchesPattern` | packages/ingestion/src/public-analysis/request.ts:13 | A formatted amount matches the request pattern if and only if its base units have at most 24 digits. |
| `TokenAmounts.RequestFormats` | packages/ingestion/src/public-analysis/wallet-analysis.ts:280-286 | Formatting what a request says gives the request back without the trailing zeros of its decimals. |
| `EvidenceLimits.StructuralEvidenceWithinLimits` | packages/ingestion/src/rpc/http-solana-rpc.ts:484-519 | The explicit-stack check ends and accepts if and only if total nodes with keys, depth, string bytes, array lengths and property counts are all within limits. |
| `EvidenceLimits.Utf8LengthIs` | packages/ingestion/src/rpc/http-solana-rpc.ts:484-519 | The length of a string is that of its UTF-8 encoding, lone surrogates replaced. |
| `EvidenceLimits.NestedWithin` | packages/ingestion/src/rpc/http-solana-rpc.ts:484-519 | Arrays nested k deep are accepted if and only if k is at most 32. |
| `EvidenceLimits.GridWithin` | packages/ingestion/src/rpc/http-solana-rpc.ts:484-519 | An array of arrays is accepted if and only if no array has more than 4096 items and there are at most 50000 nodes in all. |
| `EvidenceLimits.LimitsIgnoreKeyOrder` | packages/ingestion/src/rpc/http-solana-rpc.ts:484-519 | Values equal up to key order are both within limits or both not. |
| `PaymentVerifier.DeltaIsReplay` | packages/core/src/verify/verify-payment.ts:30-49 | The aggregate delta of an account is the change of its balance when all transfers of the mint are replayed on a ledger, self-transfers included. |
| `PaymentVerifier.DeltaPermutes` | packages/core/src/verify/verify-payment.ts:30-49 | The delta is the same for every order of the transfers. |
| `PaymentVerifier.DeltasCancel` | packages/core/src/verify/verify-payment.ts:30-49 | Over all account indexes the deltas sum to zero. |
| `PaymentVerifier.VerifiedMatchesLedger` | packages/core/src/verify/verify-payment.ts:57-186 | A verified payment's replayed ledger ends with the destination balance the transaction states. |
| `PaymentVerifier.VerifiedMeansPaid` | packages/core/src/verify/verify-payment.ts:51-186 | A verified payment that alone touches its destination raised the stated balance there by exactly the expected amount of the expected mint, in a successful transaction. |
| `PaymentVerifier.VerifiedIff` | packages/core/src/verify/verify-payment.ts:51-186 | A payment is verified if and only if all fifteen conditions hold, stated without the list of checks: commitment at least as required, cluster, success, program, mint, decimals, amount, destination, its owner, program and mint, a supported asset, the reference present and no unsupported extra, no self-transfer, and a ledger that replays to the stated balance. |
| `WorkerCursors.IngestServes` | apps/worker/src/jobs.ts:208-275 | From every cursor of the cycle the nested round-robin goes on where it stopped: rest of the organization's targets in batches, then the next organization. |
| `WorkerCursors.IngestionCycles` | apps/worker/src/jobs.ts:208-275 | Any number of cycles visits every target once per cycle, in order, in exactly the sum of the organizations' runs. |
| `WorkerCursors.RunsForIs` | apps/worker/src/jobs.ts:671-682 | An organization takes floor(targets / batch) + 1 runs. |
| `WorkerCursors.EveryTargetOnce` | apps/worker/src/jobs.ts:583-599 | One cycle's visits are pairwise distinct and are exactly the targets of all organizations. |
| `WorkerCursors.GoesOnIffDecodable` | apps/worker/src/jobs.ts:782-800 | After an unfinished organization the next run goes on there if and only if both ids of the cursor are recognized; otherwise it serves the next organization, or the first. |
| `WorkerCursors.OrganizationsCycle` | apps/worker/src/jobs.ts:558-572 | The organization batches bring every organization once, in order, and the run after them is back at the first. |
| `WorkerCursors.BatchesIs` | apps/worker/src/jobs.ts:802-808 | That takes ceil(n / limit) runs. |
| `WorkerCursors.BatchGoesOnIffDecodable` | apps/worker/src/jobs.ts:782-790 | After a batch that leaves organizations over, the next goes on if and only if the last id is recognized; otherwise it starts over. |
| `ConcurrentMap.ReachableSound` | packages/ingestion/src/public-analysis/wallet-analysis.ts:259-278 | Every interleaving keeps inputs handed out in order, each to one worker, results at their own index, and workers and inputs in flight matched. |
| `ConcurrentMap.AtMostOnceAndBounded` | apps/worker/src/jobs.ts:705-728 | No input is handled twice and at most `concurrency` are in flight, in both versions. |
| `ConcurrentMap.AllHandled` | packages/ingestion/src/public-analysis/wallet-analysis.ts:259-278 | When all workers are through without failure, every input was handled exactly once and its result is at its own index. |
| `ConcurrentMap.NothingStartsAfterFailure` | apps/worker/src/jobs.ts:705-728 | The worker version starts nothing after a recorded failure, whatever the interleaving. |
| `WorkerLoop.StartsExactlyDue` | apps/worker/src/runner.ts:103-141 | Of jobs with distinct names exactly those without an execution whose time has come are started, in order, each once and under an id of its own; nothing else changes. |
| `WorkerLoop.ClearedTracked` | apps/worker/src/runner.ts:138-139 | Freeing a settled execution keeps active names and executions in flight one to one. |
| `WorkerLoop.OneInFlight` | apps/worker/src/runner.ts:103-170 | In every run of the loop each job name has at most one execution in flight. |
| `WorkerLoop.PhasesMean` | apps/worker/src/runner.ts:103-190 | In every run the loop has failed, is drained, or is stopped if and only if some step made it so: a failing timer, a refused drain or the end of the grace period; an accepted drain; the stop. |
| `WorkerLoop.StopsIdle` | apps/worker/src/runner.ts:157-190 | The instance is stopped only after draining and with no execution in flight. |
| `WorkerLoop.DelaysBounded` | apps/worker/src/runner.ts:103-141 | After every outcome in every run the failures of the job are cleared or counted on, up to eight, and its next run is the interval doubled per failure, plus the jitter of a failure, away: at least an interval and at most 60 seconds. |

## Left out

- Finite numbers in JSON are stood for by their ECMAScript spelling, and UTF-8 encoding before hashing is part of the hash.
- SHA-256, base58, locale collation and the digest of a transfer's identity are parameters. Collisions appear as explicit cases or conditions, never as an assumption that there are none.
- Fields of a body that the schemas let through unread are in the body but not in the transaction.
- Zod field shapes, lifecycle schemas and stored-timestamp decoding.
- Consensus liveness: a check that stays pending may be claimed again for ever.
- Tables `ingestion_retries`, `sync_runs`, `sync_pages` and `finality_observations`, block times, RPC error columns and the retry counters of backfill: they record what happened but decide nothing proved here.
- Backfill.BackfillEngine.SyncWatchTarget: a run is one step for its own target, whose sync lock it holds; work on other targets happens between runs. So a lost compare-and-set is an answer of the database, not a step of another run.
- Coverage.DiscoveryEnds: only for a history of bounded length. Against a provider that keeps inventing entries the code does not end either.
- BackfillReplay.ResyncAddsNothing: both runs get the same reply for the same signature, and no one closes a quarantine between them.
- LateEntries.RecordedUpToHeadIff: the transactions later runs get come through the adapter.
- ConcurrentMap.NothingStartsAfterFailure: an operation that rejects with `undefined` leaves no failure recorded, and the other workers go on; every rejection here carries an error.
- PaymentVerifier.VerifiedIff: the expected and actual texts of a report are not modelled.
- FinalityEngine.Refresh: begins when slot and statuses have arrived; before that every failure only schedules retries.
- WalletAnalysis.AnalyzePublicWallet: takes a validated request, does not evaluate an expectation, and treats the replies to concurrent fetches as a function of the signature.
- WalletTransfers.CompleteMeansExact: an entry without a block time is unknown to the code, so a history that shows one is never complete.
- WorkerCursors.IngestionCycles: ids are their rank in the database's order, and organizations and targets do not change during the cycles.
- WorkerLoop.OneInFlight: heartbeat and lease renewal only matter as reasons to shut down; timers are turns at arbitrary clock readings.
- HTTP transport, retries and timeouts, authentication, routes, web pages, SDK, command lines, configuration parsing, webhooks and logging.
