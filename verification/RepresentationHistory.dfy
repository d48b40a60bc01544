/**
 What every interleaving of representation, finality and consensus steps keeps of the
 discovered signatures, their raw transactions and the chain events.
 */
module RepresentationHistory {
  import opened Wrappers
  import opened Texts
  import opened Transactions
  import opened TransferParser
  import opened ParsingDigest
  import opened Snapshots
  import opened EvidenceTables
  import opened RepresentationStore
  import opened FinalityStore
  import Engine = FinalityEngine
  import Consensus = FinalizedConsensus
  import CanonicalJson

  /** The tables, the candidates handed out by finality claims, and the transactions handed to the store so far. */
  datatype World = World(tables: Tables, issued: set<Candidate>, recorded: set<Consensus.Fetched>)

  datatype Step =
    | Represent(input: Input, source: Option<Consensus.Fetched>)
    | ClaimFinality(providerId: Text, cluster: Cluster, now: int, tokens: map<RowKey, Text>)
    | RecordFinality(candidate: Candidate, evidence: Engine.Evidence, contextSlot: nat)
    | Disagree(on: Cluster, signature: Text, reported: seq<Quarantine>)
    | Review(reviewed: seq<Quarantine>)

  /** A finality answer comes from a body as well. */
  ghost predicate FaithfulAnswer(answer: Engine.Answer) {
    answer.Ok? && answer.value.Some? ==> Consensus.Faithful(answer.value.value)
  }

  /** Snapshot and transaction are passed together, and of one body. */
  ghost predicate Paired(runtime: Runtime, input: Input, source: Option<Consensus.Fetched>) {
    if source.None? then input.snapshot.None? && input.transaction.None?
    else
      && Consensus.Faithful(source.value)
      && input.snapshot == Some(Digest(source.value.body, runtime.sha256)) && input.transaction == Some(source.value.tx)
  }

  ghost predicate Enabled(runtime: Runtime, w: World, step: Step) {
    match step
    case Represent(input, source) => Paired(runtime, input, source)
    case ClaimFinality(providerId, _, now, tokens) => Claimable(w.tables, providerId, now, tokens)
    case RecordFinality(c, evidence, _) => c in w.issued && FaithfulAnswer(evidence.answer)
    case _ => true
  }

  function Shown(source: Option<Consensus.Fetched>): set<Consensus.Fetched> {
    if source.Some? then {source.value} else {}
  }

  function Answered(answer: Engine.Answer): set<Consensus.Fetched> { if answer.Ok? then Shown(answer.value) else {} }

  function Apply(runtime: Runtime, w: World, step: Step): World {
    match step
    case Represent(input, source) => w.(tables := AfterRepresentation(w.tables, runtime, input).0, recorded := w.recorded + Shown(source))
    case ClaimFinality(_, cluster, now, tokens) =>
      w.(tables := AfterFinalityClaim(w.tables, now, tokens),
        issued := w.issued + (set key | key in tokens && key in w.tables.rows :: CandidateOf(w.tables, cluster, key, tokens[key])))
    case RecordFinality(c, evidence, contextSlot) =>
      w.(tables := AfterFinality(w.tables, Engine.InputOf(runtime, c, evidence.status, contextSlot, evidence.answer)).0,
        recorded := w.recorded + Answered(evidence.answer))
    case Disagree(cluster, signature, reported) =>
      w.(tables := w.tables.(book := w.tables.book.(events := QuarantineEvents(w.tables.book.events, cluster, signature)),
                             quarantines := w.tables.quarantines + reported))
    case Review(reviewed) => w.(tables := w.tables.(quarantines := reviewed))
  }

  predicate Initial(w: World) {
    w.issued == {} && w.recorded == {} && w.tables.rows == map[]
  }

  ghost predicate History(runtime: Runtime, worlds: seq<World>, steps: seq<Step>) {
    && |worlds| == |steps| + 1
    && Initial(worlds[0])
    && forall i :: 0 <= i < |steps| ==> Enabled(runtime, worlds[i], steps[i]) && worlds[i + 1] == Apply(runtime, worlds[i], steps[i])
  }

  // ------------------------------------------------------------------ what never changes back

  /** Terminal rows are frozen, a class never returns to pending, and evidence is written once. */
  predicate RowEvolves(a: SignatureRow, b: SignatureRow) {
    && b.providerId == a.providerId && b.slot == a.slot
    && (Terminal(a.state) ==> b.state == a.state && b.classification == a.classification)
    && (a.classification != Pending ==> b.classification != Pending)
    && (a.rawTransactionId.Some? ==> b.rawTransactionId == a.rawTransactionId)
    && (a.parseDigest.Some? ==> b.parseDigest == a.parseDigest)
  }

  ghost predicate Evolves(t: Tables, u: Tables) {
    && (forall key :: key in t.rows ==> key in u.rows && RowEvolves(t.rows[key], u.rows[key]))
    && t.raws <= u.raws
    && QuarantineAbsorbs(t.book.events, u.book.events)
  }

  // ------------------------------------------------------------------ the invariant

  /** Which finality states a class can be in. */
  predicate ClassFits(classification: Class, state: FinalityState) {
    match classification
    case Pending => state == Detected
    case FailedTransaction => state == FailedState
    case Quarantined => state == QuarantinedState
    case _ => true
  }

  /** Both digests are of one and the same recorded transaction. */
  ghost predicate FromOne(runtime: Runtime, recorded: set<Consensus.Fetched>, snapshot: Text, parse: Text,
      f: Consensus.Fetched) {
    && f in recorded
    && Digest(f.body, runtime.sha256) == snapshot
    && CreateParsingDigest(f.tx, runtime.collation, runtime.sha256) == parse
  }

  ghost predicate EvidenceSound(runtime: Runtime, recorded: set<Consensus.Fetched>, raws: seq<RawTransaction>,
      signature: Text, row: SignatureRow) {
    && (row.rawTransactionId.Some? <==> row.parseDigest.Some?)
    && (row.rawTransactionId.Some? ==>
          && row.rawTransactionId.value < |raws| && raws[row.rawTransactionId.value].signature == signature
          && exists f :: FromOne(runtime, recorded, raws[row.rawTransactionId.value].digest, row.parseDigest.value, f))
  }

  predicate IsFinalized(raw: RawTransaction, providerId: Text, signature: Text) {
    raw.providerId == providerId && raw.signature == signature && raw.commitment == Finalized
  }

  /** A finalized transaction with the parsing digest of the row is in store. */
  ghost predicate GatePassed(runtime: Runtime, recorded: set<Consensus.Fetched>, raws: seq<RawTransaction>,
      signature: Text, row: SignatureRow) {
    && row.parseDigest.Some?
    && exists id, g :: 0 <= id < |raws| && IsFinalized(raws[id], row.providerId, signature)
         && FromOne(runtime, recorded, raws[id].digest, row.parseDigest.value, g)
  }

  ghost predicate RowSound(runtime: Runtime, recorded: set<Consensus.Fetched>, raws: seq<RawTransaction>,
      signature: Text, row: SignatureRow) {
    && ClassFits(row.classification, row.state)
    && EvidenceSound(runtime, recorded, raws, signature, row)
    && (row.state == FinalizedState ==> GatePassed(runtime, recorded, raws, signature, row))
  }

  ghost predicate RowsSound(runtime: Runtime, recorded: set<Consensus.Fetched>, t: Tables) {
    forall key :: key in t.rows ==> RowSound(runtime, recorded, t.raws, key.signature, t.rows[key])
  }

  /** A candidate still describes its row where the row cannot have changed. */
  predicate CandidateSound(t: Tables, c: Candidate) {
    && c.key in t.rows && t.rows[c.key].classification != Pending
    && t.rows[c.key].providerId == c.providerId
    && (c.state == Detected || c.state == ConfirmedState)
    && (c.confirmedDigest.Some? ==> t.rows[c.key].parseDigest == c.confirmedDigest)
  }

  ghost predicate AllFaithful(recorded: set<Consensus.Fetched>) {
    forall f {:trigger Consensus.Faithful(f)} :: f in recorded ==> Consensus.Faithful(f)
  }

  ghost predicate Inv(runtime: Runtime, w: World) {
    && AllFaithful(w.recorded)
    && RowsSound(runtime, w.recorded, w.tables)
    && forall c :: c in w.issued ==> CandidateSound(w.tables, c)
  }

  // ------------------------------------------------------------------ one step

  lemma {:induction false} InsertsAbsorb(book: Book, cluster: Cluster, rawId: nat, version: Text,
      transfers: seq<ParsedTransfer>)
    requires InsertTransfers(book, cluster, rawId, version, transfers).Ok?
    ensures QuarantineAbsorbs(book.events, InsertTransfers(book, cluster, rawId, version, transfers).value.0.events)
  {
    if transfers != [] { InsertsAbsorb(book, cluster, rawId, version, transfers[..|transfers| - 1]); }
  }

  /** Evidence stays sound while raw transactions are only added. */
  lemma RowStaysSound(runtime: Runtime, recorded: set<Consensus.Fetched>, raws: seq<RawTransaction>,
      more: seq<RawTransaction>, signature: Text, row: SignatureRow)
    requires RowSound(runtime, recorded, raws, signature, row) && raws <= more
    ensures RowSound(runtime, recorded, more, signature, row)
  {
    if row.state == FinalizedState {
      var id, g :| 0 <= id < |raws| && IsFinalized(raws[id], row.providerId, signature) && FromOne(runtime, recorded, raws[id].digest, row.parseDigest.value, g);
      assert more[id] == raws[id];
    }
  }

  /** More recorded transactions take no evidence away. */
  lemma RecordedGrows(runtime: Runtime, recorded: set<Consensus.Fetched>, more: set<Consensus.Fetched>, t: Tables)
    requires RowsSound(runtime, recorded, t) && recorded <= more
    ensures RowsSound(runtime, more, t)
  {
    forall key | key in t.rows ensures RowSound(runtime, more, t.raws, key.signature, t.rows[key]) {
      var row := t.rows[key];
      assert RowSound(runtime, recorded, t.raws, key.signature, row);
      if row.rawTransactionId.Some? {
        var f :| FromOne(runtime, recorded, t.raws[row.rawTransactionId.value].digest, row.parseDigest.value, f);
        assert FromOne(runtime, more, t.raws[row.rawTransactionId.value].digest, row.parseDigest.value, f);
      }
      if row.state == FinalizedState {
        var id, g :| 0 <= id < |t.raws| && IsFinalized(t.raws[id], row.providerId, key.signature)
          && FromOne(runtime, recorded, t.raws[id].digest, row.parseDigest.value, g);
        assert FromOne(runtime, more, t.raws[id].digest, row.parseDigest.value, g);
      }
    }
  }

  lemma CandidatesStaySound(w: World, u: Tables)
    requires forall c :: c in w.issued ==> CandidateSound(w.tables, c)
    requires forall key :: key in w.tables.rows ==> key in u.rows && RowEvolves(w.tables.rows[key], u.rows[key])
    ensures forall c :: c in w.issued ==> CandidateSound(u, c)
  {
    forall c | c in w.issued ensures CandidateSound(u, c) {
      assert CandidateSound(w.tables, c) && RowEvolves(w.tables.rows[c.key], u.rows[c.key]);
    }
  }

  /** What a representation brings: an id and a parse digest of one transaction, or neither. */
  ghost predicate Brings(runtime: Runtime, recorded: set<Consensus.Fetched>, raws: seq<RawTransaction>, signature: Text,
      rawId: Option<nat>, digest: Option<Text>) {
    && (rawId.Some? <==> digest.Some?)
    && (rawId.Some? ==>
          && rawId.value < |raws| && raws[rawId.value].signature == signature
          && exists f :: FromOne(runtime, recorded, raws[rawId.value].digest, digest.value, f))
  }

  lemma InputBrings(t: Tables, runtime: Runtime, recorded: set<Consensus.Fetched>, input: Input,
      source: Option<Consensus.Fetched>)
    requires Paired(runtime, input, source) && Shown(source) <= recorded
    ensures Brings(runtime, recorded, RawsAfter(t.raws, input), input.discovered.signature, RawIdAfter(t.raws, input), ParseDigestOf(runtime, input))
  {
    if source.Some? {
      assert source.value in Shown(source);
      assert FromOne(runtime, recorded, RawOf(input).digest, ParseDigestOf(runtime, input).value, source.value);
      assert RawsAfter(t.raws, input)[RawIdAfter(t.raws, input).value] == RawOf(input);
    }
  }

  lemma NewRowSound(runtime: Runtime, recorded: set<Consensus.Fetched>, raws: seq<RawTransaction>, input: Input,
      classification: Class, rawId: Option<nat>, digest: Option<Text>)
    requires Brings(runtime, recorded, raws, input.discovered.signature, rawId, digest)
    ensures RowSound(runtime, recorded, raws, input.discovered.signature, NewRow(input, classification, rawId, digest))
  {
  }

  lemma MergedEvidence(runtime: Runtime, recorded: set<Consensus.Fetched>, raws: seq<RawTransaction>, signature: Text,
      row: SignatureRow, classification: Class, rawId: Option<nat>, digest: Option<Text>)
    requires EvidenceSound(runtime, recorded, raws, signature, row)
    requires Brings(runtime, recorded, raws, signature, rawId, digest)
    ensures EvidenceSound(runtime, recorded, raws, signature, MergedRow(row, classification, rawId, digest))
  {
  }

  lemma MergedGate(runtime: Runtime, recorded: set<Consensus.Fetched>, raws: seq<RawTransaction>, signature: Text,
      row: SignatureRow, merged: SignatureRow)
    requires GatePassed(runtime, recorded, raws, signature, row) && merged.parseDigest == row.parseDigest
    requires merged.providerId == row.providerId
    ensures GatePassed(runtime, recorded, raws, signature, merged)
  {
  }

  lemma MergedRowSound(runtime: Runtime, recorded: set<Consensus.Fetched>, raws: seq<RawTransaction>, signature: Text,
      row: SignatureRow, classification: Class, rawId: Option<nat>, digest: Option<Text>)
    requires RowSound(runtime, recorded, raws, signature, row)
    requires Brings(runtime, recorded, raws, signature, rawId, digest)
    ensures RowSound(runtime, recorded, raws, signature, MergedRow(row, classification, rawId, digest))
    ensures RowEvolves(row, MergedRow(row, classification, rawId, digest))
  {
    var merged := MergedRow(row, classification, rawId, digest);
    MergedEvidence(runtime, recorded, raws, signature, row, classification, rawId, digest);
    if row.state == FinalizedState { MergedGate(runtime, recorded, raws, signature, row, merged); }
  }

  /** The row an upsert leaves behind. */
  lemma UpsertedRow(runtime: Runtime, recorded: set<Consensus.Fetched>, t: Tables, raws: seq<RawTransaction>,
      input: Input, classification: Class,
      rawId: Option<nat>, digest: Option<Text>, row: SignatureRow)
    requires RowsSound(runtime, recorded, t) && t.raws <= raws
    requires Brings(runtime, recorded, raws, input.discovered.signature, rawId, digest)
    requires row == if KeyOf(input) in t.rows then MergedRow(t.rows[KeyOf(input)], classification, rawId, digest) else NewRow(input, classification, rawId, digest)
    ensures RowSound(runtime, recorded, raws, input.discovered.signature, row)
    ensures KeyOf(input) in t.rows ==> RowEvolves(t.rows[KeyOf(input)], row)
  {
    if KeyOf(input) in t.rows {
      RowStaysSound(runtime, recorded, t.raws, raws, input.discovered.signature, t.rows[KeyOf(input)]);
      MergedRowSound(runtime, recorded, raws, input.discovered.signature, t.rows[KeyOf(input)], classification, rawId,
        digest);
    } else {
      NewRowSound(runtime, recorded, raws, input, classification, rawId, digest);
    }
  }

  lemma RepresentedRow(t: Tables, runtime: Runtime, recorded: set<Consensus.Fetched>, input: Input)
    requires RowsSound(runtime, recorded, t)
    requires Brings(runtime, recorded, RawsAfter(t.raws, input), input.discovered.signature, RawIdAfter(t.raws, input), ParseDigestOf(runtime, input))
    ensures RowSound(runtime, recorded, RawsAfter(t.raws, input), input.discovered.signature, RowAfter(t, runtime, input))
    ensures KeyOf(input) in t.rows ==> RowEvolves(t.rows[KeyOf(input)], RowAfter(t, runtime, input))
  {
    UpsertedRow(runtime, recorded, t, RawsAfter(t.raws, input), input, Decide(t, input).classification,
      RawIdAfter(t.raws, input), ParseDigestOf(runtime, input), RowAfter(t, runtime, input));
  }

  /** One row replaced, raw transactions only added. */
  lemma ReplacedRowSound(runtime: Runtime, recorded: set<Consensus.Fetched>, t: Tables, u: Tables, key: RowKey)
    requires RowsSound(runtime, recorded, t) && t.raws <= u.raws && key in u.rows
    requires RowSound(runtime, recorded, u.raws, key.signature, u.rows[key])
    requires forall k :: k in u.rows && k != key ==> k in t.rows && u.rows[k] == t.rows[k]
    ensures RowsSound(runtime, recorded, u)
  {
    forall k | k in u.rows ensures RowSound(runtime, recorded, u.raws, k.signature, u.rows[k]) {
      if k != key { RowStaysSound(runtime, recorded, t.raws, u.raws, k.signature, t.rows[k]); }
    }
  }

  lemma EventsAbsorb(t: Tables, input: Input)
    requires EventsAfter(t, input).Ok?
    ensures QuarantineAbsorbs(t.book.events, EventsAfter(t, input).value.0.events)
  {
    if HasBody(input) && Decide(t, input).classification == Parsed {
      InsertsAbsorb(t.book, input.transaction.value.cluster, RawIdAfter(t.raws, input).value, input.parserVersion,
        input.transfers);
    }
  }

  /** What a representation that is stored does to each table. */
  lemma RepresentedTables(t: Tables, runtime: Runtime, input: Input)
    requires AfterRepresentation(t, runtime, input).1.Ok?
    ensures var u := AfterRepresentation(t, runtime, input).0;
      && u.rows == t.rows[KeyOf(input) := RowAfter(t, runtime, input)]
      && u.raws == RawsAfter(t.raws, input) && t.raws <= u.raws
      && EventsAfter(t, input).Ok? && u.book == EventsAfter(t, input).value.0
  {
  }

  lemma RepresentEvolves(t: Tables, u: Tables, key: RowKey)
    requires forall k :: k in t.rows && k != key ==> k in u.rows && u.rows[k] == t.rows[k]
    requires key in t.rows ==> key in u.rows && RowEvolves(t.rows[key], u.rows[key])
    ensures forall k :: k in t.rows ==> k in u.rows && RowEvolves(t.rows[k], u.rows[k])
  {
  }

  /** One row put in place, raw transactions only added, no event released. */
  lemma PutRowKeeps(runtime: Runtime, recorded: set<Consensus.Fetched>, t: Tables, u: Tables, key: RowKey,
      row: SignatureRow)
    requires RowsSound(runtime, recorded, t) && u.rows == t.rows[key := row] && t.raws <= u.raws
    requires RowSound(runtime, recorded, u.raws, key.signature, row) && (key in t.rows ==> RowEvolves(t.rows[key], row))
    requires QuarantineAbsorbs(t.book.events, u.book.events)
    ensures RowsSound(runtime, recorded, u) && Evolves(t, u)
  {
    ReplacedRowSound(runtime, recorded, t, u, key);
    RepresentEvolves(t, u, key);
  }

  /** The tables as before, or with the upserted row, raw transactions added and no event released. */
  ghost predicate Upserted(t: Tables, u: Tables, key: RowKey, row: SignatureRow, raws: seq<RawTransaction>) {
    || u == t
    || (u.rows == t.rows[key := row] && u.raws == raws && t.raws <= raws && QuarantineAbsorbs(t.book.events, u.book.events))
  }

  lemma RepresentUpserts(t: Tables, runtime: Runtime, input: Input)
    ensures Upserted(t, AfterRepresentation(t, runtime, input).0, KeyOf(input), RowAfter(t, runtime, input), RawsAfter(t.raws, input))
  {
    if AfterRepresentation(t, runtime, input).1.Ok? {
      RepresentedTables(t, runtime, input);
      EventsAbsorb(t, input);
    }
  }

  lemma UpsertKeeps(runtime: Runtime, recorded: set<Consensus.Fetched>, t: Tables, u: Tables, key: RowKey,
      row: SignatureRow, raws: seq<RawTransaction>)
    requires RowsSound(runtime, recorded, t) && Upserted(t, u, key, row, raws)
    requires RowSound(runtime, recorded, raws, key.signature, row) && (key in t.rows ==> RowEvolves(t.rows[key], row))
    ensures RowsSound(runtime, recorded, u) && Evolves(t, u)
  {
    if u != t { PutRowKeeps(runtime, recorded, t, u, key, row); }
  }

  lemma ShownIsFaithful(runtime: Runtime, recorded: set<Consensus.Fetched>, input: Input,
      source: Option<Consensus.Fetched>)
    requires AllFaithful(recorded) && Paired(runtime, input, source)
    ensures AllFaithful(recorded + Shown(source))
  {
  }

  lemma RepresentedRows(runtime: Runtime, recorded: set<Consensus.Fetched>, t: Tables, input: Input,
      source: Option<Consensus.Fetched>, u: Tables)
    requires RowsSound(runtime, recorded, t) && Paired(runtime, input, source) && Shown(source) <= recorded
    requires u == AfterRepresentation(t, runtime, input).0
    ensures RowsSound(runtime, recorded, u) && Evolves(t, u)
  {
    InputBrings(t, runtime, recorded, input, source);
    RepresentedRow(t, runtime, recorded, input);
    RepresentUpserts(t, runtime, input);
    UpsertKeeps(runtime, recorded, t, u, KeyOf(input), RowAfter(t, runtime, input), RawsAfter(t.raws, input));
  }

  lemma RepresentKeeps(runtime: Runtime, w: World, input: Input, source: Option<Consensus.Fetched>, u: Tables)
    requires Inv(runtime, w) && Paired(runtime, input, source) && u == AfterRepresentation(w.tables, runtime, input).0
    ensures Inv(runtime, w.(tables := u, recorded := w.recorded + Shown(source))) && Evolves(w.tables, u)
  {
    var recorded := w.recorded + Shown(source);
    ShownIsFaithful(runtime, w.recorded, input, source);
    RecordedGrows(runtime, w.recorded, recorded, w.tables);
    RepresentedRows(runtime, recorded, w.tables, input, source, u);
    CandidatesStaySound(w, u);
  }

  lemma ClaimedTables(runtime: Runtime, recorded: set<Consensus.Fetched>, t: Tables, now: int, tokens: map<RowKey,
      Text>)
    requires RowsSound(runtime, recorded, t)
    ensures var u := AfterFinalityClaim(t, now, tokens);
      RowsSound(runtime, recorded, u) && Evolves(t, u) && forall key :: key in t.rows ==> u.rows[key] == t.rows[key].(claim := u.rows[key].claim)
  {
    var u := AfterFinalityClaim(t, now, tokens);
    forall key | key in u.rows
      ensures RowSound(runtime, recorded, u.raws, key.signature, u.rows[key]) && RowEvolves(t.rows[key], u.rows[key])
      ensures u.rows[key] == t.rows[key].(claim := u.rows[key].claim)
    {
    }
  }

  lemma ClaimKeeps(runtime: Runtime, w: World, providerId: Text, cluster: Cluster, now: int, tokens: map<RowKey, Text>)
    requires Inv(runtime, w) && Claimable(w.tables, providerId, now, tokens)
    ensures var next := Apply(runtime, w, ClaimFinality(providerId, cluster, now, tokens));
      Inv(runtime, next) && Evolves(w.tables, next.tables)
  {
    var u := AfterFinalityClaim(w.tables, now, tokens);
    ClaimedTables(runtime, w.recorded, w.tables, now, tokens);
    CandidatesStaySound(w, u);
    forall key | key in tokens ensures CandidateSound(u, CandidateOf(w.tables, cluster, key, tokens[key])) {
      assert Eligible(w.tables.rows[key], providerId, now);
    }
  }

  lemma RecordKeepsRows(runtime: Runtime, recorded: set<Consensus.Fetched>, t: Tables, c: Candidate, e: Engine.Evidence,
      contextSlot: nat, u: Tables)
    requires RowsSound(runtime, recorded, t) && CandidateSound(t, c) && Answered(e.answer) <= recorded
    requires u == AfterFinality(t, Engine.InputOf(runtime, c, e.status, contextSlot, e.answer)).0
    ensures RowsSound(runtime, recorded, u) && Evolves(t, u)
  {
    if StillClaimed(t.rows, c) {
      RecordedRow(runtime, recorded, t, c, e, contextSlot);
      ReplacedRowSound(runtime, recorded, t, u, c.key);
      RepresentEvolves(t, u, c.key);
    }
  }

  lemma RecordKeeps(runtime: Runtime, w: World, c: Candidate, e: Engine.Evidence, contextSlot: nat, u: Tables)
    requires Inv(runtime, w) && c in w.issued && FaithfulAnswer(e.answer)
    requires u == AfterFinality(w.tables, Engine.InputOf(runtime, c, e.status, contextSlot, e.answer)).0
    ensures Inv(runtime, w.(tables := u, recorded := w.recorded + Answered(e.answer))) && Evolves(w.tables, u)
  {
    var recorded := w.recorded + Answered(e.answer);
    RecordedGrows(runtime, w.recorded, recorded, w.tables);
    RecordKeepsRows(runtime, recorded, w.tables, c, e, contextSlot, u);
    CandidatesStaySound(w, u);
  }

  /** The digest gate leaves the finalized transaction in store. */
  lemma GateLeavesEvidence(runtime: Runtime, recorded: set<Consensus.Fetched>, t: Tables, c: Candidate,
      e: Engine.Evidence, contextSlot: nat, raws: seq<RawTransaction>, row: SignatureRow)
    requires StillClaimed(t.rows, c) && Answered(e.answer) <= recorded
    requires c.state == Detected || c.state == ConfirmedState
    requires var input := Engine.InputOf(runtime, c, e.status, contextSlot, e.answer);
      EffectiveState(t.raws, input) == FinalizedState && (input.snapshot.Some? ==> FinalizedRaw(input) in raws)
    requires row.providerId == c.providerId && (c.confirmedDigest.Some? ==> row.parseDigest == c.confirmedDigest)
    ensures GatePassed(runtime, recorded, raws, c.key.signature, row)
  {
    var input := Engine.InputOf(runtime, c, e.status, contextSlot, e.answer);
    Engine.FinalizedMeans(t, runtime, c, e, contextSlot);
    var id :| 0 <= id < |raws| && raws[id] == FinalizedRaw(input);
    assert e.answer.value.value in Answered(e.answer);
    assert FromOne(runtime, recorded, raws[id].digest, row.parseDigest.value, e.answer.value.value);
  }

  /** The row a finality observation leaves behind. */
  lemma RecordedRow(runtime: Runtime, recorded: set<Consensus.Fetched>, t: Tables, c: Candidate, e: Engine.Evidence,
      contextSlot: nat)
    requires RowsSound(runtime, recorded, t) && CandidateSound(t, c) && Answered(e.answer) <= recorded
    requires StillClaimed(t.rows, c)
    ensures var u := AfterFinality(t, Engine.InputOf(runtime, c, e.status, contextSlot, e.answer)).0;
      RowEvolves(t.rows[c.key], u.rows[c.key]) && RowSound(runtime, recorded, u.raws, c.key.signature, u.rows[c.key])
  {
    var input := Engine.InputOf(runtime, c, e.status, contextSlot, e.answer);
    var u := AfterFinality(t, input).0;
    assert RowSound(runtime, recorded, t.raws, c.key.signature, t.rows[c.key]);
    RowStaysSound(runtime, recorded, t.raws, u.raws, c.key.signature, t.rows[c.key]);
    if EffectiveState(t.raws, input) == FinalizedState {
      GateLeavesEvidence(runtime, recorded, t, c, e, contextSlot, u.raws, u.rows[c.key]);
    }
  }

  lemma StepKeeps(runtime: Runtime, w: World, step: Step)
    requires Inv(runtime, w) && Enabled(runtime, w, step)
    ensures Inv(runtime, Apply(runtime, w, step)) && Evolves(w.tables, Apply(runtime, w, step).tables)
  {
    match step
    case Represent(input, source) => RepresentKeeps(runtime, w, input, source, Apply(runtime, w, step).tables);
    case ClaimFinality(providerId, cluster, now, tokens) => ClaimKeeps(runtime, w, providerId, cluster, now, tokens);
    case RecordFinality(c, evidence, contextSlot) => RecordKeeps(runtime, w, c, evidence, contextSlot, Apply(runtime, w, step).tables);
    case _ =>
      var u := Apply(runtime, w, step).tables;
      forall key | key in u.rows ensures RowSound(runtime, w.recorded, u.raws, key.signature, u.rows[key]) {
        assert RowSound(runtime, w.recorded, w.tables.raws, key.signature, w.tables.rows[key]);
      }
      CandidatesStaySound(w, u);
  }

  // ------------------------------------------------------------------ over whole histories

  /** In every reachable state class and finality state fit, and raw id and parse digest are of one transaction. */
  lemma {:induction false} ReachableSound(runtime: Runtime, worlds: seq<World>, steps: seq<Step>, n: nat)
    requires History(runtime, worlds, steps) && n <= |steps|
    ensures Inv(runtime, worlds[n])
  {
    if n > 0 {
      ReachableSound(runtime, worlds, steps, n - 1);
      StepKeeps(runtime, worlds[n - 1], steps[n - 1]);
    }
  }

  function TablesOf(worlds: seq<World>): (run: seq<Tables>)
    ensures |run| == |worlds| && forall k :: 0 <= k < |worlds| ==> run[k] == worlds[k].tables
  {
    seq(|worlds|, k requires 0 <= k < |worlds| => worlds[k].tables)
  }

  ghost predicate EvolvingRun(run: seq<Tables>) {
    forall k :: 0 <= k < |run| - 1 ==> Evolves(run[k], run[k + 1])
  }

  lemma {:induction false} EvolvesAlong(run: seq<Tables>, i: nat, j: nat)
    requires EvolvingRun(run) && i <= j < |run|
    ensures Evolves(run[i], run[j])
    decreases j
  {
    if i < j {
      EvolvesAlong(run, i, j - 1);
      assert Evolves(run[j - 1], run[j - 1 + 1]);
    }
  }

  /**
   However the history goes on: no row disappears or changes slot, terminal rows keep state
   and class, no class returns to pending, evidence is written once, and a quarantined event
   stays quarantined.
   */
  lemma EvolvesForever(runtime: Runtime, worlds: seq<World>, steps: seq<Step>, i: nat, j: nat)
    requires History(runtime, worlds, steps) && i <= j <= |steps|
    ensures Evolves(worlds[i].tables, worlds[j].tables)
  {
    var run := TablesOf(worlds);
    forall k | 0 <= k < |steps| ensures Evolves(run[k], run[k + 1]) {
      ReachableSound(runtime, worlds, steps, k);
      StepKeeps(runtime, worlds[k], steps[k]);
    }
    EvolvesAlong(run, i, j);
  }

  /** The same transfers, or the same refusal, for every watched address. */
  ghost predicate ParseAlike(runtime: Runtime, f: Transaction, g: Transaction) {
    forall watched :: ParseTransactionTransfers(f, runtime.base58, watched) == ParseTransactionTransfers(g, runtime.base58, watched)
  }

  function BodyText(f: Consensus.Fetched): Text { CanonicalJson.CanonicalText(f.body) }

  function FingerprintText(runtime: Runtime, f: Consensus.Fetched): Text {
    CanonicalJson.CanonicalText(Fingerprint(f.tx, runtime.collation))
  }

  predicate Apart(runtime: Runtime, f: Consensus.Fetched, g: Consensus.Fetched) {
    && (Digest(f.body, runtime.sha256) == Digest(g.body, runtime.sha256) ==> BodyText(f) == BodyText(g))
    && (CreateParsingDigest(f.tx, runtime.collation, runtime.sha256) == CreateParsingDigest(g.tx, runtime.collation, runtime.sha256)
        ==> FingerprintText(runtime, f) == FingerprintText(runtime, g))
  }

  /** SHA-256 collides neither on the bodies nor on the fingerprints of the transactions handed to the store. */
  ghost predicate Uncollided(runtime: Runtime, recorded: set<Consensus.Fetched>) {
    forall f, g {:trigger Apart(runtime, f, g)} :: f in recorded && g in recorded ==> Apart(runtime, f, g)
  }

  /** A transaction handed to the store, of which this is the stored digest. */
  ghost predicate StoredAs(runtime: Runtime, w: World, id: nat, f: Consensus.Fetched)
    requires id < |w.tables.raws|
  {
    f in w.recorded && Digest(f.body, runtime.sha256) == w.tables.raws[id].digest
  }

  /** Behind both ids are transactions handed to the store, and any two of them parse alike. */
  ghost predicate StoredAlike(runtime: Runtime, w: World, id: nat, other: nat)
    requires id < |w.tables.raws| && other < |w.tables.raws|
  {
    && (exists f :: StoredAs(runtime, w, id, f)) && (exists g :: StoredAs(runtime, w, other, g))
    && forall f, g :: StoredAs(runtime, w, id, f) && StoredAs(runtime, w, other, g) ==> ParseAlike(runtime, f.tx, g.tx)
  }

  lemma EqualBodiesAlike(runtime: Runtime, f: Consensus.Fetched, g: Consensus.Fetched)
    requires Consensus.Faithful(f) && Consensus.Faithful(g)
    requires Digest(f.body, runtime.sha256) == Digest(g.body, runtime.sha256)
    requires Apart(runtime, f, g)
    ensures ParseAlike(runtime, f.tx, g.tx)
  {
    EqualSnapshots(f.body, g.body, f.tx, g.tx, runtime.sha256);
    EquivalentIsAlike(f.tx, g.tx);
    forall watched ensures ParseTransactionTransfers(f.tx, runtime.base58, watched) == ParseTransactionTransfers(g.tx, runtime.base58, watched) {
      AlikeParseAlike(f.tx, g.tx, runtime.base58, watched);
    }
  }

  lemma EqualFingerprintsAlike(runtime: Runtime, f: Consensus.Fetched, g: Consensus.Fetched)
    requires Consensus.Faithful(f) && Consensus.Faithful(g)
    requires CreateParsingDigest(f.tx, runtime.collation, runtime.sha256)
      == CreateParsingDigest(g.tx, runtime.collation, runtime.sha256)
    requires Apart(runtime, f, g)
    ensures ParseAlike(runtime, f.tx, g.tx)
  {
    forall watched ensures ParseTransactionTransfers(f.tx, runtime.base58, watched) == ParseTransactionTransfers(g.tx, runtime.base58, watched) {
      EqualDigestsParseAlike(f.tx, g.tx, runtime.collation, runtime.sha256, runtime.base58, watched);
    }
  }

  lemma RecordedBodiesAlike(runtime: Runtime, recorded: set<Consensus.Fetched>, f: Consensus.Fetched,
      g: Consensus.Fetched)
    requires AllFaithful(recorded) && Uncollided(runtime, recorded) && f in recorded && g in recorded
    requires Digest(f.body, runtime.sha256) == Digest(g.body, runtime.sha256)
    ensures ParseAlike(runtime, f.tx, g.tx)
  {
    assert Consensus.Faithful(f) && Consensus.Faithful(g) && Apart(runtime, f, g);
    EqualBodiesAlike(runtime, f, g);
  }

  lemma RecordedFingerprintsAlike(runtime: Runtime, recorded: set<Consensus.Fetched>, f: Consensus.Fetched,
      g: Consensus.Fetched)
    requires AllFaithful(recorded) && Uncollided(runtime, recorded) && f in recorded && g in recorded
    requires CreateParsingDigest(f.tx, runtime.collation, runtime.sha256)
      == CreateParsingDigest(g.tx, runtime.collation, runtime.sha256)
    ensures ParseAlike(runtime, f.tx, g.tx)
  {
    assert Consensus.Faithful(f) && Consensus.Faithful(g) && Apart(runtime, f, g);
    EqualFingerprintsAlike(runtime, f, g);
  }

  lemma AlikeThrough(runtime: Runtime, x: Transaction, f: Transaction, g: Transaction, y: Transaction)
    requires ParseAlike(runtime, x, f) && ParseAlike(runtime, f, g) && ParseAlike(runtime, g, y)
    ensures ParseAlike(runtime, x, y)
  {
  }

  /** One parse digest behind two ids: whatever was stored there parses alike. */
  lemma OneDigestAlike(runtime: Runtime, w: World, id: nat, other: nat, parse: Text, f: Consensus.Fetched,
      g: Consensus.Fetched)
    requires AllFaithful(w.recorded) && Uncollided(runtime, w.recorded) && id < |w.tables.raws|
    requires other < |w.tables.raws|
    requires FromOne(runtime, w.recorded, w.tables.raws[id].digest, parse, f)
    requires FromOne(runtime, w.recorded, w.tables.raws[other].digest, parse, g)
    ensures StoredAlike(runtime, w, id, other)
  {
    assert StoredAs(runtime, w, id, f) && StoredAs(runtime, w, other, g);
    forall x, y | StoredAs(runtime, w, id, x) && StoredAs(runtime, w, other, y)
      ensures ParseAlike(runtime, x.tx, y.tx)
    {
      RecordedBodiesAlike(runtime, w.recorded, x, f);
      RecordedFingerprintsAlike(runtime, w.recorded, f, g);
      RecordedBodiesAlike(runtime, w.recorded, g, y);
      AlikeThrough(runtime, x.tx, f.tx, g.tx, y.tx);
    }
  }

  /**
   A signature marked finalized has a stored finalized transaction, and whatever transactions
   handed to the store this one and the one first recorded are, they parse to the same events
   for every watched address.
   */
  lemma FinalizedParsesAlike(runtime: Runtime, worlds: seq<World>, steps: seq<Step>, n: nat, key: RowKey)
    requires History(runtime, worlds, steps) && n <= |steps| && Uncollided(runtime, worlds[n].recorded)
    requires key in worlds[n].tables.rows && worlds[n].tables.rows[key].state == FinalizedState
    ensures var w, row := worlds[n], worlds[n].tables.rows[key];
      && row.rawTransactionId.Some? && row.rawTransactionId.value < |w.tables.raws|
      && w.tables.raws[row.rawTransactionId.value].signature == key.signature
      && exists id :: 0 <= id < |w.tables.raws| && IsFinalized(w.tables.raws[id], row.providerId, key.signature)
           && StoredAlike(runtime, w, row.rawTransactionId.value, id)
  {
    ReachableSound(runtime, worlds, steps, n);
    var w, row := worlds[n], worlds[n].tables.rows[key];
    assert RowSound(runtime, w.recorded, w.tables.raws, key.signature, row);
    var id, g :| 0 <= id < |w.tables.raws| && IsFinalized(w.tables.raws[id], row.providerId, key.signature)
      && FromOne(runtime, w.recorded, w.tables.raws[id].digest, row.parseDigest.value, g);
    var f :| FromOne(runtime, w.recorded, w.tables.raws[row.rawTransactionId.value].digest, row.parseDigest.value, f);
    OneDigestAlike(runtime, w, row.rawTransactionId.value, id, row.parseDigest.value, f, g);
  }

  // ------------------------------------------------------------------ what does not hold

  /** A non-terminal row is no fixed point: recording its discovery again moves it back to detected. */
  lemma PendingReopens(t: Tables, runtime: Runtime, input: Input)
    requires KeyOf(input) in t.rows && t.rows[KeyOf(input)].slot == input.discovered.slot
    requires !Terminal(t.rows[KeyOf(input)].state)
    requires input.classification == Pending && input.transaction.None?
    ensures var (u, result) := AfterRepresentation(t, runtime, input);
      && result == Ok(Recorded(false, 0, false))
      && u == t.(rows := t.rows[KeyOf(input) := t.rows[KeyOf(input)].(state := Detected)])
  {
  }

  /** Recording a discovery again, at its slot, changes nothing exactly when the row is terminal or already detected. */
  lemma RediscoveryIsSilentIff(t: Tables, runtime: Runtime, input: Input)
    requires KeyOf(input) in t.rows && t.rows[KeyOf(input)].slot == input.discovered.slot
    requires input.classification == Pending && input.snapshot.None? && input.transaction.None?
    ensures AfterRepresentation(t, runtime, input) == (t, Ok(Recorded(false, 0, false)))
      <==> Terminal(t.rows[KeyOf(input)].state) || t.rows[KeyOf(input)].state == Detected
  {
    var row := t.rows[KeyOf(input)];
    var (u, result) := AfterRepresentation(t, runtime, input);
    assert Decide(t, input).classification == Pending;
    assert u == t.(rows := t.rows[KeyOf(input) := if Terminal(row.state) then row else row.(state := Detected)]);
    assert t.rows[KeyOf(input) := row] == t.rows;
    assert u.rows[KeyOf(input)] == if Terminal(row.state) then row else row.(state := Detected);
  }

  /** Without pairing, one row can hold the parse digest of one transaction and the snapshot of another. */
  lemma UnpairedMixes(t: Tables, runtime: Runtime, first: Input, second: Input)
    requires KeyOf(first) == KeyOf(second) && KeyOf(first) !in t.rows
    requires first.snapshot.None? && first.transaction.Some? && first.classification == Irrelevant
    requires HasBody(second) && second.classification == Irrelevant
    ensures var u := AfterRepresentation(AfterRepresentation(t, runtime, first).0, runtime, second).0;
      && KeyOf(first) in u.rows
      && u.rows[KeyOf(first)].parseDigest == Some(CreateParsingDigest(first.transaction.value, runtime.collation, runtime.sha256))
      && u.rows[KeyOf(first)].rawTransactionId.Some?
      && u.rows[KeyOf(first)].rawTransactionId.value < |u.raws|
      && u.raws[u.rows[KeyOf(first)].rawTransactionId.value].digest == second.snapshot.value
  {
    var u := AfterRepresentation(t, runtime, first).0;
    assert AfterRepresentation(t, runtime, first).1.Ok?;
    assert EventsAfter(u, second).Ok?;
    RepresentedTables(u, runtime, second);
  }

  /** No evidence is sound that is of neither of the transactions it could be of. */
  lemma NeitherIsUnsound(runtime: Runtime, f: Consensus.Fetched, g: Consensus.Fetched, raws: seq<RawTransaction>,
      signature: Text, row: SignatureRow)
    requires row.rawTransactionId.Some? && row.rawTransactionId.value < |raws|
    requires raws[row.rawTransactionId.value].digest != Digest(f.body, runtime.sha256)
    requires row.parseDigest.Some?
    requires row.parseDigest.value != CreateParsingDigest(g.tx, runtime.collation, runtime.sha256)
    ensures !EvidenceSound(runtime, {f, g}, raws, signature, row)
  {
  }

  /** So a mixed row is not sound, when neither bodies nor fingerprints have one digest. */
  lemma MixedIsUnsound(t: Tables, runtime: Runtime, f: Consensus.Fetched, g: Consensus.Fetched, first: Input,
      second: Input)
    requires KeyOf(first) == KeyOf(second) && KeyOf(first) !in t.rows
    requires first.snapshot.None? && first.transaction == Some(f.tx) && first.classification == Irrelevant
    requires second.snapshot == Some(Digest(g.body, runtime.sha256)) && second.transaction == Some(g.tx)
    requires second.classification == Irrelevant
    requires Digest(f.body, runtime.sha256) != Digest(g.body, runtime.sha256)
    requires CreateParsingDigest(f.tx, runtime.collation, runtime.sha256) != CreateParsingDigest(g.tx, runtime.collation, runtime.sha256)
    ensures var u := AfterRepresentation(AfterRepresentation(t, runtime, first).0, runtime, second).0;
      KeyOf(first) in u.rows && !EvidenceSound(runtime, {f, g}, u.raws, KeyOf(first).signature, u.rows[KeyOf(first)])
  {
    UnpairedMixes(t, runtime, first, second);
    var u := AfterRepresentation(AfterRepresentation(t, runtime, first).0, runtime, second).0;
    NeitherIsUnsound(runtime, f, g, u.raws, KeyOf(first).signature, u.rows[KeyOf(first)]);
  }

  /** One recorded transaction has both digests. */
  ghost predicate OfOne(runtime: Runtime, recorded: set<Consensus.Fetched>, snapshot: Option<Text>,
      parse: Option<Text>) {
    && (snapshot.Some? <==> parse.Some?)
    && (snapshot.Some? ==> exists f :: FromOne(runtime, recorded, snapshot.value, parse.value, f))
  }

  /** The snapshot whose raw transaction a recording stores. */
  function BodyDigest(input: Input): Option<Text> { if HasBody(input) then input.snapshot else None }

  lemma RawOfInput(t: Tables, input: Input, raws: seq<RawTransaction>)
    requires RawsAfter(t.raws, input) <= raws
    ensures RawIdAfter(t.raws, input).Some? <==> BodyDigest(input).Some?
    ensures var id := RawIdAfter(t.raws, input);
      id.Some? ==> id.value < |raws| && raws[id.value].digest == BodyDigest(input).value && raws[id.value].signature == input.discovered.signature
  {
    if HasBody(input) {
      assert RawsAfter(t.raws, input)[RawIdAfter(t.raws, input).value] == RawOf(input);
    }
  }

  /** What the row holds after two recordings of a fresh signature: of each kind of evidence, the first there was. */
  lemma TwoRecordings(t: Tables, runtime: Runtime, first: Input, second: Input)
    requires KeyOf(first) == KeyOf(second) && KeyOf(first) !in t.rows
    requires AfterRepresentation(t, runtime, first).1.Ok?
    requires AfterRepresentation(AfterRepresentation(t, runtime, first).0, runtime, second).1.Ok?
    ensures var mid := AfterRepresentation(t, runtime, first).0;
      var u := AfterRepresentation(mid, runtime, second).0;
      && KeyOf(first) in u.rows
      && u.rows[KeyOf(first)].rawTransactionId == Coalesce(RawIdAfter(t.raws, first), RawIdAfter(mid.raws, second))
      && u.rows[KeyOf(first)].parseDigest == Coalesce(ParseDigestOf(runtime, first), ParseDigestOf(runtime, second))
      && RawsAfter(t.raws, first) <= u.raws && RawsAfter(mid.raws, second) == u.raws
  {
    var mid := AfterRepresentation(t, runtime, first).0;
    RepresentedTables(t, runtime, first);
    RepresentedTables(mid, runtime, second);
  }

  /**
   The evidence two recordings of a fresh signature leave is sound if and only if the body and the
   parse digest that are kept, the first of each, are of one transaction handed to the store.
   */
  lemma SoundIffOfOne(t: Tables, runtime: Runtime, recorded: set<Consensus.Fetched>, first: Input, second: Input)
    requires KeyOf(first) == KeyOf(second) && KeyOf(first) !in t.rows
    requires AfterRepresentation(t, runtime, first).1.Ok?
    requires AfterRepresentation(AfterRepresentation(t, runtime, first).0, runtime, second).1.Ok?
    ensures var u := AfterRepresentation(AfterRepresentation(t, runtime, first).0, runtime, second).0;
      && KeyOf(first) in u.rows
      && (EvidenceSound(runtime, recorded, u.raws, KeyOf(first).signature, u.rows[KeyOf(first)])
          <==> OfOne(runtime, recorded, Coalesce(BodyDigest(first), BodyDigest(second)),
                 Coalesce(ParseDigestOf(runtime, first), ParseDigestOf(runtime, second))))
  {
    var mid := AfterRepresentation(t, runtime, first).0;
    var u := AfterRepresentation(mid, runtime, second).0;
    TwoRecordings(t, runtime, first, second);
    RawOfInput(t, first, u.raws);
    RawOfInput(mid, second, u.raws);
    SoundIff(runtime, recorded, u.raws, KeyOf(first).signature, u.rows[KeyOf(first)],
      Coalesce(BodyDigest(first), BodyDigest(second)));
  }

  lemma SoundIff(runtime: Runtime, recorded: set<Consensus.Fetched>, raws: seq<RawTransaction>, signature: Text,
      row: SignatureRow, snapshot: Option<Text>)
    requires row.rawTransactionId.Some? <==> snapshot.Some?
    requires row.rawTransactionId.Some? ==>
      row.rawTransactionId.value < |raws| && raws[row.rawTransactionId.value].digest == snapshot.value && raws[row.rawTransactionId.value].signature == signature
    ensures EvidenceSound(runtime, recorded, raws, signature, row)
      <==> OfOne(runtime, recorded, snapshot, row.parseDigest)
  {
  }
}
