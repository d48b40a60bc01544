/**
 What a backfill run makes of the transactions it gets: the class of each signature, the events in
 the book, and the counters and flags it ends with.
 */
module BackfillMeaning {
  import opened Wrappers
  import opened Texts
  import opened Transactions
  import opened TransferParser
  import opened ParsingDigest
  import opened EvidenceTables
  import opened RepresentationStore
  import opened RepresentationReplay
  import opened RecordingMeaning
  import opened Discovery
  import opened Envelope
  import opened Backfill
  import opened BackfillHistory
  import opened BackfillReplay
  import opened LateEntries
  import Sorting
  import Consensus = FinalizedConsensus
  import CanonicalJson

  // ------------------------------------------------------------------ one signature

  /** The provider's transaction or the address history says that it failed. */
  predicate Failed(entry: AddressSignature, tx: Transaction) {
    tx.meta.err != CanonicalJson.Null || entry.err != CanonicalJson.Null
  }

  /** What the parser makes of a transaction for a target. */
  function ParseFor(runtime: Runtime, target: WatchTarget, tx: Transaction): Result<seq<ParsedTransfer>, Unsupported> {
    ParseTransactionTransfers(tx, runtime.base58, Some(target.address))
  }

  /** The class a transaction calls for. */
  predicate ClassFor(runtime: Runtime, target: WatchTarget, entry: AddressSignature, tx: Transaction,
      classification: Class) {
    && (classification == FailedTransaction <==> Failed(entry, tx))
    && (classification == Quarantined <==> !Failed(entry, tx) && ParseFor(runtime, target, tx).Err?)
    && (classification == Parsed <==>
          !Failed(entry, tx) && ParseFor(runtime, target, tx).Ok? && |ParseFor(runtime, target, tx).value| > 0)
    && (classification == Irrelevant <==>
          !Failed(entry, tx) && ParseFor(runtime, target, tx).Ok? && |ParseFor(runtime, target, tx).value| == 0)
  }

  /** Nothing is stored yet under the signature, at its places or under the ids of its transfers. */
  ghost predicate Unheard(t: Tables, runtime: Runtime, target: WatchTarget, entry: AddressSignature, tx: Transaction) {
    && RowKey(target.id, entry.signature) !in t.rows
    && (forall i :: 0 <= i < |t.raws| ==> t.raws[i].signature != entry.signature)
    && (forall id :: id in t.book.events ==> t.book.events[id].signature != entry.signature)
    && (ParseFor(runtime, target, tx).Ok? ==>
          forall k :: 0 <= k < |ParseFor(runtime, target, tx).value| ==> ParseFor(runtime, target, tx).value[k].eventId !in t.book.events)
  }

  /** The raw transaction a provider's answer is kept as. */
  function KeptRaw(runtime: Runtime, target: WatchTarget, entry: AddressSignature,
      f: Consensus.Fetched): RawTransaction {
    RawTransaction(target.providerId, entry.signature, f.tx.commitment, Digest(f.body, runtime.sha256))
  }

  /** All transfers of the transaction are in the book. */
  ghost predicate InBook(t: Tables, runtime: Runtime, target: WatchTarget, entry: AddressSignature, version: Text,
      f: Consensus.Fetched) {
    ParseFor(runtime, target, f.tx).Ok? ==>
      forall k :: 0 <= k < |ParseFor(runtime, target, f.tx).value| ==>
        StoredAs(t.book, t.raws, KeptRaw(runtime, target, entry, f), f.tx.cluster, version, ParseFor(runtime, target, f.tx).value[k])
  }

  /** Both recordings go through. */
  predicate GoesThrough(answer: EntryAnswer) { answer.discovery.Acknowledged? && answer.classification.Commits() }

  /** The input that classifies a transaction, as the store takes it. */
  predicate InputFor(runtime: Runtime, target: WatchTarget, entry: AddressSignature, version: Text,
      f: Consensus.Fetched, input: Input) {
    && input.providerId == target.providerId && input.watchTargetId == target.id && input.discovered == entry
    && input.snapshot == Some(Digest(f.body, runtime.sha256)) && input.transaction == Some(f.tx)
    && input.parserVersion == version
    && ClassFor(runtime, target, entry, f.tx, input.classification)
    && (input.classification == Parsed ==> input.transfers == ParseFor(runtime, target, f.tx).value)
    && (input.classification != Parsed ==> input.transfers == [])
    && (input.classification == Quarantined ==> input.quarantineCode == Some(RpcTransactionSchemaInvalid))
  }

  lemma ClassInputFor(runtime: Runtime, target: WatchTarget, entry: AddressSignature, version: Text,
      answer: EntryAnswer, f: Consensus.Fetched)
    requires answer.transaction == Ok(Some(f))
    ensures ClassInput(runtime, target, entry, version, answer).Some?
    ensures InputFor(runtime, target, entry, version, f, ClassInput(runtime, target, entry, version, answer).value)
  {
  }

  /** A discovery leaves everything as it was, but for a pending row. */
  lemma DiscoveryMeans(t: Tables, runtime: Runtime, target: WatchTarget, entry: AddressSignature, version: Text)
    requires RowKey(target.id, entry.signature) !in t.rows
    ensures var (u, result) := AfterRepresentation(t, runtime, PendingInput(target, entry, version));
      var key := RowKey(target.id, entry.signature);
      && result.Ok? && u.raws == t.raws && u.book == t.book && u.quarantines == t.quarantines
      && key in u.rows && u.rows == t.rows[key := u.rows[key]]
      && u.rows[key].slot == entry.slot && u.rows[key].classification == Pending && u.rows[key].state == Detected
      && u.rows[key].rawTransactionId.None? && u.rows[key].parseDigest.None?
  {
    var input := PendingInput(target, entry, version);
    assert AfterRepresentation(t, runtime, input).1.Ok?;
    DecisionMeans(t, input);
    NewRowMeans(t, runtime, input);
  }

  /** Nothing contradicts the first transaction of an unheard signature. */
  lemma UnheardIsUncontradicted(t: Tables, u: Tables, runtime: Runtime, target: WatchTarget, entry: AddressSignature,
      version: Text,
      f: Consensus.Fetched, input: Input)
    requires Unheard(t, runtime, target, entry, f.tx) && InputFor(runtime, target, entry, version, f, input)
    requires u.raws == t.raws && u.book == t.book && OwnTransfers(input)
    requires var key := RowKey(target.id, entry.signature); key in u.rows ==> u.rows[key].slot == entry.slot
    ensures Decide(u, input) == Decision(input.classification, input.quarantineCode)
  {
    DecisionMeans(u, input);
  }

  /** What the classifying recording of an unheard signature stores. */
  lemma ClassStored(t: Tables, u: Tables, runtime: Runtime, target: WatchTarget, entry: AddressSignature, version: Text,
      f: Consensus.Fetched, input: Input)
    requires Unheard(t, runtime, target, entry, f.tx) && InputFor(runtime, target, entry, version, f, input)
    requires u.raws == t.raws && u.book == t.book && OwnTransfers(input) && BookSound(t.book)
    requires var key := RowKey(target.id, entry.signature);
      key in u.rows && u.rows[key].slot == entry.slot && u.rows[key].classification == Pending && u.rows[key].state == Detected
    ensures var (v, result) := AfterRepresentation(u, runtime, input);
      var key := RowKey(target.id, entry.signature);
      && result.Ok? && key in v.rows && v.rows[key].classification == input.classification
      && (input.classification == Parsed ==> InBook(v, runtime, target, entry, version, f))
  {
    NeverRefused(u, runtime, input);
    UnheardIsUncontradicted(t, u, runtime, target, entry, version, f, input);
    KnownRowMeans(u, runtime, input);
    if input.classification == Parsed {
      TransfersStored(u, runtime, input);
      var v := AfterRepresentation(u, runtime, input).0;
      forall k | 0 <= k < |input.transfers|
        ensures StoredAs(v.book, v.raws, KeptRaw(runtime, target, entry, f), f.tx.cluster, version, input.transfers[k])
      {
        assert OnlyOnce(input.transfers, k);
        assert input.transfers[k].eventId !in u.book.events;
      }
    }
  }

  lemma StepGoesThrough(t: Tables, runtime: Runtime, input: Input, storing: Storing)
    requires AfterRepresentation(t, runtime, input).1.Ok? && storing.Commits()
    ensures Attempt(t, runtime, input, storing).0 == AfterRepresentation(t, runtime, input).0
    ensures Attempt(t, runtime, input, storing).1.Some? <==> storing.Acknowledged?
  {
  }

  /** Two recordings that go through, one after the other. */
  lemma EntrySteps(run: Run, runtime: Runtime, target: WatchTarget, version: Text, entry: AddressSignature,
      answer: EntryAnswer, input: Input)
    requires GoesThrough(answer) && ClassInput(runtime, target, entry, version, answer) == Some(input)
    requires AfterRepresentation(run.tables, runtime, PendingInput(target, entry, version)).1.Ok?
    requires var mid := AfterRepresentation(run.tables, runtime, PendingInput(target, entry, version)).0;
      AfterRepresentation(mid, runtime, input).1.Ok?
    ensures var mid := AfterRepresentation(run.tables, runtime, PendingInput(target, entry, version)).0;
      ProcessEntry(run, runtime, target, version, entry, answer).tables == AfterRepresentation(mid, runtime, input).0
  {
    StepGoesThrough(run.tables, runtime, PendingInput(target, entry, version), answer.discovery);
    var mid := ProcessPending(run, runtime, PendingInput(target, entry, version), answer.discovery).0;
    StepGoesThrough(mid.tables, runtime, input, answer.classification);
  }

  /**
   A signature of which nothing is stored yet, whose recordings go through, gets exactly the class
   its transaction calls for; and if that is parsed, every transfer of it is in the book.
   */
  lemma EntryMeans(run: Run, runtime: Runtime, target: WatchTarget, version: Text, entry: AddressSignature,
      answer: EntryAnswer, f: Consensus.Fetched)
    requires answer.transaction == Ok(Some(f)) && GoesThrough(answer) && FromAdapter(entry, answer)
    requires BookSound(run.tables.book) && Unheard(run.tables, runtime, target, entry, f.tx)
    ensures var u, key := ProcessEntry(run, runtime, target, version, entry, answer).tables, RowKey(target.id, entry.signature);
      && key in u.rows && ClassFor(runtime, target, entry, f.tx, u.rows[key].classification)
      && (u.rows[key].classification == Parsed ==> InBook(u, runtime, target, entry, version, f))
  {
    DiscoveryMeans(run.tables, runtime, target, entry, version);
    ClassInputFor(runtime, target, entry, version, answer, f);
    AdapterIsOwn(runtime, target, version, entry, answer);
    var mid := AfterRepresentation(run.tables, runtime, PendingInput(target, entry, version)).0;
    var input := ClassInput(runtime, target, entry, version, answer).value;
    ClassStored(run.tables, mid, runtime, target, entry, version, f, input);
    EntrySteps(run, runtime, target, version, entry, answer, input);
  }

  /** The transaction may still come. */
  predicate Waits(answer: EntryAnswer) {
    || answer.transaction == Ok(None)
    || (answer.transaction.Err? && answer.transaction.error.Ingestion? && answer.transaction.error.retryable)
  }

  /** The provider has no transaction yet: the signature stays pending, and blocks the run. */
  lemma WaitingMeans(run: Run, runtime: Runtime, target: WatchTarget, version: Text, entry: AddressSignature,
      answer: EntryAnswer)
    requires RowKey(target.id, entry.signature) !in run.tables.rows && GoesThrough(answer) && Waits(answer)
    ensures var after, key := ProcessEntry(run, runtime, target, version, entry, answer), RowKey(target.id, entry.signature);
      && key in after.tables.rows && after.tables.rows[key].classification == Pending && after.blocked
      && after.tables.book == run.tables.book && after.tables.raws == run.tables.raws
  {
    DiscoveryMeans(run.tables, runtime, target, entry, version);
  }

  /** The provider refuses for good: the signature is quarantined, with nothing put in the book. */
  lemma RefusedMeans(run: Run, runtime: Runtime, target: WatchTarget, version: Text, entry: AddressSignature,
      answer: EntryAnswer)
    requires RowKey(target.id, entry.signature) !in run.tables.rows && GoesThrough(answer)
    requires answer.transaction.Err? && !Waits(answer)
    ensures var after, key := ProcessEntry(run, runtime, target, version, entry, answer), RowKey(target.id, entry.signature);
      && key in after.tables.rows && after.tables.rows[key].classification == Quarantined
      && (!run.blocked && answer.classification.Acknowledged? ==> !after.blocked)
      && after.tables.book == run.tables.book && after.tables.raws == run.tables.raws
  {
    DiscoveryMeans(run.tables, runtime, target, entry, version);
    var mid := AfterRepresentation(run.tables, runtime, PendingInput(target, entry, version)).0;
    var input := ClassInput(runtime, target, entry, version, answer).value;
    assert AfterRepresentation(mid, runtime, input).1.Ok?;
    DecisionMeans(mid, input);
    KnownRowMeans(mid, runtime, input);
    EntrySteps(run, runtime, target, version, entry, answer, input);
  }

  /** The provider has no transaction, or an error: the class waits, or the signature is quarantined. */
  lemma OtherAnswersMean(run: Run, runtime: Runtime, target: WatchTarget, version: Text, entry: AddressSignature,
      answer: EntryAnswer)
    requires RowKey(target.id, entry.signature) !in run.tables.rows && GoesThrough(answer)
    requires answer.transaction.Err? || answer.transaction.value.None?
    ensures var after, key := ProcessEntry(run, runtime, target, version, entry, answer), RowKey(target.id, entry.signature);
      && key in after.tables.rows
      && after.tables.rows[key].classification == (if Waits(answer) then Pending else Quarantined)
      && (Waits(answer) ==> after.blocked)
      && (!Waits(answer) && !run.blocked && answer.classification.Acknowledged? ==> !after.blocked)
      && after.tables.book == run.tables.book && after.tables.raws == run.tables.raws
  {
    if Waits(answer) {
      WaitingMeans(run, runtime, target, version, entry, answer);
    } else {
      RefusedMeans(run, runtime, target, version, entry, answer);
    }
  }

  // ------------------------------------------------------------------ counters and flags

  /** The provider refuses for good, or its transaction cannot be parsed. */
  predicate CannotRepresent(runtime: Runtime, target: WatchTarget, entry: AddressSignature, answer: EntryAnswer) {
    if answer.transaction.Err? then !Waits(answer) && answer.classification.Acknowledged?
    else
      && answer.transaction.value.Some?
      && !Failed(entry, answer.transaction.value.value.tx) && ParseFor(runtime, target, answer.transaction.value.value.tx).Err?
  }

  /** A recording of one transaction's own transfers is acknowledged whenever the answer is. */
  lemma Acknowledges(t: Tables, runtime: Runtime, input: Input, storing: Storing)
    requires OwnTransfers(input)
    ensures Attempt(t, runtime, input, storing).1.Some? <==> storing.Acknowledged?
  {
    NeverRefused(t, runtime, input);
  }

  lemma ClassFlags(run: Run, runtime: Runtime, target: WatchTarget, version: Text, entry: AddressSignature,
      answer: EntryAnswer, input: Input)
    requires ClassInput(runtime, target, entry, version, answer) == Some(input)
    requires Attempt(run.tables, runtime, input, answer.classification).1.Some? <==> answer.classification.Acknowledged?
    ensures var after := ProcessClass(run, runtime, input, answer.classification);
      && (after.blocked <==> run.blocked || !answer.classification.Acknowledged?)
      && (after.hasQuarantine <==> (run.hasQuarantine || CannotRepresent(runtime, target, entry, answer)))
  {
  }

  lemma DiscoveryFlags(run: Run, runtime: Runtime, target: WatchTarget, version: Text, entry: AddressSignature,
      storing: Storing)
    ensures var (after, taken) := ProcessPending(run, runtime, PendingInput(target, entry, version), storing);
      && (taken <==> storing.Acknowledged?)
      && (after.blocked <==> run.blocked || !storing.Acknowledged?) && after.hasQuarantine == run.hasQuarantine
  {
    Acknowledges(run.tables, runtime, PendingInput(target, entry, version), storing);
  }

  /**
   A signature blocks the run unless both recordings are acknowledged; what cannot be represented
   makes it incomplete.
   */
  lemma FlagsMean(run: Run, runtime: Runtime, target: WatchTarget, version: Text, entry: AddressSignature,
      answer: EntryAnswer)
    requires FromAdapter(entry, answer)
    ensures var after := ProcessEntry(run, runtime, target, version, entry, answer);
      && (after.blocked <==> run.blocked || !answer.discovery.Acknowledged? || Waits(answer) || !answer.classification.Acknowledged?)
      && (after.hasQuarantine <==>
            (run.hasQuarantine || (answer.discovery.Acknowledged? && CannotRepresent(runtime, target, entry, answer))))
  {
    DiscoveryFlags(run, runtime, target, version, entry, answer.discovery);
    if answer.discovery.Acknowledged? && ClassInput(runtime, target, entry, version, answer).Some? {
      var mid := ProcessPending(run, runtime, PendingInput(target, entry, version), answer.discovery).0;
      var input := ClassInput(runtime, target, entry, version, answer).value;
      AdapterIsOwn(runtime, target, version, entry, answer);
      Acknowledges(mid.tables, runtime, input, answer.classification);
      ClassFlags(mid, runtime, target, version, entry, answer, input);
    }
  }

  function EventCount(t: Tables): nat { |t.book.events.Keys| }

  /** The counters count what is acknowledged to have been added: new rows, new events and new quarantines. */
  lemma AttemptAdds(t: Tables, runtime: Runtime, input: Input, storing: Storing)
    ensures var (u, recorded) := Attempt(t, runtime, input, storing);
      recorded.Some? ==>
        && (recorded.value.signatureInserted <==> KeyOf(input) !in t.rows)
        && EventCount(u) == EventCount(t) + recorded.value.eventsInserted
        && |u.quarantines| == |t.quarantines| + One(recorded.value.quarantineInserted)
  {
    if AfterRepresentation(t, runtime, input).1.Ok? {
      AnswerMeans(t, runtime, input);
      QuarantinesMean(t, runtime, input);
    }
  }

  lemma ClassAdds(run: Run, runtime: Runtime, input: Input, storing: Storing)
    ensures var after := ProcessClass(run, runtime, input, storing);
      Attempt(run.tables, runtime, input, storing).1.Some? ==>
        && after.eventsStored - run.eventsStored == EventCount(after.tables) - EventCount(run.tables)
        && after.quarantinesCreated - run.quarantinesCreated == |after.tables.quarantines| - |run.tables.quarantines|
  {
    AttemptAdds(run.tables, runtime, input, storing);
  }

  /** What a signature adds to the counters of a run in which every answer arrives. */
  lemma CountersMean(run: Run, runtime: Runtime, target: WatchTarget, version: Text, entry: AddressSignature,
      answer: EntryAnswer)
    requires answer.discovery.Acknowledged? && answer.classification.Acknowledged? && !Waits(answer)
    requires RowKey(target.id, entry.signature) !in run.tables.rows && FromAdapter(entry, answer)
    ensures var after := ProcessEntry(run, runtime, target, version, entry, answer);
      && after.eventsStored - run.eventsStored == EventCount(after.tables) - EventCount(run.tables)
      && after.quarantinesCreated - run.quarantinesCreated == |after.tables.quarantines| - |run.tables.quarantines|
  {
    DiscoveryMeans(run.tables, runtime, target, entry, version);
    var mid := ProcessPending(run, runtime, PendingInput(target, entry, version), answer.discovery).0;
    var input := ClassInput(runtime, target, entry, version, answer).value;
    AdapterIsOwn(runtime, target, version, entry, answer);
    Acknowledges(mid.tables, runtime, input, answer.classification);
    ClassAdds(mid, runtime, input, answer.classification);
  }

  // ------------------------------------------------------------------ a whole run

  predicate NoColon(t: Text) { forall i :: 0 <= i < |t| ==> t[i] != COLON }

  lemma FirstColon(a: Text, b: Text, x: Text, y: Text)
    requires NoColon(a) && NoColon(b) && a + ([COLON] + x) == b + ([COLON] + y)
    ensures a == b && x == y
  {
    var l, r := a + ([COLON] + x), b + ([COLON] + y);
    assert l[|a|] == COLON && r[|b|] == COLON;
    assert forall i :: 0 <= i < |a| ==> l[i] == a[i];
    assert forall i :: 0 <= i < |b| ==> r[i] == b[i];
    assert |a| == |b|;
    assert a == l[..|a|] && b == r[..|b|];
    assert x == l[|a| + 1..] && y == r[|b| + 1..];
  }

  function Place(m: nat, i: Option<nat>): Text {
    Decimal(m) + ([COLON] + (if i.Some? then Decimal(i.value) else Ascii("outer")))
  }

  lemma IdSplits(c: Text, s: Text, m: nat, i: Option<nat>)
    ensures EventId(c, s, m, i) == c + ([COLON] + (s + ([COLON] + Place(m, i))))
  {
    var l, k := EventId(c, s, m, i), c + ([COLON] + (s + ([COLON] + Place(m, i))));
    assert |l| == |k|;
  }

  /** The id of an event names its signature. */
  lemma IdNamesSignature(c: Text, s: Text, m: nat, i: Option<nat>, d: Text, u: Text, n: nat, j: Option<nat>)
    requires NoColon(c) && NoColon(s) && NoColon(d) && NoColon(u) && EventId(c, s, m, i) == EventId(d, u, n, j)
    ensures s == u
  {
    IdSplits(c, s, m, i);
    IdSplits(d, u, n, j);
    FirstColon(c, d, s + ([COLON] + Place(m, i)), u + ([COLON] + Place(n, j)));
    FirstColon(s, u, Place(m, i), Place(n, j));
  }

  /** The id is one of an event of the signature. */
  ghost predicate IdOf(id: Text, signature: Text) {
    exists c, m, i :: NoColon(c) && id == EventId(c, signature, m, i)
  }

  /** Only what belongs to the signature is added or changed. */
  ghost predicate OnlyFor(t: Tables, u: Tables, signature: Text) {
    && t.raws <= u.raws && (forall i :: |t.raws| <= i < |u.raws| ==> u.raws[i].signature == signature)
    && (forall id :: id in t.book.events && t.book.events[id].signature != signature ==> SameEvent(t.book, u.book, id))
    && (forall id :: id in t.book.events ==> id in u.book.events && u.book.events[id].signature == t.book.events[id].signature)
    && (forall id :: id in u.book.events && id !in t.book.events ==> u.book.events[id].signature == signature && IdOf(id, signature))
  }

  lemma OnlyForTransitive(t: Tables, u: Tables, v: Tables, signature: Text)
    requires OnlyFor(t, u, signature) && OnlyFor(u, v, signature)
    ensures OnlyFor(t, v, signature)
  {
    forall id | id in t.book.events && t.book.events[id].signature != signature ensures SameEvent(t.book, v.book, id) {
      assert SameEvent(t.book, u.book, id) && SameEvent(u.book, v.book, id);
    }
  }

  lemma TouchedIsSame(a: Book, b: Book, signature: Text, id: Text)
    requires OnlyTouches(a, b, signature) && id in a.events && a.events[id].signature != signature
    ensures SameEvent(a, b, id)
  {
    forall key: NormalizedKey | key.eventId == id
      ensures key in a.normalized <==> key in b.normalized
      ensures key in a.normalized ==> a.normalized[key] == b.normalized[key]
    {
      assert AgreeOn(a, b, id, key.parserVersion);
      assert key == NormalizedKey(id, key.parserVersion);
    }
    assert AgreeOn(a, b, id, []);
  }

  lemma NewIds(t: Tables, input: Input, id: Text)
    requires OwnTransfers(input) && (input.transaction.Some? ==> NoColon(input.transaction.value.cluster))
    requires EventsAfter(t, input).Ok? && id in EventsAfter(t, input).value.0.events && id !in t.book.events
    ensures IdOf(id, input.discovered.signature)
  {
    if HasBody(input) && Decide(t, input).classification == Parsed {
      var cluster := input.transaction.value.cluster;
      InsertsGoThrough(t.book, cluster, RawIdAfter(t.raws, input).value, input.parserVersion, input.transfers);
      var k :| 0 <= k < |input.transfers| && id == input.transfers[k].eventId;
      var x := input.transfers[k];
      assert id == EventId(cluster, input.discovered.signature, x.outerInstructionIndex, x.innerInstructionIndex);
    }
  }

  lemma RecordingOnlyFor(t: Tables, runtime: Runtime, input: Input)
    requires BookSound(t.book) && OwnTransfers(input) && AfterRepresentation(t, runtime, input).1.Ok?
    requires input.transaction.Some? ==> NoColon(input.transaction.value.cluster)
    ensures var u := AfterRepresentation(t, runtime, input).0; OnlyFor(t, u, input.discovered.signature) && BookSound(u.book)
  {
    RawsMean(t, runtime, input);
    BookOnlyFor(t, input);
  }

  lemma BookOnlyFor(t: Tables, input: Input)
    requires BookSound(t.book) && OwnTransfers(input) && EventsAfter(t, input).Ok?
    requires input.transaction.Some? ==> NoColon(input.transaction.value.cluster)
    ensures OnlyFor(t, t.(book := EventsAfter(t, input).value.0), input.discovered.signature)
    ensures BookSound(EventsAfter(t, input).value.0)
  {
    RecordingTouches(t, input);
    var u, signature := t.(book := EventsAfter(t, input).value.0), input.discovered.signature;
    forall id | id in t.book.events && t.book.events[id].signature != signature ensures SameEvent(t.book, u.book, id) {
      TouchedIsSame(t.book, u.book, signature, id);
    }
    forall id | id in u.book.events && id !in t.book.events ensures IdOf(id, signature) {
      NewIds(t, input, id);
    }
  }

  lemma NothingOnlyFor(t: Tables, signature: Text)
    ensures OnlyFor(t, t, signature)
  {
  }

  lemma AttemptOnlyFor(t: Tables, runtime: Runtime, input: Input, storing: Storing)
    requires BookSound(t.book) && OwnTransfers(input)
    requires input.transaction.Some? ==> NoColon(input.transaction.value.cluster)
    ensures var u := Attempt(t, runtime, input, storing).0; OnlyFor(t, u, input.discovered.signature) && BookSound(u.book)
  {
    NeverRefused(t, runtime, input);
    RecordingOnlyFor(t, runtime, input);
    NothingOnlyFor(t, input.discovered.signature);
  }

  /** A transaction as the adapter returns it for the signature, without a colon in its names. */
  predicate Clean(entry: AddressSignature, answer: EntryAnswer) {
    && FromAdapter(entry, answer) && NoColon(entry.signature)
    && (answer.transaction.Ok? && answer.transaction.value.Some? ==> NoColon(answer.transaction.value.value.tx.cluster))
  }

  lemma EntryOnlyFor(run: Run, runtime: Runtime, target: WatchTarget, version: Text, entry: AddressSignature,
      answer: EntryAnswer)
    requires BookSound(run.tables.book) && Clean(entry, answer)
    ensures var u := ProcessEntry(run, runtime, target, version, entry, answer).tables;
      OnlyFor(run.tables, u, entry.signature) && BookSound(u.book)
  {
    AttemptOnlyFor(run.tables, runtime, PendingInput(target, entry, version), answer.discovery);
    var (mid, stored) := ProcessPending(run, runtime, PendingInput(target, entry, version), answer.discovery);
    var next := ClassInput(runtime, target, entry, version, answer);
    if stored && next.Some? {
      ClassInputIsFinal(runtime, target, entry, version, answer);
      AdapterIsOwn(runtime, target, version, entry, answer);
      AttemptOnlyFor(mid.tables, runtime, next.value, answer.classification);
      OnlyForTransitive(run.tables, mid.tables, ProcessClass(mid, runtime, next.value, answer.classification).tables,
        entry.signature);
    }
  }

  lemma EntryKeepsSound(run: Run, runtime: Runtime, target: WatchTarget, version: Text, entry: AddressSignature,
      answer: EntryAnswer)
    requires BookSound(run.tables.book) && Clean(entry, answer)
    ensures BookSound(ProcessEntry(run, runtime, target, version, entry, answer).tables.book)
  {
    EntryOnlyFor(run, runtime, target, version, entry, answer);
  }

  /** Another signature stays unheard. */
  lemma StaysUnheard(run: Run, runtime: Runtime, target: WatchTarget, version: Text, entry: AddressSignature,
      answer: EntryAnswer,
      other: AddressSignature, tx: Transaction)
    requires BookSound(run.tables.book) && Clean(entry, answer) && other.signature != entry.signature
    requires Accepted(tx) && tx.signature == other.signature && NoColon(other.signature) && NoColon(tx.cluster)
    requires Unheard(run.tables, runtime, target, other, tx)
    ensures Unheard(ProcessEntry(run, runtime, target, version, entry, answer).tables, runtime, target, other, tx)
  {
    EntryOnlyFor(run, runtime, target, version, entry, answer);
    OtherClassKept(run, runtime, target, version, entry, answer, other.signature);
    UnheardElsewhere(run.tables, ProcessEntry(run, runtime, target, version, entry, answer).tables, runtime, target,
      entry.signature, other, tx);
  }

  lemma UnheardElsewhere(t: Tables, u: Tables, runtime: Runtime, target: WatchTarget, signature: Text,
      other: AddressSignature, tx: Transaction)
    requires OnlyFor(t, u, signature) && NoColon(signature) && other.signature != signature
    requires Accepted(tx) && tx.signature == other.signature && NoColon(other.signature) && NoColon(tx.cluster)
    requires Unheard(t, runtime, target, other, tx) && RowKey(target.id, other.signature) !in u.rows
    ensures Unheard(u, runtime, target, other, tx)
  {
    if ParseFor(runtime, target, tx).Ok? {
      TransfersAreOwn(tx, runtime.base58, Some(target.address));
      var ts := ParseFor(runtime, target, tx).value;
      forall k | 0 <= k < |ts| ensures ts[k].eventId !in u.book.events {
        NotAnothers(u, t, signature, tx, ts[k]);
      }
    }
  }

  /** A transfer's id is not that of an event of another signature. */
  lemma NotAnothers(u: Tables, t: Tables, signature: Text, tx: Transaction, x: ParsedTransfer)
    requires OnlyFor(t, u, signature) && NoColon(signature) && tx.signature != signature && NoColon(tx.signature)
    requires NoColon(tx.cluster)
    requires x.eventId == EventId(tx.cluster, tx.signature, x.outerInstructionIndex, x.innerInstructionIndex)
    requires x.eventId !in t.book.events
    ensures x.eventId !in u.book.events
  {
    if x.eventId in u.book.events {
      var c, m, i :| NoColon(c) && x.eventId == EventId(c, signature, m, i);
      IdNamesSignature(tx.cluster, tx.signature, x.outerInstructionIndex, x.innerInstructionIndex, c, signature, m, i);
    }
  }

  /** What is stored for a transfer of another signature stays. */
  lemma StaysStored(t: Tables, u: Tables, signature: Text, raw: RawTransaction, cluster: Cluster, version: Text,
      x: ParsedTransfer)
    requires OnlyFor(t, u, signature) && x.signature != signature && StoredAs(t.book, t.raws, raw, cluster, version, x)
    ensures StoredAs(u.book, u.raws, raw, cluster, version, x)
  {
    assert SameEvent(t.book, u.book, x.eventId);
    assert forall r :: HasReference(u.book, x.eventId, r) <==> HasReference(t.book, x.eventId, r);
  }

  lemma StaysInBook(t: Tables, u: Tables, runtime: Runtime, target: WatchTarget, signature: Text,
      entry: AddressSignature, version: Text, f: Consensus.Fetched)
    requires OnlyFor(t, u, signature) && entry.signature != signature && Accepted(f.tx)
    requires f.tx.signature == entry.signature
    requires InBook(t, runtime, target, entry, version, f)
    ensures InBook(u, runtime, target, entry, version, f)
  {
    if ParseFor(runtime, target, f.tx).Ok? {
      TransfersAreOwn(f.tx, runtime.base58, Some(target.address));
      var ts := ParseFor(runtime, target, f.tx).value;
      forall k | 0 <= k < |ts|
        ensures StoredAs(u.book, u.raws, KeptRaw(runtime, target, entry, f), f.tx.cluster, version, ts[k])
      {
        StaysStored(t, u, signature, KeptRaw(runtime, target, entry, f), f.tx.cluster, version, ts[k]);
      }
    }
  }

  /** The provider returned a transaction for the signature. */
  predicate Brought(answer: EntryAnswer) { answer.transaction.Ok? && answer.transaction.value.Some? }

  /** Every transaction is clean, and nothing is stored of its signature. */
  ghost predicate AllNew(t: Tables, runtime: Runtime, target: WatchTarget, entries: seq<AddressSignature>,
      answers: seq<EntryAnswer>)
    requires |entries| == |answers|
  {
    forall i :: 0 <= i < |entries| ==>
      && Clean(entries[i], answers[i])
      && (Brought(answers[i]) ==> Unheard(t, runtime, target, entries[i], answers[i].transaction.value.value.tx))
  }

  /**
   The signature has the class its transaction calls for, and if that is parsed, all its transfers
   are in the book.
   */
  ghost predicate Represented(t: Tables, runtime: Runtime, target: WatchTarget, entry: AddressSignature, version: Text,
      f: Consensus.Fetched) {
    var key := RowKey(target.id, entry.signature);
    && key in t.rows && ClassFor(runtime, target, entry, f.tx, t.rows[key].classification)
    && (t.rows[key].classification == Parsed ==> InBook(t, runtime, target, entry, version, f))
  }

  ghost predicate AllRepresented(t: Tables, runtime: Runtime, target: WatchTarget, version: Text,
      entries: seq<AddressSignature>, answers: seq<EntryAnswer>)
    requires |entries| == |answers|
  {
    forall i :: 0 <= i < |entries| && Brought(answers[i]) ==>
      Represented(t, runtime, target, entries[i], version, answers[i].transaction.value.value)
  }

  lemma StaysRepresented(run: Run, runtime: Runtime, target: WatchTarget, version: Text, entry: AddressSignature,
      answer: EntryAnswer,
      other: AddressSignature, f: Consensus.Fetched)
    requires BookSound(run.tables.book) && Clean(entry, answer) && other.signature != entry.signature
    requires Accepted(f.tx) && f.tx.signature == other.signature
    requires Represented(run.tables, runtime, target, other, version, f)
    ensures Represented(ProcessEntry(run, runtime, target, version, entry, answer).tables, runtime, target, other, version, f)
  {
    EntryOnlyFor(run, runtime, target, version, entry, answer);
    OtherClassKept(run, runtime, target, version, entry, answer, other.signature);
    var u := ProcessEntry(run, runtime, target, version, entry, answer).tables;
    if run.tables.rows[RowKey(target.id, other.signature)].classification == Parsed {
      StaysInBook(run.tables, u, runtime, target, entry.signature, other, version, f);
    }
  }

  /** The transaction of another signature, of which nothing is stored. */
  ghost predicate Awaited(t: Tables, runtime: Runtime, target: WatchTarget, other: AddressSignature, tx: Transaction) {
    && BookSound(t.book) && Accepted(tx) && tx.signature == other.signature && NoColon(other.signature) && NoColon(tx.cluster)
    && Unheard(t, runtime, target, other, tx)
  }

  lemma StaysAwaited(run: Run, runtime: Runtime, target: WatchTarget, version: Text, entry: AddressSignature,
      answer: EntryAnswer,
      other: AddressSignature, tx: Transaction)
    requires Clean(entry, answer) && other.signature != entry.signature
    requires Awaited(run.tables, runtime, target, other, tx)
    ensures Awaited(ProcessEntry(run, runtime, target, version, entry, answer).tables, runtime, target, other, tx)
  {
    EntryKeepsSound(run, runtime, target, version, entry, answer);
    StaysUnheard(run, runtime, target, version, entry, answer, other, tx);
  }

  predicate CleanOthers(entries: seq<AddressSignature>, answers: seq<EntryAnswer>, other: AddressSignature)
    requires |entries| == |answers|
  {
    forall i :: 0 <= i < |entries| ==> Clean(entries[i], answers[i]) && entries[i].signature != other.signature
  }

  /** One state of a run after another. */
  lemma AwaitedNext(run: Run, runtime: Runtime, target: WatchTarget, version: Text, entries: seq<AddressSignature>,
      answers: seq<EntryAnswer>, i: nat, other: AddressSignature, tx: Transaction)
    requires |entries| == |answers| && i < |entries| && CleanOthers(entries, answers, other)
    requires Awaited(States(run, runtime, target, version, entries, answers)[i].tables, runtime, target, other, tx)
    ensures Awaited(States(run, runtime, target, version, entries, answers)[i + 1].tables, runtime, target, other, tx)
  {
    var before := States(run, runtime, target, version, entries, answers)[i];
    OneMore(run, runtime, target, version, entries, answers, i);
    StaysAwaited(before, runtime, target, version, entries[i], answers[i], other, tx);
  }

  lemma {:induction false} AwaitedAlong(run: Run, runtime: Runtime, target: WatchTarget, version: Text,
      entries: seq<AddressSignature>,
      answers: seq<EntryAnswer>, n: nat, other: AddressSignature, tx: Transaction)
    requires |entries| == |answers| && n <= |entries| && CleanOthers(entries, answers, other)
    requires Awaited(States(run, runtime, target, version, entries, answers)[0].tables, runtime, target, other, tx)
    ensures Awaited(States(run, runtime, target, version, entries, answers)[n].tables, runtime, target, other, tx)
  {
    if n > 0 {
      AwaitedAlong(run, runtime, target, version, entries, answers, n - 1, other, tx);
      AwaitedNext(run, runtime, target, version, entries, answers, n - 1, other, tx);
    }
  }

  lemma RunKeepsAwaited(run: Run, runtime: Runtime, target: WatchTarget, version: Text, entries: seq<AddressSignature>,
      answers: seq<EntryAnswer>, other: AddressSignature, tx: Transaction)
    requires |entries| == |answers| && Awaited(run.tables, runtime, target, other, tx)
    requires CleanOthers(entries, answers, other)
    ensures Awaited(ProcessAll(run, runtime, target, version, entries, answers).tables, runtime, target, other, tx)
  {
    assert entries[..0] == [] && answers[..0] == [] && entries[..|entries|] == entries && answers[..|answers|] == answers;
    AwaitedAlong(run, runtime, target, version, entries, answers, |entries|, other, tx);
  }

  lemma SoundNext(run: Run, runtime: Runtime, target: WatchTarget, version: Text, entries: seq<AddressSignature>,
      answers: seq<EntryAnswer>, i: nat)
    requires |entries| == |answers| && i < |entries| && Clean(entries[i], answers[i])
    requires BookSound(States(run, runtime, target, version, entries, answers)[i].tables.book)
    ensures BookSound(States(run, runtime, target, version, entries, answers)[i + 1].tables.book)
  {
    OneMore(run, runtime, target, version, entries, answers, i);
    EntryKeepsSound(States(run, runtime, target, version, entries, answers)[i], runtime, target, version, entries[i],
      answers[i]);
  }

  lemma {:induction false} SoundAlong(run: Run, runtime: Runtime, target: WatchTarget, version: Text,
      entries: seq<AddressSignature>,
      answers: seq<EntryAnswer>, n: nat)
    requires |entries| == |answers| && n <= |entries| && forall i :: 0 <= i < |entries| ==> Clean(entries[i], answers[i])
    requires BookSound(States(run, runtime, target, version, entries, answers)[0].tables.book)
    ensures BookSound(States(run, runtime, target, version, entries, answers)[n].tables.book)
  {
    if n > 0 {
      SoundAlong(run, runtime, target, version, entries, answers, n - 1);
      SoundNext(run, runtime, target, version, entries, answers, n - 1);
    }
  }

  lemma RunKeepsSound(run: Run, runtime: Runtime, target: WatchTarget, version: Text, entries: seq<AddressSignature>,
      answers: seq<EntryAnswer>)
    requires |entries| == |answers| && BookSound(run.tables.book) && forall i :: 0 <= i < |entries| ==> Clean(entries[i], answers[i])
    ensures BookSound(ProcessAll(run, runtime, target, version, entries, answers).tables.book)
  {
    assert entries[..0] == [] && answers[..0] == [] && entries[..|entries|] == entries && answers[..|answers|] == answers;
    SoundAlong(run, runtime, target, version, entries, answers, |entries|);
  }

  /** The last signature of a run. */
  lemma LastRepresented(run: Run, before: Run, runtime: Runtime, target: WatchTarget, version: Text,
      entries: seq<AddressSignature>, answers: seq<EntryAnswer>)
    requires |entries| == |answers| > 0 && BookSound(run.tables.book) && DistinctSignatures(entries)
    requires AllNew(run.tables, runtime, target, entries, answers)
    requires var last := |entries| - 1;
      && before == ProcessAll(run, runtime, target, version, entries[..last], answers[..last])
      && Brought(answers[last]) && GoesThrough(answers[last])
    ensures var last := |entries| - 1;
      Represented(ProcessEntry(before, runtime, target, version, entries[last], answers[last]).tables, runtime, target,
        entries[last], version, answers[last].transaction.value.value)
  {
    var last := |entries| - 1;
    var f := answers[last].transaction.value.value;
    RunKeepsAwaited(run, runtime, target, version, entries[..last], answers[..last], entries[last], f.tx);
    EntryMeans(before, runtime, target, version, entries[last], answers[last], f);
  }

  lemma EarlierRepresented(before: Run, runtime: Runtime, target: WatchTarget, version: Text,
      entries: seq<AddressSignature>,
      answers: seq<EntryAnswer>, entry: AddressSignature, answer: EntryAnswer)
    requires |entries| == |answers| && BookSound(before.tables.book) && Clean(entry, answer)
    requires forall i :: 0 <= i < |entries| ==> Clean(entries[i], answers[i]) && entries[i].signature != entry.signature
    requires AllRepresented(before.tables, runtime, target, version, entries, answers)
    ensures AllRepresented(ProcessEntry(before, runtime, target, version, entry, answer).tables, runtime, target, version, entries, answers)
  {
    forall i | 0 <= i < |entries| && Brought(answers[i])
      ensures Represented(ProcessEntry(before, runtime, target, version, entry, answer).tables, runtime, target,
        entries[i], version, answers[i].transaction.value.value)
    {
      StaysRepresented(before, runtime, target, version, entry, answer, entries[i], answers[i].transaction.value.value);
    }
  }

  lemma OneMoreRepresented(t: Tables, runtime: Runtime, target: WatchTarget, version: Text,
      entries: seq<AddressSignature>, answers: seq<EntryAnswer>)
    requires |entries| == |answers| > 0
    requires AllRepresented(t, runtime, target, version, entries[..|entries| - 1], answers[..|entries| - 1])
    requires Brought(answers[|entries| - 1]) ==>
      Represented(t, runtime, target, entries[|entries| - 1], version, answers[|entries| - 1].transaction.value.value)
    ensures AllRepresented(t, runtime, target, version, entries, answers)
  {
    var last := |entries| - 1;
    assert forall i :: 0 <= i < last ==> entries[..last][i] == entries[i] && answers[..last][i] == answers[i];
  }

  ghost predicate AllGo(answers: seq<EntryAnswer>) {
    forall i :: 0 <= i < |answers| && Brought(answers[i]) ==> GoesThrough(answers[i])
  }

  lemma EarlierOnes(t: Tables, runtime: Runtime, target: WatchTarget, entries: seq<AddressSignature>,
      answers: seq<EntryAnswer>)
    requires |entries| == |answers| > 0 && DistinctSignatures(entries) && AllNew(t, runtime, target, entries, answers)
    requires AllGo(answers)
    ensures var last := |entries| - 1;
      && DistinctSignatures(entries[..last]) && AllNew(t, runtime, target, entries[..last], answers[..last]) && AllGo(answers[..last])
      && Clean(entries[last], answers[last])
      && forall i :: 0 <= i < last ==> Clean(entries[..last][i], answers[..last][i]) && entries[..last][i].signature != entries[last].signature
  {
    var last := |entries| - 1;
    assert forall i :: 0 <= i < last ==> entries[..last][i] == entries[i] && answers[..last][i] == answers[i];
  }

  /** One signature more. */
  lemma NextRepresented(run: Run, before: Run, after: Run, runtime: Runtime, target: WatchTarget, version: Text,
      entries: seq<AddressSignature>, answers: seq<EntryAnswer>)
    requires |entries| == |answers| > 0 && BookSound(run.tables.book) && DistinctSignatures(entries)
    requires AllNew(run.tables, runtime, target, entries, answers) && AllGo(answers)
    requires var last := |entries| - 1;
      && before == ProcessAll(run, runtime, target, version, entries[..last], answers[..last])
      && after == ProcessEntry(before, runtime, target, version, entries[last], answers[last])
      && AllRepresented(before.tables, runtime, target, version, entries[..last], answers[..last])
    ensures AllRepresented(after.tables, runtime, target, version, entries, answers)
  {
    var last := |entries| - 1;
    EarlierOnes(run.tables, runtime, target, entries, answers);
    RunKeepsSound(run, runtime, target, version, entries[..last], answers[..last]);
    if Brought(answers[last]) { LastRepresented(run, before, runtime, target, version, entries, answers); }
    EarlierRepresented(before, runtime, target, version, entries[..last], answers[..last], entries[last],
      answers[last]);
    OneMoreRepresented(after.tables, runtime, target, version, entries, answers);
  }

  /** A run over new signatures, whose recordings go through, represents each of their transactions as it is. */
  lemma {:induction false} RunRepresents(run: Run, runtime: Runtime, target: WatchTarget, version: Text,
      entries: seq<AddressSignature>, answers: seq<EntryAnswer>, after: Run)
    requires |entries| == |answers| && BookSound(run.tables.book) && DistinctSignatures(entries)
    requires AllNew(run.tables, runtime, target, entries, answers) && AllGo(answers)
    requires after == ProcessAll(run, runtime, target, version, entries, answers)
    ensures AllRepresented(after.tables, runtime, target, version, entries, answers)
    decreases |entries|
  {
    if entries != [] {
      var last := |entries| - 1;
      EarlierOnes(run.tables, runtime, target, entries, answers);
      var before := ProcessAll(run, runtime, target, version, entries[..last], answers[..last]);
      RunRepresents(run, runtime, target, version, entries[..last], answers[..last], before);
      NextRepresented(run, before, after, runtime, target, version, entries, answers);
    }
  }

  /**
   A run that moves the cursor over new signatures has represented every transaction on its agenda:
   each has exactly the class it calls for, and all transfers of the parsed ones are in the book.
   */
  lemma MovedRunRepresents(t: Tables, runtime: Runtime, target: WatchTarget, version: Text, answers: SyncAnswers)
    requires Moves(t, runtime, target, version, answers) && BookSound(t.book)
    requires AllNew(t, runtime, target, Agenda(target, answers), Taken(target, answers))
    ensures AllRepresented(AfterSync(t, runtime, target, version, answers).0, runtime, target, version, Agenda(target, answers), Taken(target, answers))
  {
    var agenda, taken := Agenda(target, answers), Taken(target, answers);
    ReachedAll(t, runtime, target, version, answers);
    AgendaProcessed(t, runtime, target, version, answers);
    AgendaIsDistinct(target, answers);
    UnblockedIsFinal(NewRun(t), runtime, target, version, agenda, taken, Reached(t, runtime, target, version, answers));
    forall i | 0 <= i < |agenda| ensures GoesThrough(taken[i]) {
      assert Final(runtime, target, version, agenda[i], taken[i]);
    }
    RunRepresents(NewRun(t), runtime, target, version, agenda, taken, Reached(t, runtime, target, version, answers));
  }

  // ------------------------------------------------------------------ the report

  /** A whole run ends with a report of what it counted, complete only with the cursor moved and nothing quarantined. */
  lemma FinishMeans(target: WatchTarget, head: AddressSignature, discovered: nat, pages: nat, run: Run,
      completion: Completion)
    requires Finish(target, head, discovered, pages, run, completion).1.Reported?
    ensures var report := Finish(target, head, discovered, pages, run, completion).1.report;
      && report.discovered == discovered && report.pages == pages
      && report.signaturesStored == run.signaturesStored && report.eventsStored == run.eventsStored
      && report.quarantinesCreated == run.quarantinesCreated
      && report.cursorAdvanced == (!run.blocked && completion == Completed)
      && (report.result == Complete <==> report.cursorAdvanced && !run.hasQuarantine)
  {
  }

  /** How a run that got to all its signatures ends. */
  lemma SyncEnds(t: Tables, runtime: Runtime, target: WatchTarget, version: Text, answers: SyncAnswers)
    requires Processed(target, answers) && |Agenda(target, answers)| <= |answers.entries|
    ensures var head := answers.head.value.value;
      var run := ProcessAll(NewRun(t), runtime, target, version, Agenda(target, answers),
        Prefix(answers.entries, |Agenda(target, answers)|));
      AfterSync(t, runtime, target, version, answers).2
      == Finish(target, head, |Agenda(target, answers)|, RunDiscovery(target, answers).pages, run, answers.completion).1
  {
  }

  lemma AgendaIsFound(target: WatchTarget, answers: SyncAnswers)
    requires answers.head.Ok? && answers.head.value.Some?
    ensures |Agenda(target, answers)| == |RunDiscovery(target, answers).found|
  {
    var found := RunDiscovery(target, answers).found;
    Sorting.SortPermutes(found, Precedes);
    assert |multiset(Ordered(found))| == |multiset(found)|;
  }

  /** What a run that got to all its signatures reports. */
  lemma ReportMeans(t: Tables, runtime: Runtime, target: WatchTarget, version: Text, answers: SyncAnswers, run: Run)
    requires Processed(target, answers) && |Agenda(target, answers)| <= |answers.entries| && !answers.completion.Failed?
    requires run == ProcessAll(NewRun(t), runtime, target, version, Agenda(target, answers), Prefix(answers.entries, |Agenda(target, answers)|))
    ensures var outcome := AfterSync(t, runtime, target, version, answers).2;
      && outcome.Reported?
      && outcome.report.discovered == |RunDiscovery(target, answers).found|
      && outcome.report.pages == RunDiscovery(target, answers).pages
      && outcome.report.signaturesStored == run.signaturesStored && outcome.report.eventsStored == run.eventsStored
      && outcome.report.quarantinesCreated == run.quarantinesCreated
      && outcome.report.cursorAdvanced == (!run.blocked && answers.completion == Completed)
      && (outcome.report.result == Complete <==> outcome.report.cursorAdvanced && !run.hasQuarantine)
  {
    SyncEnds(t, runtime, target, version, answers);
    AgendaIsFound(target, answers);
    FinishMeans(target, answers.head.value.value, |Agenda(target, answers)|, RunDiscovery(target, answers).pages, run,
      answers.completion);
  }

  /** How a run ends that does not get to all its signatures, or whose completion fails. */
  lemma OtherRunsMean(t: Tables, runtime: Runtime, target: WatchTarget, version: Text, answers: SyncAnswers)
    ensures var (u, after, outcome) := AfterSync(t, runtime, target, version, answers);
      && (answers.completion.Failed? ==> outcome == Rejected)
      && (answers.head.Err? ==> u == t && after == target && outcome == Rejected)
      && (answers.head == Ok(None) ==>
            && u == t && after == target
            && (!answers.completion.Failed? ==> outcome == Reported(SyncReport(0, 0, 0, 0, 0, false, Complete))))
      && (answers.head.Ok? && answers.head.value.Some? ==>
            var d := RunDiscovery(target, answers);
            && (d.ending == Unanswered ==> u == t && after == target && outcome == Rejected)
            && (d.ending.Blocked? ==>
                  && u == t && after == target
                  && (!answers.completion.Failed? ==> outcome == Reported(SyncReport(|d.found|, d.pages, 0, 0, 0, false, Incomplete))))
            && (d.ending == Done && |answers.entries| < |d.found| ==> after == target && outcome == Rejected))
  {
    if answers.head.Ok? && answers.head.value.Some? { AgendaIsFound(target, answers); }
  }
}
