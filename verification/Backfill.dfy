/** One backfill run: capture the head, discover, classify oldest slot first, then offer the cursor for advance. */
module Backfill {
  import opened Wrappers
  import opened Texts
  import opened Transactions
  import opened TransferParser
  import opened ParsingDigest
  import opened EvidenceTables
  import opened RepresentationStore
  import opened RepresentationReplay
  import opened Discovery
  import Consensus = FinalizedConsensus
  import CanonicalJson

  /** What the database says to a recording: done, or an error, which may come after the commit. */
  datatype Storing = Acknowledged | Lost(committed: bool) {
    predicate Commits() { Acknowledged? || committed }
  }

  /**
   What happens to one signature: how its discovery is recorded, what the provider has of it, how
   its class is recorded.
   */
  datatype EntryAnswer = EntryAnswer(
    discovery: Storing, transaction: Result<Option<Consensus.Fetched>, Consensus.Thrown>, classification: Storing)

  // ------------------------------------------------------------------ one signature

  function BareInput(target: WatchTarget, entry: AddressSignature, version: Text, classification: Class,
      code: Option<ErrorCode>): Input {
    Input(target.providerId, target.id, entry, classification, None, None, [], version, code)
  }

  function PendingInput(target: WatchTarget, entry: AddressSignature, version: Text): Input {
    BareInput(target, entry, version, Pending, None)
  }

  /** Errors that are not the pipeline's own count as an unrepresentable transaction, for good. */
  predicate Retryable(error: Consensus.Thrown) { error.Ingestion? && error.retryable }

  function ClassifiedInput(runtime: Runtime, target: WatchTarget, entry: AddressSignature, version: Text,
      f: Consensus.Fetched): Input {
    var parsed := ParseTransactionTransfers(f.tx, runtime.base58, Some(target.address));
    var failed := f.tx.meta.err != CanonicalJson.Null || entry.err != CanonicalJson.Null;
    var classification :=
      if failed then FailedTransaction
      else if parsed.Err? then Quarantined
      else if parsed.value != [] then Parsed
      else Irrelevant;
    Input(target.providerId, target.id, entry, classification, Some(Digest(f.body, runtime.sha256)), Some(f.tx),
      if classification == Parsed then parsed.value else [], version,
      if classification == Quarantined then Some(RpcTransactionSchemaInvalid) else None)
  }

  /** The classifying input, once the transaction request is settled for good. */
  function ClassInput(runtime: Runtime, target: WatchTarget, entry: AddressSignature, version: Text,
      answer: EntryAnswer): Option<Input> {
    match answer.transaction
    case Err(error) => if Retryable(error) then None else Some(BareInput(target, entry, version, Quarantined, Some(ThrownCode(error))))
    case Ok(None) => None
    case Ok(Some(f)) => Some(ClassifiedInput(runtime, target, entry, version, f))
  }

  /** The tables, the counters and the flags of a run. */
  datatype Run = Run(tables: Tables, signaturesStored: nat, eventsStored: nat, quarantinesCreated: nat, blocked: bool,
      hasQuarantine: bool)

  /** One recording: the tables after it, and what it is known to have added. */
  function Attempt(t: Tables, runtime: Runtime, input: Input, storing: Storing): (Tables, Option<Recorded>) {
    var (tables, result) := AfterRepresentation(t, runtime, input);
    if result.Err? || !storing.Commits() then (t, None)
    else (tables, if storing.Acknowledged? then Some(result.value) else None)
  }

  function One(b: bool): nat { if b then 1 else 0 }

  /** The run after a discovery was recorded, or was refused. */
  function AfterPending(run: Run, tables: Tables, recorded: Option<Recorded>): Run {
    if recorded.None? then run.(tables := tables, blocked := true)
    else run.(tables := tables, signaturesStored := run.signaturesStored + One(recorded.value.signatureInserted))
  }

  /** The run after a class was recorded, or was refused; a refused class still counts its parse failure. */
  function AfterClass(run: Run, input: Input, tables: Tables, recorded: Option<Recorded>): Run {
    var unparsed := input.transaction.Some? && input.classification == Quarantined;
    if recorded.None? then run.(tables := tables, blocked := true, hasQuarantine := run.hasQuarantine || unparsed)
    else
      Run(tables, run.signaturesStored + One(recorded.value.signatureInserted),
        run.eventsStored + recorded.value.eventsInserted,
        run.quarantinesCreated + One(recorded.value.quarantineInserted), run.blocked, run.hasQuarantine || unparsed || input.transaction.None?)
  }

  function ProcessClass(run: Run, runtime: Runtime, input: Input, storing: Storing): Run {
    var (tables, recorded) := Attempt(run.tables, runtime, input, storing);
    AfterClass(run, input, tables, recorded)
  }

  function ProcessPending(run: Run, runtime: Runtime, input: Input, storing: Storing): (Run, bool) {
    var (tables, recorded) := Attempt(run.tables, runtime, input, storing);
    (AfterPending(run, tables, recorded), recorded.Some?)
  }

  function ProcessEntry(run: Run, runtime: Runtime, target: WatchTarget, version: Text, entry: AddressSignature,
      answer: EntryAnswer): Run {
    var (pending, stored) := ProcessPending(run, runtime, PendingInput(target, entry, version), answer.discovery);
    var next := ClassInput(runtime, target, entry, version, answer);
    if !stored then pending
    else if next.None? then pending.(blocked := true)
    else ProcessClass(pending, runtime, next.value, answer.classification)
  }

  /** The signatures in order; `answers` may end early if the process does. */
  function ProcessAll(run: Run, runtime: Runtime, target: WatchTarget, version: Text, entries: seq<AddressSignature>,
      answers: seq<EntryAnswer>): Run
    requires |answers| <= |entries|
  {
    if answers == [] then run
    else
      var last := |answers| - 1;
      ProcessEntry(ProcessAll(run, runtime, target, version, entries[..last], answers[..last]), runtime, target, version, entries[last], answers[last])
  }

  lemma OneMore(run: Run, runtime: Runtime, target: WatchTarget, version: Text, entries: seq<AddressSignature>,
      answers: seq<EntryAnswer>, i: nat)
    requires i < |answers| && i < |entries|
    ensures ProcessAll(run, runtime, target, version, entries[..i + 1], answers[..i + 1])
         == ProcessEntry(ProcessAll(run, runtime, target, version, entries[..i], answers[..i]), runtime, target, version, entries[i], answers[i])
  {
    assert entries[..i + 1][..i] == entries[..i] && answers[..i + 1][..i] == answers[..i];
  }

  // ------------------------------------------------------------------ the cursor

  /** `completeSyncRun`: it goes through, finds another head committed, or fails, before or after its commit. */
  datatype Completion = Completed | Outrun | Failed(committed: bool) {
    predicate Commits() { Completed? || (Failed? && committed) }
  }

  /** What it does to the watch target: a compare-and-set on the head the run started from. */
  function AfterCompletion(target: WatchTarget, startingHead: Option<Text>, captured: AddressSignature, advance: bool,
      completion: Completion): (WatchTarget, bool) {
    if !advance || target.headSignature != startingHead || !completion.Commits() then (target, false)
    else (target.(headSlot := Some(captured.slot), headSignature := Some(captured.signature)), true)
  }

  /** The answers to a run; the pages or the entries end early if the process does. */
  datatype SyncAnswers = SyncAnswers(
    head: Result<Option<AddressSignature>, Consensus.Thrown>, pages: seq<PageAnswer>, entries: seq<EntryAnswer>, completion: Completion)

  datatype SyncResult = Complete | Incomplete

  datatype SyncReport = SyncReport(
    discovered: nat, pages: nat, signaturesStored: nat, eventsStored: nat, quarantinesCreated: nat, cursorAdvanced: bool, result: SyncResult)

  /** A run that fails, or is cut short, reports nothing. */
  datatype Outcome = Rejected | Reported(report: SyncReport)

  function Conclude(completion: Completion, report: SyncReport): Outcome {
    if completion.Failed? then Rejected else Reported(report)
  }

  function EntriesOf(found: seq<Found>): (entries: seq<AddressSignature>)
    ensures |entries| == |found| && forall i :: 0 <= i < |found| ==> entries[i] == found[i].value
  {
    seq(|found|, i requires 0 <= i < |found| => found[i].value)
  }

  function NewRun(t: Tables): Run { Run(t, 0, 0, 0, false, false) }

  function Prefix<T>(s: seq<T>, n: nat): (p: seq<T>)
    ensures |p| <= n && p <= s
  {
    if |s| <= n then s else s[..n]
  }

  /** The signatures a run goes through, in the order it goes through them. */
  function Agenda(target: WatchTarget, answers: SyncAnswers): seq<AddressSignature>
    requires answers.head.Ok? && answers.head.value.Some?
  {
    var head := answers.head.value.value;
    EntriesOf(Ordered(Discover(Start(head), head.signature, OverlapFloor(target), 0, answers.pages).found))
  }

  /** The end of a whole run: the cursor is offered unless something is blocked. */
  function Finish(target: WatchTarget, head: AddressSignature, discovered: nat, pages: nat, run: Run,
      completion: Completion): (WatchTarget, Outcome) {
    var (after, advanced) := AfterCompletion(target, target.headSignature, head, !run.blocked, completion);
    var result := if run.blocked || run.hasQuarantine then Incomplete else Complete;
    (after, Conclude(completion, SyncReport(discovered, pages, run.signaturesStored, run.eventsStored, run.quarantinesCreated, advanced,
      if advanced || run.blocked then result else Incomplete)))
  }

  /** The whole run, as one function of what the provider and the database answer. */
  function AfterSync(t: Tables, runtime: Runtime, target: WatchTarget, version: Text,
      answers: SyncAnswers): (Tables, WatchTarget, Outcome) {
    if answers.head.Err? then (t, target, Rejected)
    else if answers.head.value.None? then (t, target, Conclude(answers.completion, SyncReport(0, 0, 0, 0, 0, false, Complete)))
    else
      var head := answers.head.value.value;
      var d := Discover(Start(head), head.signature, OverlapFloor(target), 0, answers.pages);
      var agenda := Agenda(target, answers);
      if d.ending == Unanswered then (t, target, Rejected)
      else if d.ending.Blocked? then (t, target, Conclude(answers.completion, SyncReport(|agenda|, d.pages, 0, 0, 0, false, Incomplete)))
      else
        var run := ProcessAll(NewRun(t), runtime, target, version, agenda, Prefix(answers.entries, |agenda|));
        if |answers.entries| < |agenda| then (run.tables, target, Rejected)
        else
          var (after, outcome) := Finish(target, head, |agenda|, d.pages, run, answers.completion);
          (run.tables, after, outcome)
  }

  // ------------------------------------------------------------------ the engine

  /** The engine at work on one watch target, under its sync lock. */
  class BackfillEngine {
    const runtime: Runtime
    const version: Text
    const db: RepresentationTables
    var target: WatchTarget
    var signaturesStored: nat
    var eventsStored: nat
    var quarantinesCreated: nat
    var transactionBlocked: bool
    var hasQuarantine: bool

    constructor (runtime: Runtime, version: Text, db: RepresentationTables, target: WatchTarget)
      ensures this.runtime == runtime && this.version == version && this.db == db && this.target == target
      ensures Now() == NewRun(db.State())
    {
      this.runtime, this.version, this.db, this.target := runtime, version, db, target;
      signaturesStored, eventsStored, quarantinesCreated, transactionBlocked, hasQuarantine := 0, 0, 0, false, false;
    }

    function Now(): Run
      reads this, db
    {
      Run(db.State(), signaturesStored, eventsStored, quarantinesCreated, transactionBlocked, hasQuarantine)
    }

    method Record(input: Input, storing: Storing) returns (recorded: Option<Recorded>)
      modifies db
      ensures (db.State(), recorded) == Attempt(old(db.State()), runtime, input, storing)
    {
      if !storing.Commits() { return None; }
      var result := db.PersistRepresentation(runtime, input);
      recorded := if result.Ok? && storing.Acknowledged? then Some(result.value) else None;
    }

    method CountPending(recorded: Option<Recorded>)
      modifies this`signaturesStored, this`transactionBlocked
      ensures Now() == AfterPending(old(Now()), db.State(), recorded)
    {
      if recorded.None? {
        transactionBlocked := true;
      } else {
        signaturesStored := signaturesStored + One(recorded.value.signatureInserted);
      }
    }

    method CountClass(input: Input, recorded: Option<Recorded>)
      modifies this`signaturesStored, this`eventsStored, this`quarantinesCreated, this`transactionBlocked, this`hasQuarantine
      ensures Now() == AfterClass(old(Now()), input, db.State(), recorded)
    {
      if input.transaction.Some? && input.classification == Quarantined { hasQuarantine := true; }
      if recorded.None? {
        transactionBlocked := true;
        return;
      }
      signaturesStored := signaturesStored + One(recorded.value.signatureInserted);
      eventsStored := eventsStored + recorded.value.eventsInserted;
      quarantinesCreated := quarantinesCreated + One(recorded.value.quarantineInserted);
      if input.transaction.None? { hasQuarantine := true; }
    }

    method RecordPending(input: Input, storing: Storing) returns (taken: bool)
      modifies this`signaturesStored, this`transactionBlocked, db
      ensures (Now(), taken) == ProcessPending(old(Now()), runtime, input, storing)
    {
      var recorded := Record(input, storing);
      CountPending(recorded);
      taken := recorded.Some?;
    }

    method RecordClass(input: Input, storing: Storing)
      modifies this`signaturesStored, this`eventsStored, this`quarantinesCreated, this`transactionBlocked, this`hasQuarantine, db
      ensures Now() == ProcessClass(old(Now()), runtime, input, storing)
    {
      var recorded := Record(input, storing);
      CountClass(input, recorded);
    }

    method ProcessSignature(entry: AddressSignature, answer: EntryAnswer)
      modifies this`signaturesStored, this`eventsStored, this`quarantinesCreated, this`transactionBlocked, this`hasQuarantine, db
      ensures Now() == ProcessEntry(old(Now()), runtime, target, version, entry, answer)
    {
      var stored := RecordPending(PendingInput(target, entry, version), answer.discovery);
      if !stored { return; }
      var next := ClassInput(runtime, target, entry, version, answer);
      if next.None? {
        transactionBlocked := true;
        return;
      }
      RecordClass(next.value, answer.classification);
    }

    /** Goes through the signatures in order, as far as there are answers. */
    method Classify(ordered: seq<Found>, answers: seq<EntryAnswer>) returns (count: nat)
      modifies this`signaturesStored, this`eventsStored, this`quarantinesCreated, this`transactionBlocked, this`hasQuarantine, db
      ensures count == if |answers| < |ordered| then |answers| else |ordered|
      ensures Now() == ProcessAll(old(Now()), runtime, target, version, EntriesOf(ordered)[..count], answers[..count])
    {
      ghost var agenda := EntriesOf(ordered);
      count := if |answers| < |ordered| then |answers| else |ordered|;
      for i := 0 to count
        invariant Now() == ProcessAll(old(Now()), runtime, target, version, agenda[..i], answers[..i])
      {
        ProcessSignature(ordered[i].value, answers[i]);
        OneMore(old(Now()), runtime, target, version, agenda, answers, i);
      }
    }

    method SyncWatchTarget(answers: SyncAnswers) returns (outcome: Outcome)
      requires Now() == NewRun(db.State())
      modifies this, db
      ensures (db.State(), target, outcome) == AfterSync(old(db.State()), runtime, old(target), version, answers)
    {
      if answers.head.Err? { return Rejected; }
      if answers.head.value.None? { return Conclude(answers.completion, SyncReport(0, 0, 0, 0, 0, false, Complete)); }
      var head := answers.head.value.value;
      var d := DiscoverSignatures(head, OverlapFloor(target), answers.pages);
      var ordered, startingHead := Ordered(d.found), target.headSignature;
      ghost var agenda := Agenda(target, answers);
      ghost var was := NewRun(db.State());
      if d.ending == Unanswered { return Rejected; }
      if d.ending.Blocked? {
        return Conclude(answers.completion, SyncReport(|ordered|, d.pages, 0, 0, 0, false, Incomplete));
      }

      var count := Classify(ordered, answers.entries);
      AgendaPrefix(was, runtime, target, version, agenda, answers.entries, count);
      if count < |ordered| { return Rejected; }

      var (after, advanced) := AfterCompletion(target, startingHead, head, !transactionBlocked, answers.completion);
      target := after;
      var result := if transactionBlocked || hasQuarantine then Incomplete else Complete;
      outcome := Conclude(answers.completion, SyncReport(|ordered|, d.pages, signaturesStored, eventsStored, quarantinesCreated, advanced,
        if advanced || transactionBlocked then result else Incomplete));
    }
  }

  lemma {:induction false} AgendaPrefix(run: Run, runtime: Runtime, target: WatchTarget, version: Text,
      agenda: seq<AddressSignature>, answers: seq<EntryAnswer>, count: nat)
    requires count <= |answers| && count <= |agenda| && (count == |agenda| || count == |answers|)
    ensures ProcessAll(run, runtime, target, version, agenda, Prefix(answers, |agenda|))
         == ProcessAll(run, runtime, target, version, agenda[..count], answers[..count])
  {
    assert Prefix(answers, |agenda|) == answers[..count];
    SameProcessing(run, runtime, target, version, agenda, answers[..count]);
  }

  /** Entries beyond the answers do not matter. */
  lemma {:induction false} SameProcessing(run: Run, runtime: Runtime, target: WatchTarget, version: Text,
      entries: seq<AddressSignature>, answers: seq<EntryAnswer>)
    requires |answers| <= |entries|
    ensures ProcessAll(run, runtime, target, version, entries, answers)
      == ProcessAll(run, runtime, target, version, entries[..|answers|], answers)
  {
    if answers != [] {
      var last := |answers| - 1;
      assert entries[..|answers|][..last] == entries[..last];
    }
  }
}
