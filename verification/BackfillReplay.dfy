/** Counting over runs, and running again over an unchanged history. */
module BackfillReplay {
  import opened Wrappers
  import opened Texts
  import opened EvidenceTables
  import opened ParsingDigest
  import opened RepresentationStore
  import opened RepresentationReplay
  import opened Discovery
  import opened Coverage
  import opened Backfill
  import opened BackfillHistory
  import opened Envelope
  import Sorting

  // ------------------------------------------------------------------ counting

  /** Rows of the target beyond those the run has counted. */
  function Uncounted(run: Run, watchTargetId: Text): int { |RowsOf(run.tables, watchTargetId)| - run.signaturesStored }

  /** Whether a recording puts a row that was not there. */
  predicate Puts(t: Tables, key: RowKey, storing: Storing) { storing.Commits() && key !in t.rows }

  lemma PendingCounts(run: Run, runtime: Runtime, target: WatchTarget, version: Text, entry: AddressSignature,
      storing: Storing)
    ensures var after := ProcessPending(run, runtime, PendingInput(target, entry, version), storing).0;
      var key := RowKey(target.id, entry.signature);
      && RowsOf(after.tables, target.id) == RowsOf(run.tables, target.id) + (if storing.Commits() then {key} else {})
      && Uncounted(after, target.id) == Uncounted(run, target.id) + One(Puts(run.tables, key, storing) && storing.Lost?)
  {
    RecordingCounts(run.tables, runtime, PendingInput(target, entry, version));
    AddOne(RowsOf(run.tables, target.id), RowKey(target.id, entry.signature));
  }

  /** The class of a signature that has its row adds no further row, and is counted as adding none. */
  lemma ClassCounts(run: Run, runtime: Runtime, input: Input, storing: Storing)
    requires KeyOf(input) in RowsOf(run.tables, input.watchTargetId)
    ensures var after := ProcessClass(run, runtime, input, storing);
      && RowsOf(after.tables, input.watchTargetId) == RowsOf(run.tables, input.watchTargetId)
      && after.signaturesStored == run.signaturesStored
  {
    RecordingCounts(run.tables, runtime, input);
    assert RowsOf(run.tables, input.watchTargetId) + {KeyOf(input)} == RowsOf(run.tables, input.watchTargetId);
  }

  lemma EntryCounts(run: Run, runtime: Runtime, target: WatchTarget, version: Text, entry: AddressSignature,
      answer: EntryAnswer)
    ensures var after := ProcessEntry(run, runtime, target, version, entry, answer);
      var key := RowKey(target.id, entry.signature);
      && RowsOf(after.tables, target.id) == RowsOf(run.tables, target.id) + (if answer.discovery.Commits() then {key} else {})
      && Uncounted(after, target.id) == Uncounted(run, target.id) + One(Puts(run.tables, key, answer.discovery) && answer.discovery.Lost?)
  {
    var (pending, stored) := ProcessPending(run, runtime, PendingInput(target, entry, version), answer.discovery);
    PendingCounts(run, runtime, target, version, entry, answer.discovery);
    var next := ClassInput(runtime, target, entry, version, answer);
    if stored && next.Some? {
      ClassInputIsFinal(runtime, target, entry, version, answer);
      ClassCounts(pending, runtime, next.value, answer.classification);
    }
  }

  /** A signature whose new row no report counts: the run fails, or its discovery is stored but the answer is lost. */
  predicate Hides(t: Tables, target: WatchTarget, entry: AddressSignature, answer: EntryAnswer, fails: bool) {
    Puts(t, RowKey(target.id, entry.signature), answer.discovery) && (fails || answer.discovery.Lost?)
  }

  function CountHidden(t: Tables, target: WatchTarget, entries: seq<AddressSignature>, answers: seq<EntryAnswer>,
      fails: bool): nat
    requires |entries| == |answers|
  {
    if entries == [] then 0
    else
      var last := |entries| - 1;
      CountHidden(t, target, entries[..last], answers[..last], fails) + One(Hides(t, target, entries[last], answers[last], fails))
  }

  lemma {:induction false} NoneHides(t: Tables, target: WatchTarget, entries: seq<AddressSignature>,
      answers: seq<EntryAnswer>, fails: bool)
    requires |entries| == |answers|
    ensures CountHidden(t, target, entries, answers, fails) == 0
      <==> forall i :: 0 <= i < |entries| ==> !Hides(t, target, entries[i], answers[i], fails)
    decreases |entries|
  {
    if entries != [] {
      NoneHides(t, target, entries[..|entries| - 1], answers[..|entries| - 1], fails);
    }
  }

  /** Of signatures that are all different, only the row of the signature itself matters. */
  lemma {:induction false} RunRows(run: Run, runtime: Runtime, target: WatchTarget, version: Text,
      entries: seq<AddressSignature>, answers: seq<EntryAnswer>, signature: Text)
    requires |answers| == |entries| && forall i :: 0 <= i < |entries| ==> entries[i].signature != signature
    ensures var after := ProcessAll(run, runtime, target, version, entries, answers);
      RowKey(target.id, signature) in after.tables.rows <==> RowKey(target.id, signature) in run.tables.rows
    decreases |answers|
  {
    if answers != [] {
      var last := |answers| - 1;
      RunRows(run, runtime, target, version, entries[..last], answers[..last], signature);
      var before := ProcessAll(run, runtime, target, version, entries[..last], answers[..last]);
      EntryCounts(before, runtime, target, version, entries[last], answers[last]);
      var after, key := ProcessEntry(before, runtime, target, version, entries[last], answers[last]), RowKey(target.id, signature);
      assert key in RowsOf(after.tables, target.id) <==> key in RowsOf(before.tables, target.id);
    }
  }

  lemma {:induction false} RunCounts(run: Run, runtime: Runtime, target: WatchTarget, version: Text,
      entries: seq<AddressSignature>, answers: seq<EntryAnswer>)
    requires |answers| == |entries| && DistinctSignatures(entries)
    ensures var after := ProcessAll(run, runtime, target, version, entries, answers);
      && Uncounted(after, target.id) == Uncounted(run, target.id) + CountHidden(run.tables, target, entries, answers, false)
      && |RowsOf(after.tables, target.id)| == |RowsOf(run.tables, target.id)| + CountHidden(run.tables, target, entries, answers, true)
    decreases |answers|
  {
    if answers != [] {
      var last := |answers| - 1;
      var before := ProcessAll(run, runtime, target, version, entries[..last], answers[..last]);
      RunCounts(run, runtime, target, version, entries[..last], answers[..last]);
      RunRows(run, runtime, target, version, entries[..last], answers[..last], entries[last].signature);
      EntryCounts(before, runtime, target, version, entries[last], answers[last]);
      AddOne(RowsOf(before.tables, target.id), RowKey(target.id, entries[last].signature));
    }
  }

  /** The run gets to its signatures, and ends without a report. */
  predicate Fails(target: WatchTarget, answers: SyncAnswers) {
    Processed(target, answers) && (|answers.entries| < |Agenda(target, answers)| || answers.completion.Failed?)
  }

  /**
   How many signatures of a run have a new row that no report counts, told from the tables before it
   and the answers.
   */
  function RunHides(t: Tables, target: WatchTarget, answers: SyncAnswers): nat {
    if !Processed(target, answers) then 0
    else
      var taken := Prefix(answers.entries, |Agenda(target, answers)|);
      CountHidden(t, target, Agenda(target, answers)[..|taken|], taken, Fails(target, answers))
  }

  /** The rows a run adds are those it reports, and the hidden ones. */
  lemma SyncCountsRows(t: Tables, runtime: Runtime, target: WatchTarget, version: Text, answers: SyncAnswers)
    ensures var (u, after, outcome) := AfterSync(t, runtime, target, version, answers);
      && after.id == target.id
      && |RowsOf(u, target.id)| == |RowsOf(t, target.id)| + RunHides(t, target, answers) + (if outcome.Reported? then outcome.report.signaturesStored else 0)
  {
    if Processed(target, answers) {
      AgendaProcessed(t, runtime, target, version, answers);
      AgendaIsDistinct(target, answers);
      var agenda := Agenda(target, answers);
      var taken := Prefix(answers.entries, |agenda|);
      RunCounts(NewRun(t), runtime, target, version, agenda[..|taken|], taken);
    }
  }

  function StepReports(s: Site, runtime: Runtime, step: Step): nat {
    if step.Elsewhere? then 0
    else
      var outcome := AfterSync(s.tables, runtime, s.target, step.version, step.answers).2;
      if outcome.Reported? then outcome.report.signaturesStored else 0
  }

  function StepHides(s: Site, step: Step): nat {
    if step.Elsewhere? then 0 else RunHides(s.tables, s.target, step.answers)
  }

  /** What the first `n` steps report as stored. */
  function Reported(sites: seq<Site>, runtime: Runtime, steps: seq<Step>, n: nat): nat
    requires n <= |steps| <= |sites|
  {
    if n == 0 then 0 else Reported(sites, runtime, steps, n - 1) + StepReports(sites[n - 1], runtime, steps[n - 1])
  }

  /** What the first `n` steps add without reporting it. */
  function Hidden(sites: seq<Site>, steps: seq<Step>, n: nat): nat
    requires n <= |steps| <= |sites|
  {
    if n == 0 then 0 else Hidden(sites, steps, n - 1) + StepHides(sites[n - 1], steps[n - 1])
  }

  lemma StepCounts(s: Site, runtime: Runtime, step: Step, next: Site)
    requires Enabled(s, step) && next == Apply(s, runtime, step)
    ensures next.target.id == s.target.id
    ensures |RowsOf(next.tables, s.target.id)|
      == |RowsOf(s.tables, s.target.id)| + StepReports(s, runtime, step) + StepHides(s, step)
  {
    if step.Sync? { SyncCountsRows(s.tables, runtime, s.target, step.version, step.answers); }
  }

  lemma {:induction false} NoneHidden(sites: seq<Site>, steps: seq<Step>, n: nat)
    requires n <= |steps| <= |sites|
    ensures Hidden(sites, steps, n) == 0
      <==> forall i :: 0 <= i < n && steps[i].Sync? ==> HidesNothing(sites[i].tables, sites[i].target, steps[i].answers)
  {
    if n > 0 {
      NoneHidden(sites, steps, n - 1);
      if steps[n - 1].Sync? { RunHidesNothing(sites[n - 1].tables, sites[n - 1].target, steps[n - 1].answers); }
    }
  }

  /** Over any sequence of runs, the stored rows are those reported and the hidden ones. */
  lemma {:induction false} ReportsAddUp(sites: seq<Site>, runtime: Runtime, steps: seq<Step>, n: nat)
    requires Chronicle(sites, runtime, steps) && n <= |steps|
    ensures sites[n].target.id == sites[0].target.id
    ensures |RowsOf(sites[n].tables, sites[0].target.id)|
      == Reported(sites, runtime, steps, n) + Hidden(sites, steps, n)
  {
    if n > 0 {
      ReportsAddUp(sites, runtime, steps, n - 1);
      StepCounts(sites[n - 1], runtime, steps[n - 1], sites[n]);
    }
  }

  /**
   No signature the run deals with has a row to be hidden: it has one already, or its discovery is
   not stored, or it is acknowledged in a run that does not fail.
   */
  predicate HidesNothing(t: Tables, target: WatchTarget, answers: SyncAnswers) {
    Processed(target, answers) ==>
      forall i :: 0 <= i < |Agenda(target, answers)| && i < |answers.entries| ==>
        !Hides(t, target, Agenda(target, answers)[i], answers.entries[i], Fails(target, answers))
  }

  lemma RunHidesNothing(t: Tables, target: WatchTarget, answers: SyncAnswers)
    ensures RunHides(t, target, answers) == 0 <==> HidesNothing(t, target, answers)
  {
    if Processed(target, answers) {
      var agenda := Agenda(target, answers);
      var taken := Prefix(answers.entries, |agenda|);
      NoneHides(t, target, agenda[..|taken|], taken, Fails(target, answers));
    }
  }

  /** The reports add up to the stored rows if and only if no run has a signature whose new row it hides. */
  lemma ReportsAddUpIff(sites: seq<Site>, runtime: Runtime, steps: seq<Step>, n: nat)
    requires Chronicle(sites, runtime, steps) && n <= |steps|
    ensures Reported(sites, runtime, steps, n) == |RowsOf(sites[n].tables, sites[0].target.id)|
      <==> forall i :: 0 <= i < n && steps[i].Sync? ==> HidesNothing(sites[i].tables, sites[i].target, steps[i].answers)
  {
    ReportsAddUp(sites, runtime, steps, n);
    NoneHidden(sites, steps, n);
  }

  // ------------------------------------------------------------------ the inputs of an unblocked run

  /** The recordings of one signature that went through. */
  function Recordings(runtime: Runtime, target: WatchTarget, version: Text, entry: AddressSignature,
      answer: EntryAnswer): seq<Input>
    requires ClassInput(runtime, target, entry, version, answer).Some?
  {
    [PendingInput(target, entry, version), ClassInput(runtime, target, entry, version, answer).value]
  }

  predicate Final(runtime: Runtime, target: WatchTarget, version: Text, entry: AddressSignature, answer: EntryAnswer) {
    answer.discovery.Acknowledged? && answer.classification.Acknowledged? && ClassInput(runtime, target, entry, version, answer).Some?
  }

  /** Everything recorded so far is settled. */
  predicate AllSettled(t: Tables, inputs: seq<Input>) {
    BookSound(t.book) && forall i :: 0 <= i < |inputs| ==> Replayable(inputs[i]) && Settled(t, inputs[i])
  }

  lemma RecordingKeepsSettled(t: Tables, runtime: Runtime, inputs: seq<Input>, input: Input)
    requires AllSettled(t, inputs) && Replayable(input) && AfterRepresentation(t, runtime, input).1.Ok?
    requires forall i :: 0 <= i < |inputs| ==> Bare(inputs[i]) || Bare(input) || inputs[i].discovered.signature != input.discovered.signature
    ensures AllSettled(AfterRepresentation(t, runtime, input).0, inputs + [input])
  {
    OneMoreSettles(t, runtime, inputs, input);
  }

  /** Inputs that go with a further input of this signature: bare ones, and those of other signatures. */
  predicate GoWith(inputs: seq<Input>, signature: Text) {
    forall i :: 0 <= i < |inputs| ==> Bare(inputs[i]) || inputs[i].discovered.signature != signature
  }

  lemma TwoRecordingsSettle(t: Tables, runtime: Runtime, inputs: seq<Input>, pending: Input, next: Input)
    requires AllSettled(t, inputs) && Bare(pending) && Replayable(next) && GoWith(inputs, next.discovered.signature)
    requires AfterRepresentation(t, runtime, pending).1.Ok?
    requires AfterRepresentation(AfterRepresentation(t, runtime, pending).0, runtime, next).1.Ok?
    ensures AllSettled(AfterRepresentation(AfterRepresentation(t, runtime, pending).0, runtime, next).0, inputs + [pending, next])
  {
    RecordingKeepsSettled(t, runtime, inputs, pending);
    RecordingKeepsSettled(AfterRepresentation(t, runtime, pending).0, runtime, inputs + [pending], next);
    assert inputs + [pending] + [next] == inputs + [pending, next];
  }

  lemma EntrySettles(run: Run, runtime: Runtime, target: WatchTarget, version: Text, entry: AddressSignature,
      answer: EntryAnswer, inputs: seq<Input>, after: Run)
    requires AllSettled(run.tables, inputs) && after == ProcessEntry(run, runtime, target, version, entry, answer)
    requires !after.blocked
    requires Final(runtime, target, version, entry, answer)
    requires Replayable(ClassInput(runtime, target, entry, version, answer).value) && GoWith(inputs, entry.signature)
    ensures AllSettled(after.tables, inputs + Recordings(runtime, target, version, entry, answer))
  {
    ClassInputIsFinal(runtime, target, entry, version, answer);
    TwoRecordingsSettle(run.tables, runtime, inputs, PendingInput(target, entry, version),
      ClassInput(runtime, target, entry, version, answer).value);
  }

  predicate AllFinal(runtime: Runtime, target: WatchTarget, version: Text, entries: seq<AddressSignature>,
      answers: seq<EntryAnswer>)
    requires |entries| == |answers|
  {
    forall i :: 0 <= i < |entries| ==> Final(runtime, target, version, entries[i], answers[i])
  }

  /** All recordings of a run, in order. */
  function AllRecordings(runtime: Runtime, target: WatchTarget, version: Text, entries: seq<AddressSignature>,
      answers: seq<EntryAnswer>): seq<Input>
    requires |entries| == |answers| && AllFinal(runtime, target, version, entries, answers)
  {
    if entries == [] then []
    else
      var last := |entries| - 1;
      AllRecordings(runtime, target, version, entries[..last], answers[..last]) + Recordings(runtime, target, version, entries[last], answers[last])
  }

  predicate DistinctSignatures(entries: seq<AddressSignature>) {
    forall i, j :: 0 <= i < j < |entries| ==> entries[i].signature != entries[j].signature
  }

  /** The parser's transfers of each transaction are at places of their own and repeat no reference. */
  predicate AllReplayable(runtime: Runtime, target: WatchTarget, version: Text, entries: seq<AddressSignature>,
      answers: seq<EntryAnswer>)
    requires |entries| == |answers|
  {
    forall i :: 0 <= i < |entries| ==>
      var next := ClassInput(runtime, target, entries[i], version, answers[i]);
      next.Some? ==> Replayable(next.value)
  }

  lemma {:induction false} RecordingsGoWith(runtime: Runtime, target: WatchTarget, version: Text,
      entries: seq<AddressSignature>, answers: seq<EntryAnswer>, signature: Text)
    requires |entries| == |answers| && AllFinal(runtime, target, version, entries, answers)
    requires forall i :: 0 <= i < |entries| ==> entries[i].signature != signature
    ensures GoWith(AllRecordings(runtime, target, version, entries, answers), signature)
  {
    if entries != [] {
      var last := |entries| - 1;
      RecordingsGoWith(runtime, target, version, entries[..last], answers[..last], signature);
      ClassInputIsFinal(runtime, target, entries[last], version, answers[last]);
    }
  }

  lemma UnblockedWasFinal(run: Run, runtime: Runtime, target: WatchTarget, version: Text, entry: AddressSignature,
      answer: EntryAnswer, after: Run)
    requires after == ProcessEntry(run, runtime, target, version, entry, answer) && !after.blocked
    ensures !run.blocked && Final(runtime, target, version, entry, answer)
  {
  }

  lemma FinalToo(runtime: Runtime, target: WatchTarget, version: Text, entries: seq<AddressSignature>,
      answers: seq<EntryAnswer>)
    requires |entries| == |answers| > 0
    requires AllFinal(runtime, target, version, entries[..|entries| - 1], answers[..|entries| - 1])
    requires Final(runtime, target, version, entries[|entries| - 1], answers[|entries| - 1])
    ensures AllFinal(runtime, target, version, entries, answers)
  {
    var last := |entries| - 1;
    forall i | 0 <= i < last ensures Final(runtime, target, version, entries[i], answers[i]) {
      assert entries[..last][i] == entries[i] && answers[..last][i] == answers[i];
    }
  }

  lemma {:induction false} UnblockedIsFinal(run: Run, runtime: Runtime, target: WatchTarget, version: Text,
      entries: seq<AddressSignature>, answers: seq<EntryAnswer>, after: Run)
    requires |entries| == |answers| && after == ProcessAll(run, runtime, target, version, entries, answers)
    requires !after.blocked
    ensures !run.blocked && AllFinal(runtime, target, version, entries, answers)
    decreases |entries|
  {
    if entries != [] {
      var last := |entries| - 1;
      var before := ProcessAll(run, runtime, target, version, entries[..last], answers[..last]);
      UnblockedWasFinal(before, runtime, target, version, entries[last], answers[last], after);
      UnblockedIsFinal(run, runtime, target, version, entries[..last], answers[..last], before);
      FinalToo(runtime, target, version, entries, answers);
    }
  }

  /** After an unblocked run everything it recorded is settled. */
  lemma {:induction false} RunIsSettled(run: Run, runtime: Runtime, target: WatchTarget, version: Text,
      entries: seq<AddressSignature>, answers: seq<EntryAnswer>, after: Run)
    requires |entries| == |answers| && after == ProcessAll(run, runtime, target, version, entries, answers)
    requires !after.blocked
    requires BookSound(run.tables.book) && DistinctSignatures(entries)
    requires AllFinal(runtime, target, version, entries, answers)
    requires AllReplayable(runtime, target, version, entries, answers)
    ensures AllSettled(after.tables, AllRecordings(runtime, target, version, entries, answers))
    decreases |entries|
  {
    if entries != [] {
      var last := |entries| - 1;
      var before := ProcessAll(run, runtime, target, version, entries[..last], answers[..last]);
      UnblockedWasFinal(before, runtime, target, version, entries[last], answers[last], after);
      InitialPart(runtime, target, version, entries, answers);
      RunIsSettled(run, runtime, target, version, entries[..last], answers[..last], before);
      RecordingsGoWith(runtime, target, version, entries[..last], answers[..last], entries[last].signature);
      EntrySettles(before, runtime, target, version, entries[last], answers[last],
        AllRecordings(runtime, target, version, entries[..last], answers[..last]), after);
    }
  }

  lemma InitialPart(runtime: Runtime, target: WatchTarget, version: Text, entries: seq<AddressSignature>,
      answers: seq<EntryAnswer>)
    requires |entries| == |answers| > 0 && DistinctSignatures(entries)
    requires AllFinal(runtime, target, version, entries, answers)
    requires AllReplayable(runtime, target, version, entries, answers)
    ensures var last := |entries| - 1;
      && DistinctSignatures(entries[..last]) && AllFinal(runtime, target, version, entries[..last], answers[..last])
      && AllReplayable(runtime, target, version, entries[..last], answers[..last])
      && (forall i :: 0 <= i < last ==> entries[..last][i].signature != entries[last].signature)
      && Replayable(ClassInput(runtime, target, entries[last], version, answers[last]).value)
  {
    assert Final(runtime, target, version, entries[|entries| - 1], answers[|entries| - 1]);
  }

  // ------------------------------------------------------------------ the same again

  /** What an entry needs to be silent: its recordings are settled and go through again. */
  predicate Known(t: Tables, runtime: Runtime, target: WatchTarget, version: Text, entry: AddressSignature,
      answer: EntryAnswer) {
    && Final(runtime, target, version, entry, answer)
    && Settled(t, PendingInput(target, entry, version)) && Settled(t, ClassInput(runtime, target, entry, version, answer).value)
  }

  /** Nothing new in the tables and the counters. */
  predicate Silent(before: Run, after: Run) {
    && AddsNothing(before.tables, after.tables)
    && after == before.(tables := after.tables, hasQuarantine := after.hasQuarantine)
  }

  lemma SilentPending(run: Run, runtime: Runtime, input: Input)
    requires Settled(run.tables, input)
    ensures var (after, taken) := ProcessPending(run, runtime, input, Acknowledged); taken && Silent(run, after)
  {
    SettledAddsNothing(run.tables, runtime, input);
  }

  lemma SilentAttempt(t: Tables, runtime: Runtime, input: Input)
    requires Settled(t, input)
    ensures var (u, recorded) := Attempt(t, runtime, input, Acknowledged); AddsNothing(t, u) && recorded == Some(Recorded(false, 0, false))
  {
    SettledAddsNothing(t, runtime, input);
  }

  lemma SilentClass(run: Run, runtime: Runtime, input: Input)
    requires Settled(run.tables, input)
    ensures Silent(run, ProcessClass(run, runtime, input, Acknowledged))
  {
    SilentAttempt(run.tables, runtime, input);
  }

  lemma KnownIsSilent(run: Run, runtime: Runtime, target: WatchTarget, version: Text, entry: AddressSignature,
      answer: EntryAnswer, after: Run)
    requires Known(run.tables, runtime, target, version, entry, answer)
    requires after == ProcessEntry(run, runtime, target, version, entry, answer)
    ensures Silent(run, after)
  {
    var pending, next := PendingInput(target, entry, version), ClassInput(runtime, target, entry, version, answer).value;
    SilentPending(run, runtime, pending);
    var mid := ProcessPending(run, runtime, pending, Acknowledged).0;
    SilentClass(mid, runtime, next);
  }

  predicate AllKnown(t: Tables, runtime: Runtime, target: WatchTarget, version: Text, entries: seq<AddressSignature>,
      answers: seq<EntryAnswer>)
    requires |entries| == |answers|
  {
    forall i :: 0 <= i < |entries| ==> Known(t, runtime, target, version, entries[i], answers[i])
  }

  lemma {:induction false} KnownRunIsSilent(run: Run, runtime: Runtime, target: WatchTarget, version: Text,
      entries: seq<AddressSignature>, answers: seq<EntryAnswer>, after: Run)
    requires |entries| == |answers| && after == ProcessAll(run, runtime, target, version, entries, answers)
    requires AllKnown(run.tables, runtime, target, version, entries, answers)
    ensures Silent(run, after)
    decreases |entries|
  {
    if entries != [] {
      var last := |entries| - 1;
      var before := ProcessAll(run, runtime, target, version, entries[..last], answers[..last]);
      KnownRunIsSilent(run, runtime, target, version, entries[..last], answers[..last], before);
      KnownIsSilent(before, runtime, target, version, entries[last], answers[last], after);
    }
  }

  // ------------------------------------------------------------------ a second run over the same history

  /** The recordings of one signature are among those of the run. */
  predicate Includes(all: seq<Input>, own: seq<Input>) { |own| == 2 && own[0] in all && own[1] in all }

  lemma IncludesMore(earlier: seq<Input>, more: seq<Input>, own: seq<Input>)
    requires Includes(earlier, own) || (more == own && |own| == 2)
    ensures Includes(earlier + more, own)
  {
    if more == own && |own| == 2 {
      assert own[0] in more && own[1] in more;
    }
  }

  lemma {:induction false} RecordingsInclude(runtime: Runtime, target: WatchTarget, version: Text,
      entries: seq<AddressSignature>, answers: seq<EntryAnswer>, j: nat)
    requires |entries| == |answers| && AllFinal(runtime, target, version, entries, answers) && j < |entries|
    requires Final(runtime, target, version, entries[j], answers[j])
    ensures Includes(AllRecordings(runtime, target, version, entries, answers), Recordings(runtime, target, version, entries[j], answers[j]))
    decreases |entries|
  {
    var last := |entries| - 1;
    var earlier := AllRecordings(runtime, target, version, entries[..last], answers[..last]);
    if j < last {
      assert entries[..last][j] == entries[j] && answers[..last][j] == answers[j];
      RecordingsInclude(runtime, target, version, entries[..last], answers[..last], j);
    }
    IncludesMore(earlier, Recordings(runtime, target, version, entries[last], answers[last]),
      Recordings(runtime, target, version, entries[j], answers[j]));
  }

  /** What was recorded in an unblocked run is known, also to the target with its cursor moved. */
  lemma RecordedIsKnown(t: Tables, runtime: Runtime, target: WatchTarget, later: WatchTarget, version: Text,
      entries: seq<AddressSignature>, answers: seq<EntryAnswer>, j: nat)
    requires |entries| == |answers| && AllFinal(runtime, target, version, entries, answers) && j < |entries|
    requires AllSettled(t, AllRecordings(runtime, target, version, entries, answers))
    requires later == target.(headSlot := later.headSlot, headSignature := later.headSignature)
    ensures Known(t, runtime, later, version, entries[j], answers[j])
  {
    assert Final(runtime, target, version, entries[j], answers[j]);
    RecordingsInclude(runtime, target, version, entries, answers, j);
  }

  predicate SameView(views: seq<View>, view: View) { forall k :: 0 <= k < |views| ==> views[k] == view }

  lemma {:induction false} StandingStill(view: View, views: seq<View>)
    requires ValidView(view) && SameView(views, view)
    ensures ViewsGrow(view, views) && FinalView(view, views) == [] + view
    decreases |views|
  {
    if views != [] {
      ExtendsItself(view);
      assert views[0] == view;
      StandingStill(view, views[1..]);
    }
  }

  /** A run over a history that stands still: its provider pages through one and the same view. */
  ghost predicate StillRun(target: WatchTarget, view: View, answers: SyncAnswers) {
    && ValidView(view) && view != [] && answers.head == Ok(Some(view[0]))
    && (exists views :: |views| == |answers.pages| && SameView(views, view) && HonestAnswers(views, view[0].signature, answers.pages))
    && Processed(target, answers) && |Agenda(target, answers)| <= |answers.entries|
  }

  lemma StillRunFinds(target: WatchTarget, view: View, answers: SyncAnswers)
    requires StillRun(target, view, answers)
    ensures Values(RunDiscovery(target, answers).found) == Due(view, OverlapFloor(target))
  {
    var views :| |views| == |answers.pages| && SameView(views, view) && HonestAnswers(views, view[0].signature, answers.pages);
    StandingStill(view, views);
    DiscoveryIsExact(view, views, OverlapFloor(target), answers.pages, []);
  }

  lemma AgendaIsFound(target: WatchTarget, answers: SyncAnswers, i: nat)
    requires Processed(target, answers) && i < |Agenda(target, answers)|
    ensures Agenda(target, answers)[i] in Values(RunDiscovery(target, answers).found)
  {
    var found := RunDiscovery(target, answers).found;
    Sorting.SortPermutes(found, Precedes);
    assert Ordered(found)[i] in multiset(Ordered(found));
    assert Ordered(found)[i] in found;
  }

  lemma AgendaIsDistinct(target: WatchTarget, answers: SyncAnswers)
    requires Processed(target, answers)
    ensures DistinctSignatures(Agenda(target, answers))
  {
    var head := answers.head.value.value;
    var found := RunDiscovery(target, answers).found;
    DiscoverCounts(Start(head), head.signature, OverlapFloor(target), 0, answers.pages);
    ProcessedBySlot(found);
    var o := Ordered(found);
    forall i, j | 0 <= i < j < |o| ensures o[i].value.signature != o[j].value.signature {
      assert o[i] in multiset(found) && o[j] in multiset(found);
      assert Precedes(o[i], o[j]);
      var k :| 0 <= k < |found| && found[k] == o[i];
      var l :| 0 <= l < |found| && found[l] == o[j];
      assert k != l;
    }
  }

  /** Everything on the later agenda was on the earlier one. */
  lemma AgendaShrinks(target: WatchTarget, later: WatchTarget, view: View, first: SyncAnswers, second: SyncAnswers,
      i: nat) returns (j: nat)
    requires StillRun(target, view, first) && StillRun(later, view, second)
    requires OverlapFloor(later) >= OverlapFloor(target) && i < |Agenda(later, second)|
    ensures j < |Agenda(target, first)| && Agenda(target, first)[j] == Agenda(later, second)[i]
  {
    StillRunFinds(target, view, first);
    StillRunFinds(later, view, second);
    AgendaIsFound(later, second, i);
    var e, found := Agenda(later, second)[i], RunDiscovery(target, first).found;
    assert e in Due(view, OverlapFloor(target));
    var k :| 0 <= k < |found| && found[k].value == e;
    j := FoundIsOnAgenda(found, e);
  }

  /** The answers to a run, each signature answered as `reply` says. */
  predicate Replies(target: WatchTarget, answers: SyncAnswers, reply: AddressSignature -> EntryAnswer)
    requires Processed(target, answers)
  {
    |Agenda(target, answers)| <= |answers.entries|
      && forall i :: 0 <= i < |Agenda(target, answers)| ==> answers.entries[i] == reply(Agenda(target, answers)[i])
  }

  function Taken(target: WatchTarget, answers: SyncAnswers): (taken: seq<EntryAnswer>)
    requires Processed(target, answers) && |Agenda(target, answers)| <= |answers.entries|
    ensures |taken| == |Agenda(target, answers)|
  {
    answers.entries[..|Agenda(target, answers)|]
  }

  lemma ReachedAll(t: Tables, runtime: Runtime, target: WatchTarget, version: Text, answers: SyncAnswers)
    requires Processed(target, answers) && |Agenda(target, answers)| <= |answers.entries|
    ensures Reached(t, runtime, target, version, answers)
      == ProcessAll(NewRun(t), runtime, target, version, Agenda(target, answers), Taken(target, answers))
  {
    var agenda := Agenda(target, answers);
    assert Prefix(answers.entries, |agenda|) == Taken(target, answers);
    assert agenda[..|agenda|] == agenda;
  }

  lemma FirstRunKnows(t: Tables, runtime: Runtime, target: WatchTarget, later: WatchTarget, version: Text,
      first: SyncAnswers, run: Run, j: nat)
    requires Processed(target, first) && |Agenda(target, first)| <= |first.entries| && j < |Agenda(target, first)|
    requires run == ProcessAll(NewRun(t), runtime, target, version, Agenda(target, first), Taken(target, first))
    requires !run.blocked
    requires BookSound(t.book) && AllReplayable(runtime, target, version, Agenda(target, first), Taken(target, first))
    requires later == target.(headSlot := later.headSlot, headSignature := later.headSignature)
    ensures Known(run.tables, runtime, later, version, Agenda(target, first)[j], first.entries[j])
  {
    var agenda, taken := Agenda(target, first), Taken(target, first);
    UnblockedIsFinal(NewRun(t), runtime, target, version, agenda, taken, run);
    AgendaIsDistinct(target, first);
    RunIsSettled(NewRun(t), runtime, target, version, agenda, taken, run);
    RecordedIsKnown(run.tables, runtime, target, later, version, agenda, taken, j);
  }

  lemma SecondAgendaIsKnown(t: Tables, runtime: Runtime, target: WatchTarget, later: WatchTarget, version: Text,
      view: View,
      first: SyncAnswers, second: SyncAnswers, reply: AddressSignature -> EntryAnswer, run: Run)
    requires StillRun(target, view, first) && StillRun(later, view, second) && Replies(target, first, reply)
    requires Replies(later, second, reply)
    requires run == ProcessAll(NewRun(t), runtime, target, version, Agenda(target, first), Taken(target, first))
    requires !run.blocked
    requires BookSound(t.book) && AllReplayable(runtime, target, version, Agenda(target, first), Taken(target, first))
    requires later == Advance(target, view[0]) && OverlapFloor(later) >= OverlapFloor(target)
    ensures AllKnown(run.tables, runtime, later, version, Agenda(later, second), Taken(later, second))
  {
    var agenda := Agenda(later, second);
    forall i | 0 <= i < |agenda|
      ensures Known(run.tables, runtime, later, version, agenda[i], Taken(later, second)[i])
    {
      var j := AgendaShrinks(target, later, view, first, second, i);
      FirstRunKnows(t, runtime, target, later, version, first, run, j);
    }
  }

  /** A transaction the adapter returned for a signature: an accepted envelope of that signature. */
  predicate FromAdapter(entry: AddressSignature, answer: EntryAnswer) {
    answer.transaction.Ok? && answer.transaction.value.Some? ==>
      Accepted(answer.transaction.value.value.tx) && answer.transaction.value.value.tx.signature == entry.signature
  }

  /** Everything came through the adapter, and no transfer repeats a reference. */
  predicate AllDistinct(runtime: Runtime, target: WatchTarget, version: Text, entries: seq<AddressSignature>,
      answers: seq<EntryAnswer>)
    requires |entries| == |answers|
  {
    forall i :: 0 <= i < |entries| ==>
      var next := ClassInput(runtime, target, entries[i], version, answers[i]);
      FromAdapter(entries[i], answers[i]) && (next.Some? ==> DistinctReferences(next.value))
  }

  lemma AdapterIsOwn(runtime: Runtime, target: WatchTarget, version: Text, entry: AddressSignature, answer: EntryAnswer)
    requires FromAdapter(entry, answer) && ClassInput(runtime, target, entry, version, answer).Some?
    ensures OwnTransfers(ClassInput(runtime, target, entry, version, answer).value)
    ensures Whole(ClassInput(runtime, target, entry, version, answer).value)
  {
    var input := ClassInput(runtime, target, entry, version, answer).value;
    if input.classification == Parsed {
      var tx := answer.transaction.value.value.tx;
      EventIdsDistinct(tx, runtime.base58, Some(target.address));
      TransfersAreOwn(tx, runtime.base58, Some(target.address));
    }
  }

  lemma DistinctIsReplayable(runtime: Runtime, target: WatchTarget, version: Text, entries: seq<AddressSignature>,
      answers: seq<EntryAnswer>)
    requires |entries| == |answers| && AllDistinct(runtime, target, version, entries, answers)
    ensures AllReplayable(runtime, target, version, entries, answers)
  {
    forall i | 0 <= i < |entries| && ClassInput(runtime, target, entries[i], version, answers[i]).Some?
      ensures Replayable(ClassInput(runtime, target, entries[i], version, answers[i]).value)
    {
      AdapterIsOwn(runtime, target, version, entries[i], answers[i]);
    }
  }

  /**
   Syncing again over an unchanged history, with the provider and the database answering as
   before, adds no signature, raw transaction, event or quarantine, as long as the transfers
   of each transaction repeat no reference.
   */
  lemma ResyncAddsNothing(t: Tables, runtime: Runtime, target: WatchTarget, version: Text, view: View,
      first: SyncAnswers, second: SyncAnswers, reply: AddressSignature -> EntryAnswer)
    requires StillRun(target, view, first) && Replies(target, first, reply) && HeadReached(target, view)
    requires BookSound(t.book) && AllDistinct(runtime, target, version, Agenda(target, first), Taken(target, first))
    requires Moves(t, runtime, target, version, first)
    requires StillRun(Advance(target, view[0]), view, second) && Replies(Advance(target, view[0]), second, reply)
    ensures var (u, later, _) := AfterSync(t, runtime, target, version, first);
      var (v, after, again) := AfterSync(u, runtime, later, version, second);
      && later == Advance(target, view[0]) && after == later && AddsNothing(u, v)
      && (second.completion.Completed? ==> again.Reported? && again.report.cursorAdvanced)
      && (again.Reported? ==> again.report.signaturesStored == 0 && again.report.eventsStored == 0 && again.report.quarantinesCreated == 0)
  {
    var later := Advance(target, view[0]);
    var u := AfterSync(t, runtime, target, version, first).0;
    AgendaProcessed(t, runtime, target, version, first);
    ReachedAll(t, runtime, target, version, first);
    DistinctIsReplayable(runtime, target, version, Agenda(target, first), Taken(target, first));
    var run := Reached(t, runtime, target, version, first);
    SecondAgendaIsKnown(t, runtime, target, later, version, view, first, second, reply, run);
    AgendaProcessed(u, runtime, later, version, second);
    ReachedAll(u, runtime, later, version, second);
    KnownRunIsSilent(NewRun(u), runtime, later, version, Agenda(later, second), Taken(later, second),
      Reached(u, runtime, later, version, second));
  }
}
