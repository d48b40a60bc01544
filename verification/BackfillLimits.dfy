/** Runs that show where the backfill properties end: a late entry that is missed, a row that is never reported. */
module BackfillLimits {
  import opened Wrappers
  import opened Texts
  import opened EvidenceTables
  import opened ParsingDigest
  import opened RepresentationStore
  import opened RepresentationReplay
  import opened Discovery
  import opened Coverage
  import opened Backfill
  import opened BackfillHistory
  import opened LateEntries
  import Replay = BackfillReplay
  import Sorting
  import Consensus = FinalizedConsensus

  /** The head's transaction cannot be represented, and is quarantined for good. */
  function QuarantinedReply(): EntryAnswer {
    EntryAnswer(Acknowledged, Err(Consensus.Ingestion(RpcTransactionSchemaInvalid, false)), Acknowledged)
  }

  /** The head's transaction is not there yet. */
  function PendingReply(): EntryAnswer {
    EntryAnswer(Acknowledged, Err(Consensus.Ingestion(RpcTransportError, true)), Lost(false))
  }

  /** The whole history is the head: one empty page, one signature. */
  function HeadAnswers(head: AddressSignature, reply: EntryAnswer, completion: Completion): SyncAnswers {
    SyncAnswers(Ok(Some(head)), [Page([], true)], [reply], completion)
  }

  lemma HeadIsFound(target: WatchTarget, head: AddressSignature, reply: EntryAnswer, completion: Completion)
    ensures var answers := HeadAnswers(head, reply, completion);
      Processed(target, answers) && RunDiscovery(target, answers).found == Start(head) && Agenda(target, answers) == [head]
  {
    var found := Start(head);
    assert found[1..] == [] && Sorting.Sort(found[1..], Precedes) == [];
    assert Ordered(found) == found;
  }

  lemma HeadIsProcessed(t: Tables, runtime: Runtime, target: WatchTarget, version: Text, head: AddressSignature,
      reply: EntryAnswer, completion: Completion)
    ensures var answers := HeadAnswers(head, reply, completion);
      Processed(target, answers) && Reached(t, runtime, target, version, answers) == ProcessEntry(NewRun(t), runtime, target, version, head, reply)
  {
    HeadIsFound(target, head, reply, completion);
    OneMore(NewRun(t), runtime, target, version, [head], [reply], 0);
    assert [head][..0 + 1] == [head] && [reply][..0 + 1] == [reply] && [head][..0] == [] && [reply][..0] == [];
    assert Prefix(HeadAnswers(head, reply, completion).entries, 1) == [reply];
  }

  lemma HeadRunEnabled(s: Site, version: Text, head: AddressSignature, reply: EntryAnswer, completion: Completion)
    requires s.view == [head]
    ensures Enabled(s, Sync(version, HeadAnswers(head, reply, completion), [[head]]))
  {
    ExtendsItself([head]);
    assert Mentions([head], head.signature) by { assert [head][0] == head; }
    assert After([head], head.signature) == [];
  }

  // ------------------------------------------------------------------ a late entry

  lemma HeadRunMoves(s: Site, runtime: Runtime, version: Text, head: AddressSignature)
    ensures Moves(s.tables, runtime, s.target, version, HeadAnswers(head, QuarantinedReply(), Completed))
  {
    HeadIsProcessed(s.tables, runtime, s.target, version, head, QuarantinedReply(), Completed);
    HeadIsFound(s.target, head, QuarantinedReply(), Completed);
  }

  lemma HeadRunLeaves(s: Site, runtime: Runtime, version: Text, head: AddressSignature)
    requires RowsFit(s.tables) && s.view == [head]
    ensures var next := Apply(s, runtime, Sync(version, HeadAnswers(head, QuarantinedReply(), Completed), [[head]]));
      RowsFit(next.tables) && next.target == Advance(s.target, head) && next.view == [head]
  {
    HeadRunMoves(s, runtime, version, head);
    SyncCases(s.tables, runtime, s.target, version, HeadAnswers(head, QuarantinedReply(), Completed));
    SyncOutcome(s.tables, runtime, s.target, version, HeadAnswers(head, QuarantinedReply(), Completed));
    assert FinalView(s.view, [[head]]) == [head];
  }

  lemma LateEntryGrows(head: AddressSignature, late: AddressSignature, overlap: nat)
    requires late.slot <= head.slot <= late.slot + overlap && late.signature != head.signature
    ensures GrowsWithin([head], [head, late], overlap)
  {
    var a, b := [head], [head, late];
    assert b[0].signature == head.signature && At(b, head.signature) == 0;
  }

  lemma LateIsEnabled(s: Site, runtime: Runtime, version: Text, head: AddressSignature, late: AddressSignature)
    requires Initial(s) && s.view == [head]
    requires late.slot <= head.slot <= late.slot + s.target.overlapSlots && late.signature != head.signature
    ensures var run := Sync(version, HeadAnswers(head, QuarantinedReply(), Completed), [[head]]);
      var next := Apply(s, runtime, run);
      && ValidView(s.view) && Enabled(s, run) && Enabled(next, Elsewhere(next.tables, [head, late])) && next.target == Advance(s.target, head)
  {
    HeadRunEnabled(s, version, head, QuarantinedReply(), Completed);
    HeadRunLeaves(s, runtime, version, head);
    LateEntryGrows(head, late, s.target.overlapSlots);
  }

  lemma TwoSteps(s: Site, runtime: Runtime, first: Step, second: Step)
    requires Initial(s) && ValidView(s.view) && Enabled(s, first) && Enabled(Apply(s, runtime, first), second)
    ensures var next := Apply(s, runtime, first); Chronicle([s, next, Apply(next, runtime, second)], runtime, [first, second])
  {
  }

  /** The head is captured and its run moves the cursor; then another entry appears behind it. */
  lemma LateChronicle(s: Site, runtime: Runtime, version: Text, head: AddressSignature, late: AddressSignature)
      returns (sites: seq<Site>, steps: seq<Step>)
    requires Initial(s) && s.view == [head]
    requires late.slot <= head.slot <= late.slot + s.target.overlapSlots && late.signature != head.signature
    ensures |steps| == 2 && LastMove(sites, runtime, steps, 0, 2) && sites[0] == s
    ensures steps[0] == Sync(version, HeadAnswers(head, QuarantinedReply(), Completed), [[head]])
    ensures steps[1].Elsewhere? && sites[2].view == [head, late] && sites[2].target == Advance(s.target, head)
  {
    var run := Sync(version, HeadAnswers(head, QuarantinedReply(), Completed), [[head]]);
    var next := Apply(s, runtime, run);
    var appear := Elsewhere(next.tables, [head, late]);
    steps := [run, appear];
    sites := [s, next, Apply(next, runtime, appear)];
    HeadRunMoves(s, runtime, version, head);
    LateIsEnabled(s, runtime, version, head, late);
    TwoSteps(s, runtime, run, appear);
  }

  lemma NotMet(s: Site, step: Step, head: AddressSignature, late: AddressSignature)
    requires s.view == [head] && late != head && step.Sync?
    requires step.answers == HeadAnswers(head, QuarantinedReply(), Completed)
    ensures Processed(s.target, step.answers) && !Met(s, step, late)
  {
    HeadIsFound(s.target, head, QuarantinedReply(), Completed);
  }

  lemma NotAttended(sites: seq<Site>, runtime: Runtime, steps: seq<Step>, version: Text, head: AddressSignature,
      late: AddressSignature)
    requires |steps| == 2 && |sites| == 3 && sites[0].view == [head] && late != head && steps[1].Elsewhere?
    requires steps[0] == Sync(version, HeadAnswers(head, QuarantinedReply(), Completed), [[head]])
    ensures Processed(sites[0].target, steps[0].answers) && !Attended(sites, runtime, steps, 0, 2, late)
  {
    NotMet(sites[0], steps[0], head, late);
    assert !TakenUpSince(sites, runtime, steps, 0, 1, late);
  }

  /** That entry lies up to the head, and is not classified. */
  lemma LateEntryIsMissed(s: Site, runtime: Runtime, version: Text, head: AddressSignature, late: AddressSignature)
      returns (sites: seq<Site>, steps: seq<Step>)
    requires Initial(s) && s.view == [head] && s.target.cutoverSlot <= late.slot
    requires late.slot <= head.slot <= late.slot + s.target.overlapSlots && late.signature != head.signature
    ensures |steps| == 2 && LastMove(sites, runtime, steps, 0, 2) && sites[0] == s
    ensures late in sites[2].view && UpToHead(sites[2].target, late) && !RecordedUpToHead(sites[2])
  {
    sites, steps := LateChronicle(s, runtime, version, head, late);
    assert late in sites[2].view by { assert sites[2].view[1] == late; }
    NotAttended(sites, runtime, steps, version, head, late);
    RecordedUpToHeadIff(sites, runtime, steps, 0, 2);
  }

  // ------------------------------------------------------------------ a row that is never reported

  lemma AbortedHeadRun(t: Tables, runtime: Runtime, target: WatchTarget, version: Text, head: AddressSignature)
    requires t.rows == map[]
    ensures var (u, _, outcome) :=
        AfterSync(t, runtime, target, version, HeadAnswers(head, PendingReply(), Completion.Failed(false)));
      outcome.Rejected? && RowsOf(u, target.id) == {RowKey(target.id, head.signature)}
  {
    HeadIsProcessed(t, runtime, target, version, head, PendingReply(), Completion.Failed(false));
    AgendaProcessed(t, runtime, target, version, HeadAnswers(head, PendingReply(), Completion.Failed(false)));
    RecordingCounts(t, runtime, PendingInput(target, head, version));
    assert RowsOf(t, target.id) == {};
  }

  /**
   A discovery is stored, its transaction is not there yet, and then the process fails: one row, and
   no report of it.
   */
  lemma AbortedRunHides(s: Site, runtime: Runtime, version: Text, head: AddressSignature)
      returns (sites: seq<Site>, steps: seq<Step>)
    requires Initial(s) && s.view == [head]
    ensures |steps| == 1 && Chronicle(sites, runtime, steps) && sites[0] == s
    ensures Replay.Reported(sites, runtime, steps, 1) == 0 && |RowsOf(sites[1].tables, s.target.id)| == 1
  {
    var run := Sync(version, HeadAnswers(head, PendingReply(), Completion.Failed(false)), [[head]]);
    sites, steps := [s, Apply(s, runtime, run)], [run];
    HeadRunEnabled(s, version, head, PendingReply(), Completion.Failed(false));
    AbortedHeadRun(s.tables, runtime, s.target, version, head);
    assert Replay.Reported(sites, runtime, steps, 1)
      == Replay.Reported(sites, runtime, steps, 0) + Replay.StepReports(s, runtime, run);
  }
}
