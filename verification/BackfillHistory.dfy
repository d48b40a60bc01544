/** What backfill runs achieve together: no history entry behind the committed head is ever lost. */
module BackfillHistory {
  import opened Wrappers
  import opened Texts
  import opened EvidenceTables
  import opened ParsingDigest
  import opened RepresentationStore
  import opened Discovery
  import opened Coverage
  import opened Backfill
  import History = RepresentationHistory
  import Replay = RepresentationReplay
  import Sorting

  // ------------------------------------------------------------------ one recording

  /** Every class fits its finality state. */
  predicate RowsFit(t: Tables) {
    forall key :: key in t.rows ==> History.ClassFits(t.rows[key].classification, t.rows[key].state)
  }

  predicate RowsEvolve(t: Tables, u: Tables) {
    forall key :: key in t.rows ==> key in u.rows && History.RowEvolves(t.rows[key], u.rows[key])
  }

  /** The signature is stored for the target, with a class that is final as far as backfill goes. */
  predicate Classified(t: Tables, watchTargetId: Text, signature: Text) {
    RowKey(watchTargetId, signature) in t.rows && t.rows[RowKey(watchTargetId, signature)].classification != Pending
  }

  lemma RowAfterEvolves(t: Tables, runtime: Runtime, input: Input)
    requires RowsFit(t)
    ensures var row := RowAfter(t, runtime, input);
      && History.ClassFits(row.classification, row.state)
      && (KeyOf(input) in t.rows ==> History.RowEvolves(t.rows[KeyOf(input)], row))
      && (input.classification != Pending ==> row.classification != Pending)
  {
    var classification, rawId, digest := Decide(t, input).classification, RawIdAfter(t.raws, input), ParseDigestOf(runtime, input);
    if KeyOf(input) in t.rows {
    }
  }

  lemma RowPut(t: Tables, u: Tables, key: RowKey, row: SignatureRow)
    requires RowsFit(t) && u.rows == t.rows[key := row] && History.ClassFits(row.classification, row.state)
    requires key in t.rows ==> History.RowEvolves(t.rows[key], row)
    ensures RowsFit(u) && RowsEvolve(t, u)
  {
  }

  lemma AttemptRows(t: Tables, runtime: Runtime, input: Input, storing: Storing)
    ensures var (u, recorded) := Attempt(t, runtime, input, storing);
      && (recorded.Some? ==> storing.Acknowledged?)
      && if storing.Commits() && AfterRepresentation(t, runtime, input).1.Ok?
         then u.rows == t.rows[KeyOf(input) := RowAfter(t, runtime, input)]
         else u == t && recorded.None?
  {
  }

  lemma AttemptEvolves(t: Tables, runtime: Runtime, input: Input, storing: Storing)
    requires RowsFit(t)
    ensures var (u, recorded) := Attempt(t, runtime, input, storing);
      && RowsFit(u) && RowsEvolve(t, u)
      && (storing.Commits() && AfterRepresentation(t, runtime, input).1.Ok? && input.classification != Pending ==>
            Classified(u, input.watchTargetId, input.discovered.signature))
  {
    AttemptRows(t, runtime, input, storing);
    RowAfterEvolves(t, runtime, input);
    var (u, recorded) := Attempt(t, runtime, input, storing);
    if u != t { RowPut(t, u, KeyOf(input), RowAfter(t, runtime, input)); }
  }

  // ------------------------------------------------------------------ one signature, one run

  /** One run state follows another: rows only evolve, and a blocked run stays blocked. */
  ghost predicate Follows(before: Run, after: Run) {
    RowsFit(after.tables) && RowsEvolve(before.tables, after.tables) && (!after.blocked ==> !before.blocked)
  }

  lemma FollowsTransitive(a: Run, b: Run, c: Run)
    requires Follows(a, b) && Follows(b, c)
    ensures Follows(a, c)
  {
  }

  lemma PendingFollows(run: Run, runtime: Runtime, input: Input, storing: Storing)
    requires RowsFit(run.tables)
    ensures var (pending, taken) := ProcessPending(run, runtime, input, storing); Follows(run, pending) && (!taken ==> pending.blocked)
  {
    AttemptEvolves(run.tables, runtime, input, storing);
  }

  lemma ClassFollows(run: Run, runtime: Runtime, input: Input, storing: Storing)
    requires RowsFit(run.tables) && input.classification != Pending
    ensures var after := ProcessClass(run, runtime, input, storing);
      Follows(run, after) && (!after.blocked ==> Classified(after.tables, input.watchTargetId, input.discovered.signature))
  {
    AttemptEvolves(run.tables, runtime, input, storing);
  }

  lemma ClassInputIsFinal(runtime: Runtime, target: WatchTarget, entry: AddressSignature, version: Text,
      answer: EntryAnswer)
    requires ClassInput(runtime, target, entry, version, answer).Some?
    ensures var input := ClassInput(runtime, target, entry, version, answer).value;
      input.classification != Pending && input.watchTargetId == target.id && input.discovered == entry
  {
  }

  /** Both recordings of a signature pass snapshot and transaction together, and of one body. */
  lemma RecordingsArePaired(runtime: Runtime, target: WatchTarget, entry: AddressSignature, version: Text,
      answer: EntryAnswer)
    requires History.FaithfulAnswer(answer.transaction)
    ensures History.Paired(runtime, PendingInput(target, entry, version), None)
    ensures var next := ClassInput(runtime, target, entry, version, answer);
      next.Some? ==> History.Paired(runtime, next.value, if answer.transaction.Ok? then answer.transaction.value else None)
  {
  }

  lemma EntryIsClassified(run: Run, runtime: Runtime, target: WatchTarget, version: Text, entry: AddressSignature,
      answer: EntryAnswer, after: Run)
    requires RowsFit(run.tables) && after == ProcessEntry(run, runtime, target, version, entry, answer)
    ensures Follows(run, after) && (!after.blocked ==> Classified(after.tables, target.id, entry.signature))
  {
    PendingFollows(run, runtime, PendingInput(target, entry, version), answer.discovery);
    var (pending, stored) := ProcessPending(run, runtime, PendingInput(target, entry, version), answer.discovery);
    var next := ClassInput(runtime, target, entry, version, answer);
    if stored && next.Some? {
      ClassInputIsFinal(runtime, target, entry, version, answer);
      ClassFollows(pending, runtime, next.value, answer.classification);
      FollowsTransitive(run, pending, after);
    }
  }

  predicate AllClassified(t: Tables, watchTargetId: Text, entries: seq<AddressSignature>) {
    forall i :: 0 <= i < |entries| ==> Classified(t, watchTargetId, entries[i].signature)
  }

  /** One signature of the run: its states before and after. */
  ghost predicate EntryStep(before: Run, after: Run, watchTargetId: Text, entry: AddressSignature) {
    Follows(before, after) && (!after.blocked ==> Classified(after.tables, watchTargetId, entry.signature))
  }

  lemma {:induction false} StepsClassify(runs: seq<Run>, watchTargetId: Text, entries: seq<AddressSignature>, n: nat)
    requires |runs| == |entries| + 1 && n <= |entries| && RowsFit(runs[0].tables)
    requires forall i :: 0 <= i < |entries| ==> EntryStep(runs[i], runs[i + 1], watchTargetId, entries[i])
    ensures Follows(runs[0], runs[n])
    ensures !runs[n].blocked ==> AllClassified(runs[n].tables, watchTargetId, entries[..n])
  {
    if n > 0 {
      StepsClassify(runs, watchTargetId, entries, n - 1);
      assert EntryStep(runs[n - 1], runs[n - 1 + 1], watchTargetId, entries[n - 1]);
      FollowsTransitive(runs[0], runs[n - 1], runs[n]);
      assert entries[..n] == entries[..n - 1] + [entries[n - 1]];
    }
  }

  /** The states of a run, one after each signature. */
  function States(run: Run, runtime: Runtime, target: WatchTarget, version: Text, entries: seq<AddressSignature>,
      answers: seq<EntryAnswer>): (runs: seq<Run>)
    requires |answers| == |entries|
    ensures |runs| == |answers| + 1
    ensures forall i ::
      0 <= i <= |answers| ==> runs[i] == ProcessAll(run, runtime, target, version, entries[..i], answers[..i])
  {
    seq(|answers| + 1, i requires 0 <= i <= |answers| => ProcessAll(run, runtime, target, version, entries[..i], answers[..i]))
  }

  lemma {:induction false} StatesStep(run: Run, runtime: Runtime, target: WatchTarget, version: Text,
      entries: seq<AddressSignature>, answers: seq<EntryAnswer>, n: nat)
    requires RowsFit(run.tables) && |answers| == |entries| && n <= |answers|
    ensures var runs := States(run, runtime, target, version, entries, answers);
      && RowsFit(runs[n].tables)
      && forall i :: 0 <= i < n ==> EntryStep(runs[i], runs[i + 1], target.id, entries[i])
  {
    if n > 0 {
      StatesStep(run, runtime, target, version, entries, answers, n - 1);
      var runs := States(run, runtime, target, version, entries, answers);
      OneMore(run, runtime, target, version, entries, answers, n - 1);
      EntryIsClassified(runs[n - 1], runtime, target, version, entries[n - 1], answers[n - 1], runs[n]);
    }
  }

  /** A run that is not blocked has given every signature it went through a class. */
  lemma RunClassifies(run: Run, runtime: Runtime, target: WatchTarget, version: Text, entries: seq<AddressSignature>,
      answers: seq<EntryAnswer>, after: Run)
    requires RowsFit(run.tables) && |answers| == |entries|
    requires after == ProcessAll(run, runtime, target, version, entries, answers)
    ensures Follows(run, after) && (!after.blocked ==> AllClassified(after.tables, target.id, entries))
  {
    StatesStep(run, runtime, target, version, entries, answers, |answers|);
    StepsClassify(States(run, runtime, target, version, entries, answers), target.id, entries, |entries|);
    assert entries[..|entries|] == entries && answers[..|answers|] == answers && entries[..0] == [] && answers[..0] == [];
  }

  /** Everything found is on the agenda. */
  lemma FoundIsOnAgenda(found: seq<Found>, e: AddressSignature) returns (i: nat)
    requires Holds(found, e)
    ensures i < |Ordered(found)| && EntriesOf(Ordered(found))[i] == e
  {
    Sorting.SortPermutes(found, Precedes);
    var k :| 0 <= k < |found| && found[k].value == e;
    assert found[k] in multiset(found) && found[k] in multiset(Ordered(found));
    i :| 0 <= i < |Ordered(found)| && Ordered(found)[i] == found[k];
  }

  /** The discovery a run is based on. */
  function RunDiscovery(target: WatchTarget, answers: SyncAnswers): Discovered
    requires answers.head.Ok? && answers.head.value.Some?
  {
    Discover(Start(answers.head.value.value), answers.head.value.value.signature, OverlapFloor(target), 0, answers.pages)
  }

  /** The run reached its end: nothing unanswered, the pages and every signature dealt with. */
  predicate Processed(target: WatchTarget, answers: SyncAnswers) {
    && answers.head.Ok? && answers.head.value.Some?
    && RunDiscovery(target, answers).ending == Done
  }

  /** How far a run got through its agenda. */
  function Reached(t: Tables, runtime: Runtime, target: WatchTarget, version: Text, answers: SyncAnswers): Run
    requires Processed(target, answers)
  {
    var agenda := Agenda(target, answers);
    var taken := Prefix(answers.entries, |agenda|);
    ProcessAll(NewRun(t), runtime, target, version, agenda[..|taken|], taken)
  }

  function Advance(target: WatchTarget, head: AddressSignature): WatchTarget {
    target.(headSlot := Some(head.slot), headSignature := Some(head.signature))
  }

  /** The run moves the cursor: everything was dealt with, nothing is blocked, and the completion commits. */
  predicate Moves(t: Tables, runtime: Runtime, target: WatchTarget, version: Text, answers: SyncAnswers) {
    && Processed(target, answers) && |Agenda(target, answers)| <= |answers.entries|
    && !Reached(t, runtime, target, version, answers).blocked && answers.completion.Commits()
  }

  lemma Finished(target: WatchTarget, head: AddressSignature, discovered: nat, pages: nat, run: Run,
      completion: Completion)
    ensures var (after, outcome) := Finish(target, head, discovered, pages, run, completion);
      && (outcome.Rejected? <==> completion.Failed?)
      && (outcome.Reported? ==>
            && outcome.report.signaturesStored == run.signaturesStored
            && outcome.report.eventsStored == run.eventsStored && outcome.report.quarantinesCreated == run.quarantinesCreated
            && outcome.report.cursorAdvanced == (!run.blocked && completion.Completed?))
      && after == (if !run.blocked && completion.Commits() then Advance(target, head) else target)
  {
  }

  lemma AgendaProcessed(t: Tables, runtime: Runtime, target: WatchTarget, version: Text, answers: SyncAnswers)
    requires Processed(target, answers)
    ensures var (u, after, outcome) := AfterSync(t, runtime, target, version, answers);
      var run := Reached(t, runtime, target, version, answers);
      && u == run.tables
      && (outcome.Reported? <==> |Agenda(target, answers)| <= |answers.entries| && !answers.completion.Failed?)
      && (outcome.Reported? ==>
            && outcome.report.signaturesStored == run.signaturesStored
            && outcome.report.eventsStored == run.eventsStored && outcome.report.quarantinesCreated == run.quarantinesCreated
            && outcome.report.cursorAdvanced == Moves(t, runtime, target, version, answers))
      && after == (if Moves(t, runtime, target, version, answers) then Advance(target, answers.head.value.value) else target)
  {
    var agenda := Agenda(target, answers);
    SameProcessing(NewRun(t), runtime, target, version, agenda, Prefix(answers.entries, |agenda|));
    Finished(target, answers.head.value.value, |agenda|, RunDiscovery(target, answers).pages,
      Reached(t, runtime, target, version, answers), answers.completion);
  }

  lemma SyncCases(t: Tables, runtime: Runtime, target: WatchTarget, version: Text, answers: SyncAnswers)
    ensures var (u, after, outcome) := AfterSync(t, runtime, target, version, answers);
      && u == (if Processed(target, answers) then Reached(t, runtime, target, version, answers).tables else t)
      && after == (if Moves(t, runtime, target, version, answers) then Advance(target, answers.head.value.value) else target)
      && (outcome.Reported? ==> outcome.report.cursorAdvanced == Moves(t, runtime, target, version, answers))
  {
    if Processed(target, answers) { AgendaProcessed(t, runtime, target, version, answers); }
  }

  lemma DiscoveredIsClassified(t: Tables, target: WatchTarget, answers: SyncAnswers, e: AddressSignature)
    requires Processed(target, answers) && AllClassified(t, target.id, Agenda(target, answers))
    requires Holds(RunDiscovery(target, answers).found, e)
    ensures Classified(t, target.id, e.signature)
  {
    var i := FoundIsOnAgenda(RunDiscovery(target, answers).found, e);
    assert Agenda(target, answers)[i] == e;
  }

  /** What a run leaves behind: evolved rows, and a cursor that moves only over a fully classified discovery. */
  lemma SyncOutcome(t: Tables, runtime: Runtime, target: WatchTarget, version: Text, answers: SyncAnswers)
    requires RowsFit(t)
    ensures var (u, after, outcome) := AfterSync(t, runtime, target, version, answers);
      && RowsFit(u) && RowsEvolve(t, u)
      && (Moves(t, runtime, target, version, answers) ==>
            forall e :: Holds(RunDiscovery(target, answers).found, e) ==> Classified(u, target.id, e.signature))
  {
    SyncCases(t, runtime, target, version, answers);
    if Processed(target, answers) {
      var agenda := Agenda(target, answers);
      var taken := Prefix(answers.entries, |agenda|);
      var run := Reached(t, runtime, target, version, answers);
      RunClassifies(NewRun(t), runtime, target, version, agenda[..|taken|], taken, run);
      if Moves(t, runtime, target, version, answers) {
        assert agenda[..|taken|] == agenda;
        forall e | Holds(RunDiscovery(target, answers).found, e)
          ensures Classified(run.tables, target.id, e.signature)
        {
          DiscoveredIsClassified(run.tables, target, answers, e);
        }
      }
    }
  }

  // ------------------------------------------------------------------ over all runs

  /**
   A watch target with its tables, the history as it now stands, and as it stood when the committed
   head was captured.
   */
  datatype Site = Site(tables: Tables, target: WatchTarget, view: View, captured: View)

  datatype Step =
    | Sync(version: Text, answers: SyncAnswers, views: seq<View>)
    | Elsewhere(tables: Tables, view: View)

  /**
   A run pages through the history honestly while that grows. Other work only evolves the rows; of
   this target, whose sync lock it does not hold, it adds none and classifies none. New history
   entries are never more than the overlap behind the tip.
   */
  ghost predicate Enabled(s: Site, step: Step) {
    match step
    case Sync(_, answers, views) =>
      && (answers.head.Ok? ==> answers.head.value == (if s.view == [] then None else Some(s.view[0])))
      && |answers.pages| <= |views| && AllGrowWithin(s.view, views, s.target.overlapSlots)
      && (s.view != [] ==> HonestAnswers(views, s.view[0].signature, answers.pages))
    case Elsewhere(tables, view) =>
      && RowsFit(tables) && RowsEvolve(s.tables, tables) && GrowsWithin(s.view, view, s.target.overlapSlots)
      && Replay.RowsOf(tables, s.target.id) == Replay.RowsOf(s.tables, s.target.id)
      && SameClasses(s.tables, tables, s.target.id)
  }

  predicate SameClasses(t: Tables, u: Tables, watchTargetId: Text) {
    forall key :: key in Replay.RowsOf(t, watchTargetId) && key in u.rows ==> u.rows[key].classification == t.rows[key].classification
  }

  function Apply(s: Site, runtime: Runtime, step: Step): Site {
    match step
    case Sync(version, answers, views) =>
      var (tables, target, _) := AfterSync(s.tables, runtime, s.target, version, answers);
      Site(tables, target, FinalView(s.view, views), if Moves(s.tables, runtime, s.target, version, answers) then s.view else s.captured)
    case Elsewhere(tables, view) => s.(tables := tables, view := view)
  }

  /** As `addWatchTarget` leaves a target: committed up to the cutover, or not at all. */
  predicate Initial(s: Site) {
    && s.tables.rows == map[] && s.captured == []
    && (s.target.headSlot.None? || s.target.headSlot == Some(s.target.cutoverSlot))
  }

  ghost predicate Chronicle(sites: seq<Site>, runtime: Runtime, steps: seq<Step>) {
    && |sites| == |steps| + 1 && Initial(sites[0]) && ValidView(sites[0].view)
    && forall i {:trigger steps[i]} :: 0 <= i < |steps| ==>
         Enabled(sites[i], steps[i]) && sites[i + 1] == Apply(sites[i], runtime, steps[i])
  }

  /** The committed head is the cutover, or a slot the history has reached. */
  predicate HeadReached(target: WatchTarget, view: View) {
    target.headSlot.Some? && target.headSlot.value != target.cutoverSlot ==> view != [] && target.headSlot.value <= view[0].slot
  }

  /** From the cutover up to a slot, everything in the view is classified. */
  predicate CoveredUpTo(t: Tables, target: WatchTarget, view: View, below: nat) {
    forall i :: 0 <= i < |view| && target.cutoverSlot <= view[i].slot < below ==> Classified(t, target.id, view[i].signature)
  }

  predicate CoveredFromCutover(t: Tables, target: WatchTarget, view: View) {
    forall i :: 0 <= i < |view| && target.cutoverSlot <= view[i].slot ==> Classified(t, target.id, view[i].signature)
  }

  ghost predicate Inv(s: Site) {
    && RowsFit(s.tables) && ValidView(s.view)
    && HeadReached(s.target, s.view)
    && CoveredUpTo(s.tables, s.target, s.view, OverlapFloor(s.target))
    && CoveredFromCutover(s.tables, s.target, s.captured)
  }

  /** A late entry is never below the floor of the next run. */
  lemma LateIsAboveFloor(target: WatchTarget, a: View, b: View, e: AddressSignature)
    requires GrowsWithin(a, b, target.overlapSlots) && HeadReached(target, a) && e in b && e !in a
    ensures e.slot >= OverlapFloor(target) || e.slot < target.cutoverSlot
  {
    var i :| 0 <= i < |b| && b[i] == e;
    assert a != [] ==> b[i].slot + target.overlapSlots >= a[0].slot;
  }

  /** What is covered stays covered while the history grows. */
  lemma CoverageGrows(t: Tables, u: Tables, target: WatchTarget, a: View, b: View)
    requires RowsEvolve(t, u) && GrowsWithin(a, b, target.overlapSlots) && HeadReached(target, a)
    requires CoveredUpTo(t, target, a, OverlapFloor(target))
    ensures CoveredUpTo(u, target, b, OverlapFloor(target)) && HeadReached(target, b)
  {
    if a != [] { TipRises(a, b); }
    forall i | 0 <= i < |b| && target.cutoverSlot <= b[i].slot < OverlapFloor(target)
      ensures Classified(u, target.id, b[i].signature)
    {
      if b[i] in a {
        var j :| 0 <= j < |a| && a[j] == b[i];
      } else {
        LateIsAboveFloor(target, a, b, b[i]);
      }
    }
  }

  /** A run that advances the cursor has covered the whole captured history from the cutover on. */
  lemma AdvanceCovers(t: Tables, u: Tables, target: WatchTarget, capture: View, found: seq<Found>)
    requires RowsEvolve(t, u) && CoveredUpTo(t, target, capture, OverlapFloor(target))
    requires AllFound(capture, found, OverlapFloor(target)) && forall e :: Holds(found, e) ==> Classified(u, target.id, e.signature)
    ensures CoveredFromCutover(u, target, capture)
  {
    forall i | 0 <= i < |capture| && target.cutoverSlot <= capture[i].slot
      ensures Classified(u, target.id, capture[i].signature)
    {
      if capture[i].slot < OverlapFloor(target) {
      } else {
        assert Holds(found, capture[i]);
      }
    }
  }

  /** The run that advances: from the captured view to the final one. */
  lemma AdvanceKeeps(s: Site, u: Tables, after: WatchTarget, found: seq<Found>, last: View)
    requires Inv(s) && s.view != [] && RowsFit(u) && RowsEvolve(s.tables, u)
    requires AllFound(s.view, found, OverlapFloor(s.target)) && forall e :: Holds(found, e) ==> Classified(u, s.target.id, e.signature)
    requires GrowsWithin(s.view, last, s.target.overlapSlots)
    requires after == s.target.(headSlot := Some(s.view[0].slot), headSignature := after.headSignature)
    ensures Inv(Site(u, after, last, s.view))
  {
    AdvanceCovers(s.tables, u, s.target, s.view, found);
    assert RowsEvolve(u, u);
    CoverageGrows(u, u, after, s.view, last);
  }

  lemma SyncKeeps(s: Site, runtime: Runtime, version: Text, answers: SyncAnswers, views: seq<View>)
    requires Inv(s) && Enabled(s, Sync(version, answers, views))
    ensures Inv(Apply(s, runtime, Sync(version, answers, views)))
  {
    var (u, after, _) := AfterSync(s.tables, runtime, s.target, version, answers);
    var last := FinalView(s.view, views);
    SyncCases(s.tables, runtime, s.target, version, answers);
    SyncOutcome(s.tables, runtime, s.target, version, answers);
    GrowingIsGrowing(s.view, views, s.target.overlapSlots);
    RunGrowsWithin(s.view, views, s.target.overlapSlots);
    if Moves(s.tables, runtime, s.target, version, answers) {
      DiscoveryCovers(s.view, views, OverlapFloor(s.target), answers.pages);
      AdvanceKeeps(s, u, after, RunDiscovery(s.target, answers).found, last);
    } else {
      CoverageGrows(s.tables, u, s.target, s.view, last);
    }
  }

  lemma StepKeeps(s: Site, runtime: Runtime, step: Step)
    requires Inv(s) && Enabled(s, step)
    ensures Inv(Apply(s, runtime, step))
  {
    match step
    case Sync(version, answers, views) => SyncKeeps(s, runtime, version, answers, views);
    case Elsewhere(tables, view) =>
      CoverageGrows(s.tables, tables, s.target, s.view, view);
  }

  lemma {:induction false} SitesSound(sites: seq<Site>, runtime: Runtime, steps: seq<Step>, n: nat)
    requires Chronicle(sites, runtime, steps) && n <= |steps|
    ensures Inv(sites[n])
  {
    if n > 0 {
      SitesSound(sites, runtime, steps, n - 1);
      StepKeeps(sites[n - 1], runtime, steps[n - 1]);
    }
  }

  /**
   Over any sequence of runs, failed, blocked and aborted ones included: every entry that was
   in the history when the committed head was captured, from the cutover slot on, is
   classified, and so is every entry that lies below the floor of the next run.
   */
  lemma NothingIsLost(sites: seq<Site>, runtime: Runtime, steps: seq<Step>, n: nat)
    requires Chronicle(sites, runtime, steps) && n <= |steps|
    ensures var s := sites[n];
      && (forall e :: e in s.captured && s.target.cutoverSlot <= e.slot ==> Classified(s.tables, s.target.id, e.signature))
      && (forall e :: e in s.view && s.target.cutoverSlot <= e.slot < OverlapFloor(s.target) ==> Classified(s.tables, s.target.id, e.signature))
  {
    SitesSound(sites, runtime, steps, n);
  }
}
