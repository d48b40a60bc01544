/**
 Entries that appear late, behind the committed head: when everything up to the head is
 recorded all the same, and when it is not.
 */
module LateEntries {
  import opened Wrappers
  import opened Texts
  import opened EvidenceTables
  import opened ParsingDigest
  import opened RepresentationStore
  import opened RepresentationReplay
  import opened Discovery
  import opened Coverage
  import opened Backfill
  import opened BackfillHistory
  import opened BackfillReplay
  import History = RepresentationHistory
  import Sorting

  /** From the cutover up to the committed head. */
  predicate UpToHead(target: WatchTarget, e: AddressSignature) {
    target.headSlot.Some? && target.cutoverSlot <= e.slot <= target.headSlot.value
  }

  /** Every entry of the history from the cutover up to the committed head is classified. */
  predicate RecordedUpToHead(s: Site) {
    forall e :: e in s.view && UpToHead(s.target, e) ==> Classified(s.tables, s.target.id, e.signature)
  }

  /** It is, in every reachable state, when nothing up to the head came after the head was captured. */
  lemma CapturedIsRecorded(sites: seq<Site>, runtime: Runtime, steps: seq<Step>, n: nat)
    requires Chronicle(sites, runtime, steps) && n <= |steps|
    requires forall e :: e in sites[n].view && UpToHead(sites[n].target, e) ==> e in sites[n].captured
    ensures RecordedUpToHead(sites[n])
  {
    NothingIsLost(sites, runtime, steps, n);
  }

  // ------------------------------------------------------------------ rows are of shown entries

  /** The view shows the signature at the slot. */
  predicate Shows(view: View, signature: Text, slot: nat) {
    exists i :: 0 <= i < |view| && view[i].signature == signature && view[i].slot == slot
  }

  /** The rows of a target are of signatures its history has shown, at their slots. */
  predicate OnlyShown(s: Site) {
    forall key :: key in RowsOf(s.tables, s.target.id) ==> Shows(s.view, key.signature, s.tables.rows[key].slot)
  }

  /** Rows keep their slots, and a new one is of the entry. */
  predicate PutsOnly(t: Tables, u: Tables, watchTargetId: Text, entry: AddressSignature) {
    forall key :: key in RowsOf(u, watchTargetId) ==>
      if key in t.rows then u.rows[key].slot == t.rows[key].slot else key.signature == entry.signature && u.rows[key].slot == entry.slot
  }

  lemma AttemptPutsOnly(t: Tables, runtime: Runtime, input: Input, storing: Storing)
    ensures PutsOnly(t, Attempt(t, runtime, input, storing).0, input.watchTargetId, input.discovered)
  {
    AttemptRows(t, runtime, input, storing);
  }

  lemma EntryPutsOnly(run: Run, runtime: Runtime, target: WatchTarget, version: Text, entry: AddressSignature,
      answer: EntryAnswer)
    ensures PutsOnly(run.tables, ProcessEntry(run, runtime, target, version, entry, answer).tables, target.id, entry)
  {
    var pending := PendingInput(target, entry, version);
    var mid := ProcessPending(run, runtime, pending, answer.discovery).0;
    AttemptPutsOnly(run.tables, runtime, pending, answer.discovery);
    var next := ClassInput(runtime, target, entry, version, answer);
    if next.Some? {
      ClassInputIsFinal(runtime, target, entry, version, answer);
      AttemptPutsOnly(mid.tables, runtime, next.value, answer.classification);
      PutsOnlyTwice(run.tables, mid.tables, ProcessClass(mid, runtime, next.value, answer.classification).tables,
        target.id, entry);
    }
  }

  lemma PutsOnlyTwice(t: Tables, u: Tables, v: Tables, watchTargetId: Text, entry: AddressSignature)
    requires PutsOnly(t, u, watchTargetId, entry) && PutsOnly(u, v, watchTargetId, entry)
    requires forall key :: key in RowsOf(t, watchTargetId) ==> key in u.rows
    ensures PutsOnly(t, v, watchTargetId, entry)
  {
  }

  lemma EntryKeepsRow(run: Run, runtime: Runtime, target: WatchTarget, version: Text, entry: AddressSignature,
      answer: EntryAnswer, key: RowKey)
    requires key in RowsOf(run.tables, target.id)
    ensures var u := ProcessEntry(run, runtime, target, version, entry, answer).tables;
      key in RowsOf(u, target.id) && u.rows[key].slot == run.tables.rows[key].slot
  {
    EntryCounts(run, runtime, target, version, entry, answer);
    EntryPutsOnly(run, runtime, target, version, entry, answer);
    assert key in RowsOf(ProcessEntry(run, runtime, target, version, entry, answer).tables, target.id);
  }

  lemma {:induction false} RunKeepsRow(run: Run, runtime: Runtime, target: WatchTarget, version: Text,
      entries: seq<AddressSignature>, answers: seq<EntryAnswer>, key: RowKey)
    requires |answers| <= |entries| && key in RowsOf(run.tables, target.id)
    ensures var u := ProcessAll(run, runtime, target, version, entries, answers).tables;
      key in RowsOf(u, target.id) && u.rows[key].slot == run.tables.rows[key].slot
    decreases |answers|
  {
    if answers != [] {
      var last := |answers| - 1;
      RunKeepsRow(run, runtime, target, version, entries[..last], answers[..last], key);
      EntryKeepsRow(ProcessAll(run, runtime, target, version, entries[..last], answers[..last]), runtime, target,
        version, entries[last], answers[last], key);
    }
  }

  lemma EntryPutsRow(run: Run, runtime: Runtime, target: WatchTarget, version: Text, entry: AddressSignature,
      answer: EntryAnswer, key: RowKey)
    requires key !in run.tables.rows
    requires key in RowsOf(ProcessEntry(run, runtime, target, version, entry, answer).tables, target.id)
    ensures key.signature == entry.signature
    ensures ProcessEntry(run, runtime, target, version, entry, answer).tables.rows[key].slot == entry.slot
  {
    EntryPutsOnly(run, runtime, target, version, entry, answer);
  }

  lemma ShownBefore(entries: seq<AddressSignature>, n: nat, signature: Text, slot: nat)
    requires n <= |entries| && Shows(entries[..n], signature, slot)
    ensures Shows(entries, signature, slot)
  {
    var i :| 0 <= i < n && entries[..n][i].signature == signature && entries[..n][i].slot == slot;
    assert entries[i] == entries[..n][i];
  }

  /** A new row after a run is of an entry of the run. */
  lemma {:induction false} RunPutsRow(run: Run, runtime: Runtime, target: WatchTarget, version: Text,
      entries: seq<AddressSignature>, answers: seq<EntryAnswer>, key: RowKey)
    requires |answers| <= |entries| && key !in run.tables.rows
    requires key in RowsOf(ProcessAll(run, runtime, target, version, entries, answers).tables, target.id)
    ensures Shows(entries, key.signature, ProcessAll(run, runtime, target, version, entries, answers).tables.rows[key].slot)
    decreases |answers|
  {
    if answers != [] {
      var last := |answers| - 1;
      var before := ProcessAll(run, runtime, target, version, entries[..last], answers[..last]);
      if key in before.tables.rows {
        RunPutsRow(run, runtime, target, version, entries[..last], answers[..last], key);
        EntryKeepsRow(before, runtime, target, version, entries[last], answers[last], key);
        ShownBefore(entries, last, key.signature, before.tables.rows[key].slot);
      } else {
        EntryPutsRow(before, runtime, target, version, entries[last], answers[last], key);
      }
    }
  }

  lemma AgendaHeld(target: WatchTarget, answers: SyncAnswers, i: nat)
    requires Processed(target, answers) && i < |Agenda(target, answers)|
    ensures Holds(RunDiscovery(target, answers).found, Agenda(target, answers)[i])
  {
    AgendaIsFound(target, answers, i);
  }

  lemma ViewStays(a: View, b: View, e: AddressSignature)
    requires Extends(a, b) && e in a
    ensures e in b
  {
    var i :| 0 <= i < |a| && a[i] == e;
    assert Mentions(b, a[i].signature) && b[At(b, a[i].signature)] == e;
  }

  lemma ShownStays(a: View, b: View, signature: Text, slot: nat)
    requires Extends(a, b) && Shows(a, signature, slot)
    ensures Shows(b, signature, slot)
  {
    var i :| 0 <= i < |a| && a[i].signature == signature && a[i].slot == slot;
    ViewStays(a, b, a[i]);
  }

  /** What an honest run finds is in the history it ends with. */
  lemma FoundIsShown(s: Site, version: Text, answers: SyncAnswers, views: seq<View>, e: AddressSignature)
    requires Enabled(s, Sync(version, answers, views)) && Processed(s.target, answers)
    requires Holds(RunDiscovery(s.target, answers).found, e)
    ensures e in FinalView(s.view, views)
  {
    GrowingIsGrowing(s.view, views, s.target.overlapSlots);
    DiscoveryCovers(s.view, views, OverlapFloor(s.target), answers.pages);
    RunGrowsWithin(s.view, views, s.target.overlapSlots);
    var last := FinalView(s.view, views);
    if e == s.view[0] {
      ViewStays(s.view, last, e);
    } else {
      assert FoundBehind(RunDiscovery(s.target, answers).found, last, s.view[0], OverlapFloor(s.target));
      var k := IndexAfter(last, s.view[0].signature, e);
    }
  }

  /** A row after a run was there before, or is of an entry it found. */
  lemma SyncPuts(s: Site, runtime: Runtime, version: Text, answers: SyncAnswers, views: seq<View>,
      key: RowKey) returns (e: AddressSignature)
    requires Enabled(s, Sync(version, answers, views)) && Processed(s.target, answers)
    requires key in RowsOf(AfterSync(s.tables, runtime, s.target, version, answers).0, s.target.id)
    requires key !in s.tables.rows
    ensures Holds(RunDiscovery(s.target, answers).found, e) && e.signature == key.signature
    ensures e.slot == AfterSync(s.tables, runtime, s.target, version, answers).0.rows[key].slot
  {
    SyncCases(s.tables, runtime, s.target, version, answers);
    var agenda := Agenda(s.target, answers);
    var taken := Prefix(answers.entries, |agenda|);
    RunPutsRow(NewRun(s.tables), runtime, s.target, version, agenda[..|taken|], taken, key);
    var slot := AfterSync(s.tables, runtime, s.target, version, answers).0.rows[key].slot;
    var i :| 0 <= i < |taken| && agenda[..|taken|][i].signature == key.signature && agenda[..|taken|][i].slot == slot;
    AgendaHeld(s.target, answers, i);
    e := agenda[i];
  }

  lemma SyncKeepsSlots(t: Tables, runtime: Runtime, target: WatchTarget, version: Text, answers: SyncAnswers,
      key: RowKey)
    requires key in RowsOf(t, target.id) && key in AfterSync(t, runtime, target, version, answers).0.rows
    ensures AfterSync(t, runtime, target, version, answers).0.rows[key].slot == t.rows[key].slot
  {
    SyncCases(t, runtime, target, version, answers);
    if Processed(target, answers) {
      var agenda := Agenda(target, answers);
      var taken := Prefix(answers.entries, |agenda|);
      RunKeepsRow(NewRun(t), runtime, target, version, agenda[..|taken|], taken, key);
    }
  }

  lemma SyncShows(s: Site, runtime: Runtime, version: Text, answers: SyncAnswers, views: seq<View>)
    requires OnlyShown(s) && Enabled(s, Sync(version, answers, views))
    ensures OnlyShown(Apply(s, runtime, Sync(version, answers, views)))
  {
    var next := Apply(s, runtime, Sync(version, answers, views));
    SyncCases(s.tables, runtime, s.target, version, answers);
    RunGrowsWithin(s.view, views, s.target.overlapSlots);
    forall key | key in RowsOf(next.tables, s.target.id)
      ensures Shows(next.view, key.signature, next.tables.rows[key].slot)
    {
      if key in s.tables.rows {
        SyncKeepsSlots(s.tables, runtime, s.target, version, answers, key);
        ShownStays(s.view, next.view, key.signature, s.tables.rows[key].slot);
      } else {
        var e := SyncPuts(s, runtime, version, answers, views, key);
        FoundIsShown(s, version, answers, views, e);
      }
    }
  }

  lemma ElsewhereShows(s: Site, u: Site)
    requires OnlyShown(s) && u.target == s.target && RowsOf(u.tables, s.target.id) == RowsOf(s.tables, s.target.id)
    requires Extends(s.view, u.view)
    requires RowsEvolve(s.tables, u.tables)
    ensures OnlyShown(u)
  {
    forall key | key in RowsOf(u.tables, s.target.id) ensures Shows(u.view, key.signature, u.tables.rows[key].slot) {
      assert key in RowsOf(s.tables, s.target.id);
      ShownStays(s.view, u.view, key.signature, s.tables.rows[key].slot);
    }
  }

  lemma {:induction false} SitesShown(sites: seq<Site>, runtime: Runtime, steps: seq<Step>, n: nat)
    requires Chronicle(sites, runtime, steps) && n <= |steps|
    ensures OnlyShown(sites[n])
  {
    if n > 0 {
      SitesShown(sites, runtime, steps, n - 1);
      if steps[n - 1].Sync? {
        SyncShows(sites[n - 1], runtime, steps[n - 1].version, steps[n - 1].answers, steps[n - 1].views);
      } else {
        ElsewhereShows(sites[n - 1], sites[n]);
      }
    }
  }

  // ------------------------------------------------------------------ which entries a run classifies

  /**
   The answers make the recordings of a signature go all the way: discovery acknowledged, a final
   class, committed.
   */
  predicate Classifies(runtime: Runtime, target: WatchTarget, version: Text, entry: AddressSignature,
      answer: EntryAnswer) {
    && answer.discovery.Acknowledged? && answer.classification.Commits()
    && ClassInput(runtime, target, entry, version, answer).Some?
  }

  /** The row of the entry, if there is one, is at the entry's slot. */
  predicate AtSlot(t: Tables, watchTargetId: Text, entry: AddressSignature) {
    var key := RowKey(watchTargetId, entry.signature);
    key in t.rows ==> t.rows[key].slot == entry.slot
  }

  lemma OtherRowKept(t: Tables, runtime: Runtime, input: Input, storing: Storing, key: RowKey)
    requires key != KeyOf(input)
    ensures var u := Attempt(t, runtime, input, storing).0;
      (key in u.rows <==> key in t.rows) && (key in t.rows ==> u.rows[key] == t.rows[key])
  {
    AttemptRows(t, runtime, input, storing);
  }

  /** A discovery at the known slot classifies nothing. */
  lemma DiscoveryKeepsClass(t: Tables, runtime: Runtime, target: WatchTarget, version: Text, entry: AddressSignature,
      storing: Storing)
    requires AtSlot(t, target.id, entry)
    ensures var u := Attempt(t, runtime, PendingInput(target, entry, version), storing).0;
      AtSlot(u, target.id, entry) && (Classified(u, target.id, entry.signature) <==> Classified(t, target.id, entry.signature))
  {
    AttemptRows(t, runtime, PendingInput(target, entry, version), storing);
  }

  /**
   The recordings of a signature whose transfers are its transaction's own classify exactly when the
   answers make them.
   */
  lemma EntryClassifies(run: Run, runtime: Runtime, target: WatchTarget, version: Text, entry: AddressSignature,
      answer: EntryAnswer)
    requires RowsFit(run.tables) && AtSlot(run.tables, target.id, entry) && FromAdapter(entry, answer)
    ensures Classified(ProcessEntry(run, runtime, target, version, entry, answer).tables, target.id, entry.signature)
      <==> Classified(run.tables, target.id, entry.signature) || Classifies(runtime, target, version, entry, answer)
  {
    var pending := PendingInput(target, entry, version);
    NeverRefused(run.tables, runtime, pending);
    DiscoveryKeepsClass(run.tables, runtime, target, version, entry, answer.discovery);
    PendingFollows(run, runtime, pending, answer.discovery);
    var (mid, stored) := ProcessPending(run, runtime, pending, answer.discovery);
    var next := ClassInput(runtime, target, entry, version, answer);
    if stored && next.Some? { ClassClassifies(mid, runtime, target, version, entry, answer); }
  }

  lemma ClassClassifies(run: Run, runtime: Runtime, target: WatchTarget, version: Text, entry: AddressSignature,
      answer: EntryAnswer)
    requires RowsFit(run.tables) && FromAdapter(entry, answer)
    requires ClassInput(runtime, target, entry, version, answer).Some?
    ensures var input := ClassInput(runtime, target, entry, version, answer).value;
      Classified(ProcessClass(run, runtime, input, answer.classification).tables, target.id, entry.signature)
      <==> Classified(run.tables, target.id, entry.signature) || answer.classification.Commits()
  {
    var input := ClassInput(runtime, target, entry, version, answer).value;
    ClassInputIsFinal(runtime, target, entry, version, answer);
    AdapterIsOwn(runtime, target, version, entry, answer);
    NeverRefused(run.tables, runtime, input);
    AttemptRows(run.tables, runtime, input, answer.classification);
    AttemptEvolves(run.tables, runtime, input, answer.classification);
  }

  lemma OtherClassKept(run: Run, runtime: Runtime, target: WatchTarget, version: Text, entry: AddressSignature,
      answer: EntryAnswer, signature: Text)
    requires signature != entry.signature
    ensures var u, key := ProcessEntry(run, runtime, target, version, entry, answer).tables, RowKey(target.id, signature);
      (key in u.rows <==> key in run.tables.rows) && (key in run.tables.rows ==> u.rows[key] == run.tables.rows[key])
  {
    var pending, key := PendingInput(target, entry, version), RowKey(target.id, signature);
    OtherRowKept(run.tables, runtime, pending, answer.discovery, key);
    var next := ClassInput(runtime, target, entry, version, answer);
    if next.Some? {
      ClassInputIsFinal(runtime, target, entry, version, answer);
      OtherRowKept(ProcessPending(run, runtime, pending, answer.discovery).0.tables, runtime, next.value,
        answer.classification, key);
    }
  }

  /** One of the first entries has the signature, and is classified. */
  predicate Takes(runtime: Runtime, target: WatchTarget, version: Text, entries: seq<AddressSignature>,
      answers: seq<EntryAnswer>, signature: Text)
    requires |entries| == |answers|
  {
    exists i :: 0 <= i < |entries| && entries[i].signature == signature && Classifies(runtime, target, version, entries[i], answers[i])
  }

  predicate AllAtSlot(t: Tables, watchTargetId: Text, entries: seq<AddressSignature>) {
    forall i :: 0 <= i < |entries| ==> AtSlot(t, watchTargetId, entries[i])
  }

  predicate AllFromAdapter(entries: seq<AddressSignature>, answers: seq<EntryAnswer>)
    requires |entries| == |answers|
  {
    forall i :: 0 <= i < |entries| ==> FromAdapter(entries[i], answers[i])
  }

  /** Entries of other signatures leave a row as it is. */
  lemma {:induction false} RunKeepsOther(run: Run, runtime: Runtime, target: WatchTarget, version: Text,
      entries: seq<AddressSignature>, answers: seq<EntryAnswer>, signature: Text)
    requires |entries| == |answers| && forall i :: 0 <= i < |entries| ==> entries[i].signature != signature
    ensures var u, key := ProcessAll(run, runtime, target, version, entries, answers).tables, RowKey(target.id, signature);
      (key in u.rows <==> key in run.tables.rows) && (key in run.tables.rows ==> u.rows[key] == run.tables.rows[key])
    decreases |answers|
  {
    if answers != [] {
      var last := |answers| - 1;
      RunKeepsOther(run, runtime, target, version, entries[..last], answers[..last], signature);
      OtherClassKept(ProcessAll(run, runtime, target, version, entries[..last], answers[..last]), runtime, target,
        version, entries[last], answers[last], signature);
    }
  }

  lemma TakesMore(runtime: Runtime, target: WatchTarget, version: Text, entries: seq<AddressSignature>,
      answers: seq<EntryAnswer>, signature: Text)
    requires |entries| == |answers| > 0
    ensures var last := |entries| - 1;
      Takes(runtime, target, version, entries, answers, signature) <==>
      || Takes(runtime, target, version, entries[..last], answers[..last], signature)
      || (entries[last].signature == signature && Classifies(runtime, target, version, entries[last], answers[last]))
  {
    var last := |entries| - 1;
    assert forall i :: 0 <= i < last ==> entries[..last][i] == entries[i] && answers[..last][i] == answers[i];
  }

  /** After the first entries a signature is classified exactly if it was, or if one of them takes it up. */
  lemma {:induction false} RunTakes(run: Run, runtime: Runtime, target: WatchTarget, version: Text,
      entries: seq<AddressSignature>, answers: seq<EntryAnswer>, signature: Text)
    requires |entries| == |answers| && RowsFit(run.tables) && DistinctSignatures(entries)
    requires AllAtSlot(run.tables, target.id, entries) && AllFromAdapter(entries, answers)
    ensures var after := ProcessAll(run, runtime, target, version, entries, answers);
      Classified(after.tables, target.id, signature)
      <==> Classified(run.tables, target.id, signature) || Takes(runtime, target, version, entries, answers, signature)
    decreases |answers|
  {
    if answers != [] {
      var last := |answers| - 1;
      var before := ProcessAll(run, runtime, target, version, entries[..last], answers[..last]);
      RunTakes(run, runtime, target, version, entries[..last], answers[..last], signature);
      TakesMore(runtime, target, version, entries, answers, signature);
      if signature == entries[last].signature {
        RunClassifies(run, runtime, target, version, entries[..last], answers[..last], before);
        RunKeepsOther(run, runtime, target, version, entries[..last], answers[..last], signature);
        EntryClassifies(before, runtime, target, version, entries[last], answers[last]);
      } else {
        OtherClassKept(before, runtime, target, version, entries[last], answers[last], signature);
      }
    }
  }

  // ------------------------------------------------------------------ exactly when

  /** The signatures a run gets to, and what happens to them. */
  function Treated(target: WatchTarget, answers: SyncAnswers): (seq<AddressSignature>, seq<EntryAnswer>)
    requires Processed(target, answers)
    ensures var (entries, taken) := Treated(target, answers); |entries| == |taken|
  {
    var taken := Prefix(answers.entries, |Agenda(target, answers)|);
    (Agenda(target, answers)[..|taken|], taken)
  }

  /** What a run gets from the provider comes through the adapter. */
  predicate ThroughAdapter(target: WatchTarget, answers: SyncAnswers) {
    Processed(target, answers) ==> var (entries, taken) := Treated(target, answers); AllFromAdapter(entries, taken)
  }

  /** The run takes the entry up: it is on its agenda, as far as the answers reach, and they classify it. */
  predicate TakesUp(s: Site, runtime: Runtime, step: Step, e: AddressSignature)
    requires step.Sync?
  {
    && Processed(s.target, step.answers)
    && var (entries, taken) := Treated(s.target, step.answers);
       exists i :: 0 <= i < |entries| && entries[i] == e && Classifies(runtime, s.target, step.version, entries[i], taken[i])
  }

  /** The run met the entry: it was in the history when the head was captured, or on a page. */
  ghost predicate Met(s: Site, step: Step, e: AddressSignature)
    requires step.Sync? && Processed(s.target, step.answers)
  {
    e in s.view || Holds(RunDiscovery(s.target, step.answers).found, e)
  }

  lemma SameEntry(a: View, b: View, d: AddressSignature, e: AddressSignature)
    requires Extends(a, b) && ValidView(b) && d in a && e in b && d.signature == e.signature
    ensures d == e
  {
    ViewStays(a, b, d);
  }

  /** What a run deals with is shown in the end, so it agrees with the rows there are. */
  lemma AgendaAtSlot(s: Site, version: Text, answers: SyncAnswers, views: seq<View>, i: nat)
    requires OnlyShown(s) && Enabled(s, Sync(version, answers, views)) && Processed(s.target, answers)
    requires i < |Agenda(s.target, answers)|
    ensures Agenda(s.target, answers)[i] in FinalView(s.view, views)
    ensures AtSlot(s.tables, s.target.id, Agenda(s.target, answers)[i])
  {
    var e, last := Agenda(s.target, answers)[i], FinalView(s.view, views);
    AgendaHeld(s.target, answers, i);
    FoundIsShown(s, version, answers, views, e);
    RunGrowsWithin(s.view, views, s.target.overlapSlots);
    var key := RowKey(s.target.id, e.signature);
    if key in s.tables.rows {
      assert key in RowsOf(s.tables, s.target.id);
      var j :| 0 <= j < |s.view| && s.view[j].signature == e.signature && s.view[j].slot == s.tables.rows[key].slot;
      SameEntry(s.view, last, s.view[j], e);
    }
  }

  /** A run classifies what it takes up, and nothing else. */
  lemma SyncTakes(s: Site, runtime: Runtime, version: Text, answers: SyncAnswers, views: seq<View>, signature: Text)
    requires OnlyShown(s) && RowsFit(s.tables) && Enabled(s, Sync(version, answers, views))
    requires Processed(s.target, answers) && ThroughAdapter(s.target, answers)
    ensures var (entries, taken) := Treated(s.target, answers);
      Classified(Apply(s, runtime, Sync(version, answers, views)).tables, s.target.id, signature)
      <==> Classified(s.tables, s.target.id, signature) || Takes(runtime, s.target, version, entries, taken, signature)
  {
    SyncCases(s.tables, runtime, s.target, version, answers);
    AgendaIsDistinct(s.target, answers);
    var (entries, taken) := Treated(s.target, answers);
    forall i | 0 <= i < |entries| ensures AtSlot(s.tables, s.target.id, entries[i]) {
      AgendaAtSlot(s, version, answers, views, i);
    }
    RunTakes(NewRun(s.tables), runtime, s.target, version, entries, taken, signature);
  }

  /** One step classifies an entry of the history only if it takes it up. */
  lemma StepTakes(s: Site, runtime: Runtime, step: Step, v: View, e: AddressSignature)
    requires OnlyShown(s) && RowsFit(s.tables) && Enabled(s, step) && Stays(s, runtime, step)
    requires ValidView(v) && Extends(Apply(s, runtime, step).view, v) && e in v
    ensures Classified(Apply(s, runtime, step).tables, s.target.id, e.signature)
      <==> Classified(s.tables, s.target.id, e.signature) || (step.Sync? && TakesUp(s, runtime, step, e))
  {
    if step.Elsewhere? {
      ElsewhereKeepsClass(s, runtime, step, e.signature);
    } else if Processed(s.target, step.answers) {
      SyncTakes(s, runtime, step.version, step.answers, step.views, e.signature);
      TakesIsTakesUp(s, runtime, step, v, e);
    } else {
      SyncCases(s.tables, runtime, s.target, step.version, step.answers);
    }
  }

  lemma ElsewhereKeepsClass(s: Site, runtime: Runtime, step: Step, signature: Text)
    requires step.Elsewhere? && Enabled(s, step)
    ensures Classified(Apply(s, runtime, step).tables, s.target.id, signature)
      <==> Classified(s.tables, s.target.id, signature)
  {
    var key := RowKey(s.target.id, signature);
    assert key in RowsOf(step.tables, s.target.id) <==> key in RowsOf(s.tables, s.target.id);
  }

  lemma TakesIsTakesUp(s: Site, runtime: Runtime, step: Step, v: View, e: AddressSignature)
    requires OnlyShown(s) && step.Sync? && Enabled(s, step) && Processed(s.target, step.answers)
    requires ValidView(v) && Extends(Apply(s, runtime, step).view, v) && e in v
    ensures var (entries, taken) := Treated(s.target, step.answers);
      Takes(runtime, s.target, step.version, entries, taken, e.signature) <==> TakesUp(s, runtime, step, e)
  {
    var (entries, taken) := Treated(s.target, step.answers);
    forall i | 0 <= i < |entries| && entries[i].signature == e.signature ensures entries[i] == e {
      AgendaAtSlot(s, step.version, step.answers, step.views, i);
      SameEntry(Apply(s, runtime, step).view, v, entries[i], e);
    }
  }

  /** The cursor stays: other work, or a run that fails or is blocked, or whose completion does not commit. */
  predicate Stays(s: Site, runtime: Runtime, step: Step) {
    step.Sync? ==> !Moves(s.tables, runtime, s.target, step.version, step.answers) && ThroughAdapter(s.target, step.answers)
  }

  /** The run at step `k` moved the cursor, and nothing moved it up to state `n`. */
  predicate CursorStays(sites: seq<Site>, runtime: Runtime, steps: seq<Step>, k: nat, n: nat)
    requires n <= |steps| < |sites|
  {
    && k < n && steps[k].Sync?
    && Moves(sites[k].tables, runtime, sites[k].target, steps[k].version, steps[k].answers)
    && forall j {:trigger steps[j]} :: k < j < n ==> Stays(sites[j], runtime, steps[j])
  }

  ghost predicate LastMove(sites: seq<Site>, runtime: Runtime, steps: seq<Step>, k: nat, n: nat) {
    n <= |steps| && Chronicle(sites, runtime, steps) && CursorStays(sites, runtime, steps, k, n)
  }

  /** One of the runs after step `k` and before state `n` took the entry up. */
  predicate TakenUpSince(sites: seq<Site>, runtime: Runtime, steps: seq<Step>, k: nat, n: nat, e: AddressSignature)
    requires n <= |steps| < |sites|
    decreases n
  {
    n > k + 1 &&
      (TakenUpSince(sites, runtime, steps, k, n - 1, e) || (steps[n - 1].Sync? && TakesUp(sites[n - 1], runtime, steps[n - 1], e)))
  }

  /** The moving run met the entry, or a later run took it up. */
  ghost predicate Attended(sites: seq<Site>, runtime: Runtime, steps: seq<Step>, k: nat, n: nat, e: AddressSignature)
    requires k < n <= |steps| < |sites| && steps[k].Sync? && Processed(sites[k].target, steps[k].answers)
  {
    Met(sites[k], steps[k], e) || TakenUpSince(sites, runtime, steps, k, n, e)
  }

  lemma StepGrows(s: Site, runtime: Runtime, step: Step)
    requires Enabled(s, step)
    ensures Extends(s.view, Apply(s, runtime, step).view) && SameTarget(Apply(s, runtime, step).target, s.target)
  {
    if step.Sync? {
      RunGrowsWithin(s.view, step.views, s.target.overlapSlots);
      SyncCases(s.tables, runtime, s.target, step.version, step.answers);
    }
  }

  /**
   Right after the run that moved the cursor, of the entries from the cutover on exactly those it
   met are classified.
   */
  lemma MovedIffMet(s: Site, runtime: Runtime, step: Step, v: View, e: AddressSignature)
    requires BackfillHistory.Inv(s) && OnlyShown(s) && step.Sync? && Enabled(s, step)
    requires Moves(s.tables, runtime, s.target, step.version, step.answers)
    requires ValidView(v) && Extends(Apply(s, runtime, step).view, v) && e in v && s.target.cutoverSlot <= e.slot
    ensures Classified(Apply(s, runtime, step).tables, s.target.id, e.signature) <==> Met(s, step, e)
  {
    StepKeeps(s, runtime, step);
    SyncCases(s.tables, runtime, s.target, step.version, step.answers);
    SyncOutcome(s.tables, runtime, s.target, step.version, step.answers);
    if RowKey(s.target.id, e.signature) in Apply(s, runtime, step).tables.rows { RowMeansMet(s, runtime, step, v, e); }
  }

  /** An entry with a row after a run that processed its signatures is one the run met. */
  lemma RowMeansMet(s: Site, runtime: Runtime, step: Step, v: View, e: AddressSignature)
    requires OnlyShown(s) && step.Sync? && Enabled(s, step) && Processed(s.target, step.answers)
    requires ValidView(v) && Extends(Apply(s, runtime, step).view, v) && e in v
    requires RowKey(s.target.id, e.signature) in Apply(s, runtime, step).tables.rows
    ensures Met(s, step, e)
  {
    var next, key := Apply(s, runtime, step), RowKey(s.target.id, e.signature);
    StepGrows(s, runtime, step);
    ExtendsTransitive(s.view, next.view, v);
    if key in s.tables.rows {
      assert key in RowsOf(s.tables, s.target.id);
      var i :| 0 <= i < |s.view| && s.view[i].signature == e.signature;
      SameEntry(s.view, v, s.view[i], e);
    } else {
      assert key in RowsOf(next.tables, s.target.id);
      var found := SyncPuts(s, runtime, step.version, step.answers, step.views, key);
      FoundIsShown(s, step.version, step.answers, step.views, found);
      SameEntry(next.view, v, found, e);
    }
  }

  /** A step from a sound site. */
  ghost predicate Linked(s: Site, runtime: Runtime, step: Step, next: Site) {
    BackfillHistory.Inv(s) && OnlyShown(s) && Enabled(s, step) && next == Apply(s, runtime, step)
  }

  ghost predicate AllLinked(sites: seq<Site>, runtime: Runtime, steps: seq<Step>, n: nat)
    requires n <= |steps| < |sites|
  {
    forall i {:trigger steps[i]} :: 0 <= i < n ==> Linked(sites[i], runtime, steps[i], sites[i + 1])
  }

  lemma StepIsLinked(sites: seq<Site>, runtime: Runtime, steps: seq<Step>, i: nat)
    requires Chronicle(sites, runtime, steps) && i < |steps|
    ensures Linked(sites[i], runtime, steps[i], sites[i + 1])
  {
    SitesSound(sites, runtime, steps, i);
    SitesShown(sites, runtime, steps, i);
  }

  lemma ChronicleIsLinked(sites: seq<Site>, runtime: Runtime, steps: seq<Step>, n: nat)
    requires Chronicle(sites, runtime, steps) && n <= |steps|
    ensures AllLinked(sites, runtime, steps, n)
  {
    forall i | 0 <= i < n ensures Linked(sites[i], runtime, steps[i], sites[i + 1]) {
      StepIsLinked(sites, runtime, steps, i);
    }
  }

  predicate SameTarget(a: WatchTarget, b: WatchTarget) { a.id == b.id && a.cutoverSlot == b.cutoverSlot }

  lemma {:induction false} TargetStays(sites: seq<Site>, runtime: Runtime, steps: seq<Step>, k: nat, n: nat)
    requires k < n <= |steps| < |sites| && AllLinked(sites, runtime, steps, n)
    ensures SameTarget(sites[n].target, sites[k].target)
    decreases n
  {
    StepGrows(sites[n - 1], runtime, steps[n - 1]);
    if n > k + 1 { TargetStays(sites, runtime, steps, k, n - 1); }
  }

  ghost predicate LinkedMet(s: Site, step: Step, next: Site, e: AddressSignature)
    requires step.Sync? && Processed(s.target, step.answers)
  {
    Classified(next.tables, next.target.id, e.signature) <==> Met(s, step, e)
  }

  predicate LinkedTaken(s: Site, runtime: Runtime, step: Step, next: Site, e: AddressSignature) {
    && next.target.id == s.target.id
    && (Classified(next.tables, next.target.id, e.signature)
        <==> Classified(s.tables, s.target.id, e.signature) || (step.Sync? && TakesUp(s, runtime, step, e)))
  }

  lemma LinkedTakes(s: Site, runtime: Runtime, step: Step, next: Site, v: View, e: AddressSignature)
    requires Linked(s, runtime, step, next) && Stays(s, runtime, step) && ValidView(v) && Extends(next.view, v)
    requires e in v
    ensures LinkedTaken(s, runtime, step, next, e)
  {
    StepGrows(s, runtime, step);
    StepTakes(s, runtime, step, v, e);
  }

  lemma LinkedMeets(s: Site, runtime: Runtime, step: Step, next: Site, v: View, e: AddressSignature)
    requires Linked(s, runtime, step, next) && step.Sync?
    requires Moves(s.tables, runtime, s.target, step.version, step.answers)
    requires ValidView(v) && Extends(next.view, v) && e in v && s.target.cutoverSlot <= e.slot
    ensures LinkedMet(s, step, next, e)
  {
    StepGrows(s, runtime, step);
    MovedIffMet(s, runtime, step, v, e);
  }

  /** The moving run met the entry, or one of the steps after it took it up: step by step. */
  ghost predicate Marked(sites: seq<Site>, runtime: Runtime, steps: seq<Step>, k: nat, n: nat, e: AddressSignature)
    requires k < n <= |steps| < |sites|
    decreases n
  {
    if n == k + 1 then steps[k].Sync? && Processed(sites[k].target, steps[k].answers) && LinkedMet(sites[k], steps[k], sites[n], e)
    else LinkedTaken(sites[n - 1], runtime, steps[n - 1], sites[n], e) && Marked(sites, runtime, steps, k, n - 1, e)
  }

  lemma {:induction false} MarkedIffAttended(sites: seq<Site>, runtime: Runtime, steps: seq<Step>, k: nat, n: nat,
      e: AddressSignature)
    requires k < n <= |steps| < |sites| && Marked(sites, runtime, steps, k, n, e)
    requires steps[k].Sync? && Processed(sites[k].target, steps[k].answers)
    ensures Classified(sites[n].tables, sites[n].target.id, e.signature) <==> Attended(sites, runtime, steps, k, n, e)
    decreases n
  {
    if n > k + 1 { MarkedIffAttended(sites, runtime, steps, k, n - 1, e); }
  }

  lemma MarksOn(sites: seq<Site>, runtime: Runtime, steps: seq<Step>, k: nat, n: nat, e: AddressSignature)
    requires k + 1 < n <= |steps| < |sites| && Marked(sites, runtime, steps, k, n - 1, e)
    requires LinkedTaken(sites[n - 1], runtime, steps[n - 1], sites[n], e)
    ensures Marked(sites, runtime, steps, k, n, e)
  {
  }

  lemma {:induction false} ViewsExtend(sites: seq<Site>, runtime: Runtime, steps: seq<Step>, m: nat, n: nat)
    requires m <= n <= |steps| < |sites| && AllLinked(sites, runtime, steps, n) && ValidView(sites[n].view)
    ensures Extends(sites[m].view, sites[n].view)
    decreases n - m
  {
    if m == n {
      ExtendsItself(sites[n].view);
    } else {
      ViewsExtend(sites, runtime, steps, m + 1, n);
      StepGrows(sites[m], runtime, steps[m]);
      ExtendsTransitive(sites[m].view, sites[m + 1].view, sites[n].view);
    }
  }

  /** Every view is extended by the last one. */
  ghost predicate AllExtendTo(sites: seq<Site>, n: nat)
    requires n < |sites|
  {
    forall m :: 0 <= m <= n ==> Extends(sites[m].view, sites[n].view)
  }

  lemma ViewsAllExtend(sites: seq<Site>, runtime: Runtime, steps: seq<Step>, n: nat)
    requires n <= |steps| < |sites| && AllLinked(sites, runtime, steps, n) && ValidView(sites[n].view)
    ensures AllExtendTo(sites, n)
  {
    forall m | 0 <= m <= n ensures Extends(sites[m].view, sites[n].view) {
      ViewsExtend(sites, runtime, steps, m, n);
    }
  }

  /** Every step from the moving run on is marked. */
  ghost predicate AllMarked(sites: seq<Site>, runtime: Runtime, steps: seq<Step>, k: nat, n: nat, e: AddressSignature)
    requires k < n <= |steps| < |sites|
  {
    && steps[k].Sync? && Processed(sites[k].target, steps[k].answers) && LinkedMet(sites[k], steps[k], sites[k + 1], e)
    && forall m {:trigger steps[m]} :: k < m < n ==> LinkedTaken(sites[m], runtime, steps[m], sites[m + 1], e)
  }

  lemma StepsMarked(sites: seq<Site>, runtime: Runtime, steps: seq<Step>, k: nat, n: nat, e: AddressSignature)
    requires k < n <= |steps| < |sites| && AllLinked(sites, runtime, steps, n)
    requires CursorStays(sites, runtime, steps, k, n)
    requires ValidView(sites[n].view) && AllExtendTo(sites, n) && e in sites[n].view
    requires sites[k].target.cutoverSlot <= e.slot
    ensures AllMarked(sites, runtime, steps, k, n, e)
  {
    LinkedMeets(sites[k], runtime, steps[k], sites[k + 1], sites[n].view, e);
    forall m | k < m < n ensures LinkedTaken(sites[m], runtime, steps[m], sites[m + 1], e) {
      LinkedTakes(sites[m], runtime, steps[m], sites[m + 1], sites[n].view, e);
    }
  }

  lemma {:induction false} MarkedAlong(sites: seq<Site>, runtime: Runtime, steps: seq<Step>, k: nat, m: nat, n: nat,
      e: AddressSignature)
    requires k < m <= n <= |steps| < |sites| && AllMarked(sites, runtime, steps, k, n, e)
    ensures Marked(sites, runtime, steps, k, m, e)
    decreases m
  {
    if m > k + 1 {
      MarkedAlong(sites, runtime, steps, k, m - 1, n, e);
      MarksOn(sites, runtime, steps, k, m, e);
    }
  }

  /**
   As long as the cursor has not moved again, everything up to the head is recorded if and only if
   the run that moved it met every entry there, or a later run took it up.
   */
  lemma RecordedUpToHeadIff(sites: seq<Site>, runtime: Runtime, steps: seq<Step>, k: nat, n: nat)
    requires LastMove(sites, runtime, steps, k, n)
    ensures RecordedUpToHead(sites[n]) <==>
      forall e :: e in sites[n].view && UpToHead(sites[n].target, e) ==> Attended(sites, runtime, steps, k, n, e)
  {
    SitesSound(sites, runtime, steps, n);
    ChronicleIsLinked(sites, runtime, steps, n);
    LinkedIff(sites, runtime, steps, k, n);
  }

  lemma LinkedIff(sites: seq<Site>, runtime: Runtime, steps: seq<Step>, k: nat, n: nat)
    requires k < n <= |steps| < |sites| && AllLinked(sites, runtime, steps, n)
    requires CursorStays(sites, runtime, steps, k, n)
    requires ValidView(sites[n].view)
    requires steps[k].Sync? && Processed(sites[k].target, steps[k].answers)
    ensures RecordedUpToHead(sites[n]) <==>
      forall e :: e in sites[n].view && UpToHead(sites[n].target, e) ==> Attended(sites, runtime, steps, k, n, e)
  {
    var u := sites[n];
    ViewsAllExtend(sites, runtime, steps, n);
    TargetStays(sites, runtime, steps, k, n);
    forall e | e in u.view && UpToHead(u.target, e)
      ensures Classified(u.tables, u.target.id, e.signature) <==> Attended(sites, runtime, steps, k, n, e)
    {
      StepsMarked(sites, runtime, steps, k, n, e);
      MarkedAlong(sites, runtime, steps, k, n, n, e);
      MarkedIffAttended(sites, runtime, steps, k, n, e);
    }
  }
}
