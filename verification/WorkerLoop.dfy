/** The scheduling loop of the worker, as interleaved turns of the loop, its executions and its shutdown. */
module WorkerLoop {
  import opened Wrappers
  import opened Powers
  import opened Texts

  datatype Job = Job(name: Text, intervalMs: nat)

  const MAX_DELAY := 60_000
  const MAX_FAILURES := 8

  predicate DistinctNames(jobs: seq<Job>) {
    forall i, j :: 0 <= i < j < |jobs| ==> jobs[i].name != jobs[j].name
  }

  /** What `validateJobs` asks of names and intervals. */
  predicate ValidJobs(jobs: seq<Job>) {
    && jobs != []
    && DistinctNames(jobs)
    && (forall i :: 0 <= i < |jobs| ==> 250 <= jobs[i].intervalMs <= 60_000)
  }

  /** An execution of a job; once its outcome is recorded it still waits to be cleared. */
  datatype Execution = Execution(id: nat, job: Job, recorded: bool)

  datatype Phase = Looping | Draining | Settling(captured: set<nat>) | Settled | Failed | Stopped

  datatype State = State(
    phase: Phase, aborted: bool, drained: bool,
    nextRun: map<Text, int>, failures: map<Text, nat>, active: map<Text, nat>,
    flying: seq<Execution>, nextId: nat)

  function Get<V>(m: map<Text, V>, name: Text, otherwise: V): V { if name in m then m[name] else otherwise }

  // ------------------------------------------------------------------ one turn

  predicate Due(s: State, job: Job, now: int) {
    job.name !in s.active && now >= Get(s.nextRun, job.name, 0)
  }

  function StartOne(s: State, job: Job, now: int): State {
    if Due(s, job, now)
    then s.(active := s.active[job.name := s.nextId], flying := s.flying + [Execution(s.nextId, job, false)], nextId := s.nextId + 1)
    else s
  }

  /** The loop over the jobs, without an await in between. */
  function StartDue(s: State, jobs: seq<Job>, now: int): State {
    if jobs == [] then s else StartOne(StartDue(s, jobs[..|jobs| - 1], now), jobs[|jobs| - 1], now)
  }

  /** The interval doubled for each failure. */
  function BackedOff(intervalMs: nat, failures: nat): nat {
    if failures == 0 then intervalMs else 2 * BackedOff(intervalMs, failures - 1)
  }

  function Least(a: int, b: int): int { if a < b then a else b }

  function FailuresAfter(s: State, job: Job, succeeded: bool): nat {
    if succeeded then 0
    else if Get(s.failures, job.name, 0) + 1 < MAX_FAILURES then Get(s.failures, job.name, 0) + 1 else MAX_FAILURES
  }

  /** The delay after an execution; `jitter` is the random part of a failure, below one interval. */
  function Delay(intervalMs: nat, failures: nat, jitter: nat): int {
    Least(MAX_DELAY, BackedOff(intervalMs, failures) + jitter)
  }

  /** The `then` of an execution. */
  function Record(s: State, k: nat, succeeded: bool, clock: int, jitter: nat): State
    requires k < |s.flying|
  {
    var e := s.flying[k];
    var count := FailuresAfter(s, e.job, succeeded);
    s.(failures := s.failures[e.job.name := count],
       nextRun := s.nextRun[e.job.name := clock + Delay(e.job.intervalMs, count, if succeeded then 0 else jitter)],
       flying := s.flying[k := e.(recorded := true)])
  }

  /** The `finally` of an execution. */
  function Clear(s: State, k: nat): State
    requires k < |s.flying|
  {
    s.(active := s.active - {s.flying[k].job.name}, flying := s.flying[..k] + s.flying[k + 1..])
  }

  /** All of the captured executions have settled. */
  predicate NoneOf(flying: seq<Execution>, captured: set<nat>) {
    forall i :: 0 <= i < |flying| ==> flying[i].id !in captured
  }

  function ActiveIds(active: map<Text, nat>): set<nat> { set name | name in active :: active[name] }

  // ------------------------------------------------------------------ all interleavings

  datatype Step =
    | Tick(now: int)
    | Outcome(k: nat, succeeded: bool, clock: int, jitter: nat)
    | Cleared(k: nat)
    | Abort
    | TimerFails
    | LeaveLoop
    | Drain(ok: bool)
    | AllSettled
    | GraceExpires
    | Stop

  predicate Enabled(s: State, step: Step) {
    match step
    case Tick(_) => s.phase.Looping? && !s.aborted
    case Outcome(k, _, _, jitter) => k < |s.flying| && !s.flying[k].recorded && jitter < s.flying[k].job.intervalMs
    case Cleared(k) => k < |s.flying| && s.flying[k].recorded
    case Abort => true
    case TimerFails => s.phase.Looping? && !s.aborted
    case LeaveLoop => s.phase.Looping? && s.aborted
    case Drain(_) => s.phase.Draining?
    case AllSettled => s.phase.Settling? && NoneOf(s.flying, s.phase.captured)
    case GraceExpires => s.phase.Settling?
    case Stop => s.phase.Settled?
  }

  function Apply(s: State, step: Step, jobs: seq<Job>): State
    requires Enabled(s, step)
  {
    match step
    case Tick(now) => StartDue(s, jobs, now)
    case Outcome(k, succeeded, clock, jitter) => Record(s, k, succeeded, clock, jitter)
    case Cleared(k) => Clear(s, k)
    case Abort => s.(aborted := true)
    case TimerFails => s.(phase := Failed)
    case LeaveLoop => s.(phase := Draining)
    case Drain(ok) => if ok then s.(phase := Settling(ActiveIds(s.active)), drained := true) else s.(phase := Failed)
    case AllSettled => s.(phase := Settled)
    case GraceExpires => s.(phase := Failed)
    case Stop => s.(phase := Stopped)
  }

  function NextRuns(jobs: seq<Job>): map<Text, int> { map i | 0 <= i < |jobs| :: jobs[i].name := 0 }

  predicate Initial(s: State) {
    s.phase == Looping && !s.drained && s.failures == map[] && s.active == map[] && s.flying == []
  }

  ghost predicate Run(states: seq<State>, steps: seq<Step>, jobs: seq<Job>) {
    && |states| == |steps| + 1 && Initial(states[0]) && ValidJobs(jobs)
    && forall i :: 0 <= i < |steps| ==> Enabled(states[i], steps[i]) && states[i + 1] == Apply(states[i], steps[i], jobs)
  }

  // ------------------------------------------------------------------ the invariant

  /** The executions in flight are the active ones: one for each active name, ids never reused. */
  predicate Tracked(active: map<Text, nat>, flying: seq<Execution>, nextId: nat) {
    && (forall i :: 0 <= i < |flying| ==> flying[i].job.name in active && active[flying[i].job.name] == flying[i].id && flying[i].id < nextId)
    && (forall i, j :: 0 <= i < j < |flying| ==> flying[i].job.name != flying[j].job.name)
    && (forall name :: name in active ==> exists i :: 0 <= i < |flying| && flying[i].job.name == name)
  }

  /** From the end of the loop on nothing starts, so what flies was captured. */
  predicate CapturedAll(s: State) {
    match s.phase
    case Settling(captured) => s.drained && forall i :: 0 <= i < |s.flying| ==> s.flying[i].id in captured
    case Settled => s.drained && s.flying == []
    case Stopped => s.drained && s.flying == []
    case _ => true
  }

  predicate FailuresCapped(s: State) { forall name :: name in s.failures ==> s.failures[name] <= MAX_FAILURES }

  predicate Inv(s: State, jobs: seq<Job>) {
    && Tracked(s.active, s.flying, s.nextId)
    && JobsOf(s.flying, jobs)
    && FailuresCapped(s)
    && CapturedAll(s)
  }

  lemma StartOneKeeps(s: State, job: Job, now: int, jobs: seq<Job>)
    requires Inv(s, jobs) && s.phase.Looping? && job in jobs
    ensures Inv(StartOne(s, job, now), jobs) && StartOne(s, job, now).phase == s.phase
  {
    if Due(s, job, now) {
      var t := StartOne(s, job, now);
      assert t.flying[|s.flying|] == Execution(s.nextId, job, false);
      forall name | name in t.active ensures exists i :: 0 <= i < |t.flying| && t.flying[i].job.name == name {
        if name == job.name {
          assert t.flying[|s.flying|].job.name == name;
        } else {
          var i :| 0 <= i < |s.flying| && s.flying[i].job.name == name;
          assert t.flying[i] == s.flying[i];
        }
      }
    }
  }

  lemma {:induction false} StartDueKeeps(s: State, due: seq<Job>, now: int, jobs: seq<Job>)
    requires Inv(s, jobs) && s.phase.Looping? && forall i :: 0 <= i < |due| ==> due[i] in jobs
    ensures Inv(StartDue(s, due, now), jobs) && StartDue(s, due, now).phase == s.phase
  {
    if due != [] {
      var last := |due| - 1;
      StartDueKeeps(s, due[..last], now, jobs);
      StartOneKeeps(StartDue(s, due[..last], now), due[last], now, jobs);
    }
  }

  lemma RecordedTracked(active: map<Text, nat>, flying: seq<Execution>, nextId: nat, k: nat)
    requires Tracked(active, flying, nextId) && k < |flying|
    ensures Tracked(active, flying[k := flying[k].(recorded := true)], nextId)
  {
    var after := flying[k := flying[k].(recorded := true)];
    forall name | name in active ensures exists i :: 0 <= i < |after| && after[i].job.name == name {
      var i :| 0 <= i < |flying| && flying[i].job.name == name;
      assert after[i].job.name == name;
    }
  }

  predicate JobsOf(flying: seq<Execution>, jobs: seq<Job>) { forall i :: 0 <= i < |flying| ==> flying[i].job in jobs }

  lemma RecordKeeps(s: State, k: nat, succeeded: bool, clock: int, jitter: nat, jobs: seq<Job>)
    requires Inv(s, jobs) && k < |s.flying|
    ensures Inv(Record(s, k, succeeded, clock, jitter), jobs)
  {
    RecordedTracked(s.active, s.flying, s.nextId, k);
  }

  lemma ClearedTracked(active: map<Text, nat>, flying: seq<Execution>, nextId: nat, k: nat)
    requires Tracked(active, flying, nextId) && k < |flying|
    ensures Tracked(active - {flying[k].job.name}, flying[..k] + flying[k + 1..], nextId)
  {
    var after := flying[..k] + flying[k + 1..];
    assert forall i :: 0 <= i < |after| ==> after[i] == flying[if i < k then i else i + 1];
    forall name | name in active - {flying[k].job.name}
      ensures exists i :: 0 <= i < |after| && after[i].job.name == name
    {
      var i :| 0 <= i < |flying| && flying[i].job.name == name;
      assert after[if i < k then i else i - 1] == flying[i];
    }
  }

  lemma ClearedJobs(flying: seq<Execution>, k: nat, jobs: seq<Job>)
    requires JobsOf(flying, jobs) && k < |flying|
    ensures JobsOf(flying[..k] + flying[k + 1..], jobs)
  {
    var after := flying[..k] + flying[k + 1..];
    assert forall i :: 0 <= i < |after| ==> after[i] == flying[if i < k then i else i + 1];
  }

  lemma ClearedCaptured(s: State, k: nat)
    requires CapturedAll(s) && k < |s.flying|
    ensures CapturedAll(Clear(s, k))
  {
    var after := s.flying[..k] + s.flying[k + 1..];
    assert forall i :: 0 <= i < |after| ==> after[i] == s.flying[if i < k then i else i + 1];
  }

  lemma ClearKeeps(s: State, k: nat, jobs: seq<Job>)
    requires Inv(s, jobs) && k < |s.flying|
    ensures Inv(Clear(s, k), jobs)
  {
    ClearedTracked(s.active, s.flying, s.nextId, k);
    ClearedJobs(s.flying, k, jobs);
    ClearedCaptured(s, k);
  }

  lemma StepKeeps(s: State, step: Step, jobs: seq<Job>)
    requires Inv(s, jobs) && Enabled(s, step)
    ensures Inv(Apply(s, step, jobs), jobs)
  {
    match step
    case Tick(now) => StartDueKeeps(s, jobs, now, jobs);
    case Outcome(k, succeeded, clock, jitter) => RecordKeeps(s, k, succeeded, clock, jitter, jobs);
    case Cleared(k) => ClearKeeps(s, k, jobs);
    case Drain(ok) =>
    case AllSettled => NothingFlies(s);
    case _ =>
  }

  lemma SomeLeft(flying: seq<Execution>, captured: set<nat>)
    requires flying != [] && forall i :: 0 <= i < |flying| ==> flying[i].id in captured
    ensures !NoneOf(flying, captured)
  {
    assert flying[0].id in captured;
  }

  lemma NothingFlies(s: State)
    requires s.phase.Settling? && CapturedAll(s) && NoneOf(s.flying, s.phase.captured)
    ensures s.flying == []
  {
    if s.flying != [] { SomeLeft(s.flying, s.phase.captured); }
  }

  lemma {:induction false} ReachableSound(states: seq<State>, steps: seq<Step>, jobs: seq<Job>, n: nat)
    requires Run(states, steps, jobs) && n <= |steps|
    ensures Inv(states[n], jobs)
  {
    if n > 0 {
      ReachableSound(states, steps, jobs, n - 1);
      StepKeeps(states[n - 1], steps[n - 1], jobs);
    }
  }

  // ------------------------------------------------------------------ what every run gives

  /** The jobs that are due and idle, in order. */
  function DueJobs(s: State, jobs: seq<Job>, now: int): seq<Job> {
    if jobs == [] then []
    else
      var last := jobs[|jobs| - 1];
      DueJobs(s, jobs[..|jobs| - 1], now) + (if Due(s, last, now) then [last] else [])
  }

  /** The job has no execution, and its time has come; a job without a time runs at once. */
  predicate Runnable(s: State, job: Job, now: int) {
    job.name !in s.active && (job.name in s.nextRun ==> s.nextRun[job.name] <= now) && (job.name !in s.nextRun ==> 0 <= now)
  }

  lemma {:induction false} DueJobsAre(s: State, jobs: seq<Job>, now: int)
    ensures forall job :: job in DueJobs(s, jobs, now) <==> job in jobs && Runnable(s, job, now)
  {
    if jobs != [] {
      DueJobsAre(s, jobs[..|jobs| - 1], now);
      assert jobs == jobs[..|jobs| - 1] + [jobs[|jobs| - 1]];
    }
  }

  function Executions(jobs: seq<Job>, id: nat): (started: seq<Execution>)
    ensures |started| == |jobs|
  {
    seq(|jobs|, i requires 0 <= i < |jobs| => Execution(id + i, jobs[i], false))
  }

  function Names(jobs: seq<Job>): set<Text> { set job | job in jobs :: job.name }

  /** The given jobs are in flight besides those that were, under ids of their own, and nothing else is changed. */
  predicate Started(s: State, u: State, started: seq<Job>) {
    && u == s.(active := u.active, flying := s.flying + Executions(started, s.nextId), nextId := s.nextId + |started|)
    && u.active.Keys == s.active.Keys + Names(started)
    && forall name :: name in s.active ==> u.active[name] == s.active[name]
  }

  lemma StartsOne(s: State, u: State, started: seq<Job>, job: Job, now: int)
    requires Started(s, u, started) && job.name !in Names(started)
    ensures Started(s, StartOne(u, job, now), started + (if Due(s, job, now) then [job] else []))
  {
    assert Due(u, job, now) <==> Due(s, job, now);
    if Due(s, job, now) {
      var more := started + [job];
      assert Executions(more, s.nextId) == Executions(started, s.nextId) + [Execution(s.nextId + |started|, job, false)];
      assert forall x :: x in more <==> x in started || x == job;
      assert Names(more) == Names(started) + {job.name};
    } else {
      assert started + [] == started;
    }
  }

  /**
   Of jobs with distinct names exactly those that are due and idle are started, each once, and
   nothing else changes.
   */
  lemma {:induction false} StartsExactlyDue(s: State, jobs: seq<Job>, now: int)
    requires DistinctNames(jobs)
    ensures Started(s, StartDue(s, jobs, now), DueJobs(s, jobs, now))
    ensures forall job :: job in DueJobs(s, jobs, now) <==> job in jobs && Runnable(s, job, now)
    decreases |jobs|
  {
    if jobs != [] {
      var init, last := jobs[..|jobs| - 1], jobs[|jobs| - 1];
      StartsExactlyDue(s, init, now);
      DueJobsAre(s, init, now);
      assert last.name !in Names(DueJobs(s, init, now));
      StartsOne(s, StartDue(s, init, now), DueJobs(s, init, now), last, now);
    } else {
      assert Executions([], s.nextId) == [] && Names([]) == {};
    }
  }

  /** Each job name has at most one execution in flight. */
  lemma OneInFlight(states: seq<State>, steps: seq<Step>, jobs: seq<Job>, n: nat)
    requires Run(states, steps, jobs) && n <= |steps|
    ensures forall i, j ::
      0 <= i < j < |states[n].flying| ==> states[n].flying[i].job.name != states[n].flying[j].job.name
  {
    ReachableSound(states, steps, jobs, n);
  }

  /** The instance is stopped only after it was drained, and with no execution in flight. */
  lemma StopsIdle(states: seq<State>, steps: seq<Step>, jobs: seq<Job>, n: nat)
    requires Run(states, steps, jobs) && n < |steps| && steps[n].Stop?
    ensures states[n].drained && states[n].flying == []
  {
    ReachableSound(states, steps, jobs, n);
  }

  /** What makes the loop fail: its timer, a drain that is refused, or executions that outlast the grace period. */
  predicate Fails(step: Step) { step.TimerFails? || step == Drain(false) || step.GraceExpires? }

  /** In every run the loop has failed, is drained, or is stopped exactly when some step made it so. */
  lemma {:induction false} PhasesMean(states: seq<State>, steps: seq<Step>, jobs: seq<Job>, n: nat)
    requires Run(states, steps, jobs) && n <= |steps|
    ensures states[n].phase.Failed? <==> exists m :: 0 <= m < n && Fails(steps[m])
    ensures states[n].drained <==> exists m :: 0 <= m < n && steps[m] == Drain(true)
    ensures states[n].phase.Stopped? <==> exists m :: 0 <= m < n && steps[m] == Stop
  {
    if n > 0 {
      PhasesMean(states, steps, jobs, n - 1);
      StepMeans(states[n - 1], steps[n - 1], jobs);
    }
  }

  lemma StepMeans(s: State, step: Step, jobs: seq<Job>)
    requires Enabled(s, step)
    ensures var t := Apply(s, step, jobs);
      && (t.phase.Failed? <==> s.phase.Failed? || Fails(step))
      && (t.drained <==> s.drained || step == Drain(true))
      && (t.phase.Stopped? <==> s.phase.Stopped? || step == Stop)
  {
    if step.Tick? { StartDueKeepsPhase(s, jobs, step.now); }
  }

  lemma {:induction false} StartDueKeepsPhase(s: State, due: seq<Job>, now: int)
    ensures StartDue(s, due, now).phase == s.phase && StartDue(s, due, now).drained == s.drained
  {
    if due != [] { StartDueKeepsPhase(s, due[..|due| - 1], now); }
  }

  lemma {:induction false} BackedOffIs(intervalMs: nat, failures: nat)
    ensures BackedOff(intervalMs, failures) == intervalMs * Pow2(failures) >= intervalMs
  {
    if failures > 0 { BackedOffIs(intervalMs, failures - 1); }
  }

  /** A success clears the count of failures; a failure raises it, up to eight. */
  predicate CountsOn(before: map<Text, nat>, after: map<Text, nat>, name: Text, succeeded: bool) {
    && after.Keys == before.Keys + {name} && (forall other :: other in before && other != name ==> after[other] == before[other])
    && (succeeded ==> after[name] == 0)
    && (!succeeded && name !in before ==> after[name] == 1)
    && (!succeeded && name in before ==> after[name] == (if before[name] < 8 then before[name] + 1 else 8))
  }

  /** How long the job rests: its interval, doubled for each failure, with the jitter, at most a minute. */
  predicate RestsFor(delay: int, intervalMs: nat, failures: nat, jitter: nat) {
    var full := intervalMs * Pow2(failures) + jitter;
    delay == (if full <= 60_000 then full else 60_000)
  }

  lemma DelayIs(intervalMs: nat, failures: nat, jitter: nat)
    ensures RestsFor(Delay(intervalMs, failures, jitter), intervalMs, failures, jitter)
    ensures intervalMs <= MAX_DELAY ==> intervalMs <= Delay(intervalMs, failures, jitter) <= MAX_DELAY
  {
    BackedOffIs(intervalMs, failures);
  }

  lemma RecordMeans(s: State, k: nat, succeeded: bool, clock: int, jitter: nat)
    requires k < |s.flying| && FailuresCapped(s)
    ensures var job, u := s.flying[k].job, Record(s, k, succeeded, clock, jitter);
      && CountsOn(s.failures, u.failures, job.name, succeeded)
      && u.nextRun.Keys == s.nextRun.Keys + {job.name}
      && (forall other :: other in s.nextRun && other != job.name ==> u.nextRun[other] == s.nextRun[other])
      && RestsFor(u.nextRun[job.name] - clock, job.intervalMs, u.failures[job.name], if succeeded then 0 else jitter)
  {
    DelayIs(s.flying[k].job.intervalMs, FailuresAfter(s, s.flying[k].job, succeeded), if succeeded then 0 else jitter);
  }

  /**
   After every outcome the failures are counted on, capped at eight, and the next run is between one
   interval and a minute away.
   */
  lemma DelaysBounded(states: seq<State>, steps: seq<Step>, jobs: seq<Job>, n: nat)
    requires Run(states, steps, jobs) && n < |steps| && steps[n].Outcome?
    ensures var job, step, next := states[n].flying[steps[n].k].job, steps[n], states[n + 1];
      && CountsOn(states[n].failures, next.failures, job.name, step.succeeded) && next.failures[job.name] <= 8
      && job.name in next.nextRun
      && RestsFor(next.nextRun[job.name] - step.clock, job.intervalMs, next.failures[job.name], if step.succeeded then 0 else step.jitter)
      && job.intervalMs <= next.nextRun[job.name] - step.clock <= 60_000
  {
    ReachableSound(states, steps, jobs, n);
    var job, step := states[n].flying[steps[n].k].job, steps[n];
    RecordMeans(states[n], step.k, step.succeeded, step.clock, step.jitter);
    DelayIs(job.intervalMs, FailuresAfter(states[n], job, step.succeeded), if step.succeeded then 0 else step.jitter);
  }

  // ------------------------------------------------------------------ the maps as the loop updates them

  class Scheduler {
    const jobs: seq<Job>
    var nextRun: map<Text, int>
    var failures: map<Text, nat>
    var active: map<Text, nat>
    var flying: seq<Execution>
    var nextId: nat

    constructor (jobs: seq<Job>)
      ensures this.jobs == jobs && Initial(Now(false))
      ensures nextRun == NextRuns(jobs)
    {
      this.jobs := jobs;
      nextRun, failures, active, flying, nextId := NextRuns(jobs), map[], map[], [], 0;
    }

    /** The state of a loop that is still going. */
    function Now(aborted: bool): State
      reads this
    {
      State(Looping, aborted, false, nextRun, failures, active, flying, nextId)
    }

    method StartDueJobs(now: int)
      modifies this`active, this`flying, this`nextId
      ensures Now(false) == StartDue(old(Now(false)), jobs, now)
    {
      for i := 0 to |jobs|
        invariant Now(false) == StartDue(old(Now(false)), jobs[..i], now)
        invariant nextRun == old(nextRun) && failures == old(failures)
      {
        var job := jobs[i];
        assert jobs[..i + 1][..i] == jobs[..i];
        if job.name !in active && now >= Get(nextRun, job.name, 0) {
          active := active[job.name := nextId];
          flying := flying + [Execution(nextId, job, false)];
          nextId := nextId + 1;
        }
      }
      assert jobs[..|jobs|] == jobs;
    }

    method RecordOutcome(k: nat, succeeded: bool, clock: int, jitter: nat)
      requires k < |flying|
      modifies this`nextRun, this`failures, this`flying
      ensures Now(false) == Record(old(Now(false)), k, succeeded, clock, jitter)
    {
      var e := flying[k];
      var count := if succeeded then 0 else Get(failures, e.job.name, 0) + 1;
      if count > MAX_FAILURES { count := MAX_FAILURES; }
      failures := failures[e.job.name := count];
      nextRun := nextRun[e.job.name := clock + Delay(e.job.intervalMs, count, if succeeded then 0 else jitter)];
      flying := flying[k := e.(recorded := true)];
    }

    method ClearExecution(k: nat)
      requires k < |flying|
      modifies this`active, this`flying
      ensures Now(false) == Clear(old(Now(false)), k)
    {
      active := active - {flying[k].job.name};
      flying := flying[..k] + flying[k + 1..];
    }
  }
}
