/**
 The two concurrent maps, as interleaved steps of their workers between awaits: the one of the
 wallet analysis, which goes on after a failure, and the one of the worker's jobs, which does not.
 */
module ConcurrentMap {
  import opened Wrappers

  /** A worker about to take an input, at work on one, out of inputs, or rejected. */
  datatype Worker = Ready | Busy(index: nat) | Stopped | Broken

  /** What has become of an input. */
  datatype Fate<R> = Untouched | InFlight(worker: nat) | Done(result: R) | Failed

  datatype State<R> = State(
    next: nat, workers: seq<Worker>, fates: seq<Fate<R>>, failure: bool, calls: seq<nat>)

  /** A worker's turn: take the next input, or see its operation resolve or reject. */
  datatype Step = Take(worker: nat) | Resolve(worker: nat) | Reject(worker: nat)

  predicate Enabled<R>(s: State<R>, step: Step) {
    && step.worker < |s.workers|
    && match step
       case Take(w) => s.workers[w].Ready?
       case Resolve(w) => s.workers[w].Busy? && s.workers[w].index < |s.fates|
       case Reject(w) => s.workers[w].Busy? && s.workers[w].index < |s.fates|
  }

  /** `obeysFailure` is the worker version, which checks the recorded failure before it takes an input. */
  function Apply<T, R>(s: State<R>, step: Step, values: seq<T>, transform: T -> R, obeysFailure: bool): State<R>
    requires Enabled(s, step) && |s.fates| == |values|
  {
    var w := step.worker;
    match step
    case Take(_) =>
      if obeysFailure && s.failure then s.(workers := s.workers[w := Stopped])
      else if s.next >= |values| then s.(next := s.next + 1, workers := s.workers[w := Stopped])
      else
        s.(next := s.next + 1, workers := s.workers[w := Busy(s.next)], fates := s.fates[s.next := InFlight(w)], calls := s.calls + [s.next])
    case Resolve(_) =>
      var i := s.workers[w].index;
      s.(workers := s.workers[w := Ready], fates := s.fates[i := Done(transform(values[i]))])
    case Reject(_) =>
      var i := s.workers[w].index;
      s.(workers := s.workers[w := if obeysFailure then Ready else Broken], fates := s.fates[i := Failed], failure := true)
  }

  function Least(a: nat, b: nat): nat { if a < b then a else b }

  function AllReady(n: nat): (workers: seq<Worker>)
    ensures |workers| == n && forall w :: 0 <= w < n ==> workers[w] == Ready
  {
    seq(n, _ => Ready)
  }

  function NoFates<R>(n: nat): (fates: seq<Fate<R>>)
    ensures |fates| == n && forall i :: 0 <= i < n ==> fates[i] == Untouched
  {
    seq(n, _ => Untouched)
  }

  function Start<T, R>(values: seq<T>, concurrency: nat): State<R> {
    State(0, AllReady(Least(concurrency, |values|)), NoFates(|values|), false, [])
  }

  ghost predicate Interleaving<T, R(!new)>(states: seq<State<R>>, steps: seq<Step>, values: seq<T>, transform: T -> R, concurrency: nat, obeysFailure: bool) {
    && |states| == |steps| + 1 && states[0] == Start(values, concurrency)
    && forall k :: 0 <= k < |steps| ==>
         Enabled(states[k], steps[k]) && |states[k].fates| == |values| && states[k + 1] == Apply(states[k], steps[k], values, transform, obeysFailure)
  }

  // ------------------------------------------------------------------ the invariant

  /** The inputs are called in order, one after another. */
  predicate InOrder(calls: seq<nat>) { forall k :: 0 <= k < |calls| ==> calls[k] == k }

  /** A worker is busy exactly with the input that is in flight with it. */
  predicate Matched<R>(s: State<R>) {
    && (forall w :: 0 <= w < |s.workers| && s.workers[w].Busy? ==> s.workers[w].index < |s.fates| && s.fates[s.workers[w].index] == InFlight(w))
    && (forall i :: 0 <= i < |s.fates| && s.fates[i].InFlight? ==> s.fates[i].worker < |s.workers| && s.workers[s.fates[i].worker] == Busy(i))
  }

  predicate Inv<T(==), R(==)>(s: State<R>, values: seq<T>, transform: T -> R, concurrency: nat, obeysFailure: bool) {
    && |s.fates| == |values| && |s.workers| == Least(concurrency, |values|)
    && InOrder(s.calls) && |s.calls| == Least(s.next, |values|)
    && (forall i :: 0 <= i < |values| ==> (s.fates[i].Untouched? <==> i >= s.next))
    && Matched(s)
    && (forall i :: 0 <= i < |values| && s.fates[i].Done? ==> s.fates[i].result == transform(values[i]))
    && (s.failure <==> exists i :: 0 <= i < |values| && s.fates[i].Failed?)
    && (!obeysFailure ==> (forall w :: 0 <= w < |s.workers| && s.workers[w].Broken? ==> s.failure))
    && (obeysFailure ==> forall w :: 0 <= w < |s.workers| ==> !s.workers[w].Broken?)
    && (forall w :: 0 <= w < |s.workers| && s.workers[w].Stopped? ==> s.next > |values| || (obeysFailure && s.failure))
  }

  lemma TakeKeeps<T, R>(s: State<R>, w: nat, values: seq<T>, transform: T -> R, concurrency: nat, obeysFailure: bool)
    requires Inv(s, values, transform, concurrency, obeysFailure) && Enabled(s, Take(w))
    ensures Inv(Apply(s, Take(w), values, transform, obeysFailure), values, transform, concurrency, obeysFailure)
  {
    var t := Apply(s, Take(w), values, transform, obeysFailure);
    if !(obeysFailure && s.failure) && s.next < |values| {
      assert forall i :: 0 <= i < |values| && i != s.next ==> t.fates[i] == s.fates[i];
      assert forall v :: 0 <= v < |s.workers| && v != w ==> t.workers[v] == s.workers[v];
      assert s.failure ==> exists i :: 0 <= i < |values| && t.fates[i].Failed? by {
        if i :| 0 <= i < |values| && s.fates[i].Failed? { assert t.fates[i].Failed?; }
      }
    }
  }

  lemma ResolveKeeps<T, R>(s: State<R>, w: nat, values: seq<T>, transform: T -> R, concurrency: nat, obeysFailure: bool)
    requires Inv(s, values, transform, concurrency, obeysFailure) && Enabled(s, Resolve(w))
    ensures Inv(Apply(s, Resolve(w), values, transform, obeysFailure), values, transform, concurrency, obeysFailure)
  {
    var t, i := Apply(s, Resolve(w), values, transform, obeysFailure), s.workers[w].index;
    assert forall j :: 0 <= j < |values| && j != i ==> t.fates[j] == s.fates[j];
    assert forall v :: 0 <= v < |s.workers| && v != w ==> t.workers[v] == s.workers[v];
    assert s.failure ==> exists j :: 0 <= j < |values| && t.fates[j].Failed? by {
      if j :| 0 <= j < |values| && s.fates[j].Failed? { assert t.fates[j].Failed?; }
    }
  }

  lemma StepKeeps<T, R>(s: State<R>, step: Step, values: seq<T>, transform: T -> R, concurrency: nat,
      obeysFailure: bool)
    requires Inv(s, values, transform, concurrency, obeysFailure) && Enabled(s, step)
    ensures Inv(Apply(s, step, values, transform, obeysFailure), values, transform, concurrency, obeysFailure)
  {
    match step
    case Take(w) => TakeKeeps(s, w, values, transform, concurrency, obeysFailure);
    case Resolve(w) => ResolveKeeps(s, w, values, transform, concurrency, obeysFailure);
    case Reject(w) =>
  }

  lemma {:induction false} ReachableSound<T, R(!new)>(states: seq<State<R>>, steps: seq<Step>, values: seq<T>, transform: T -> R, concurrency: nat, obeysFailure: bool, n: nat)
    requires Interleaving(states, steps, values, transform, concurrency, obeysFailure) && n <= |steps|
    ensures Inv(states[n], values, transform, concurrency, obeysFailure)
  {
    if n > 0 {
      ReachableSound(states, steps, values, transform, concurrency, obeysFailure, n - 1);
      StepKeeps(states[n - 1], steps[n - 1], values, transform, concurrency, obeysFailure);
    }
  }

  // ------------------------------------------------------------------ what every interleaving gives

  /** The inputs being worked on. */
  function Flying<R>(fates: seq<Fate<R>>): set<nat> {
    set i | 0 <= i < |fates| && fates[i].InFlight?
  }

  lemma AtMostWorkers(flying: set<nat>, workers: set<nat>, held: map<nat, nat>)
    requires held.Keys == flying && (forall i :: i in held ==> held[i] in workers)
    requires forall i, j :: i in held && j in held && held[i] == held[j] ==> i == j
    ensures |flying| <= |workers|
    decreases flying
  {
    if i :| i in flying {
      var rest := held - {i};
      AtMostWorkers(flying - {i}, workers - {held[i]}, rest);
    }
  }

  function Below(n: nat): (s: set<nat>)
    ensures |s| == n && forall w: nat :: w in s <==> w < n
  {
    if n == 0 then {} else Below(n - 1) + {n - 1}
  }

  /** No input is handled twice, and at most `concurrency` inputs are in flight. */
  lemma AtMostOnceAndBounded<T, R(!new)>(states: seq<State<R>>, steps: seq<Step>, values: seq<T>, transform: T -> R, concurrency: nat, obeysFailure: bool, n: nat)
    requires Interleaving(states, steps, values, transform, concurrency, obeysFailure) && n <= |steps|
    ensures forall k, l :: 0 <= k < l < |states[n].calls| ==> states[n].calls[k] != states[n].calls[l]
    ensures forall k :: 0 <= k < |states[n].calls| ==> states[n].calls[k] < |values|
    ensures |Flying(states[n].fates)| <= concurrency
  {
    ReachableSound(states, steps, values, transform, concurrency, obeysFailure, n);
    var s := states[n];
    var flying := Flying(s.fates);
    var held := map i | i in flying :: s.fates[i].worker;
    forall i, j | i in held && j in held && held[i] == held[j] ensures i == j {
      assert s.workers[held[i]] == Busy(i) && s.workers[held[j]] == Busy(j);
    }
    AtMostWorkers(flying, Below(|s.workers|), held);
  }

  predicate Finished<R>(s: State<R>) {
    forall w :: 0 <= w < |s.workers| ==> s.workers[w].Stopped? || s.workers[w].Broken?
  }

  /**
   When all workers are through and nothing failed, every input was handled exactly once and its
   result is at its own index.
   */
  lemma AllHandled<T, R(!new)>(states: seq<State<R>>, steps: seq<Step>, values: seq<T>, transform: T -> R, concurrency: nat, obeysFailure: bool, n: nat)
    requires Interleaving(states, steps, values, transform, concurrency, obeysFailure) && n <= |steps|
    requires concurrency > 0
    requires Finished(states[n]) && !states[n].failure
    ensures InOrder(states[n].calls) && |states[n].calls| == |values|
    ensures |states[n].fates| == |values| && forall i :: 0 <= i < |values| ==> states[n].fates[i] == Done(transform(values[i]))
  {
    ReachableSound(states, steps, values, transform, concurrency, obeysFailure, n);
    var s := states[n];
    if values != [] {
      assert s.workers[0].Stopped?;
      forall i | 0 <= i < |values| ensures s.fates[i].Done? {
        assert !s.fates[i].Untouched? && !s.fates[i].Failed?;
      }
    }
  }

  lemma FailureStays<T, R>(s: State<R>, step: Step, values: seq<T>, transform: T -> R)
    requires Enabled(s, step) && |s.fates| == |values| && s.failure
    ensures Apply(s, step, values, transform, true).failure && Apply(s, step, values, transform, true).calls == s.calls
  {
  }

  /** The worker version starts nothing once a failure is recorded. */
  lemma {:induction false} NothingStartsAfterFailure<T, R(!new)>(states: seq<State<R>>, steps: seq<Step>, values: seq<T>, transform: T -> R, concurrency: nat, m: nat, n: nat)
    requires Interleaving(states, steps, values, transform, concurrency, true) && m <= n <= |steps| && states[m].failure
    ensures states[n].failure && states[n].calls == states[m].calls
    decreases n
  {
    if m < n {
      NothingStartsAfterFailure(states, steps, values, transform, concurrency, m, n - 1);
      FailureStays(states[n - 1], steps[n - 1], values, transform);
    }
  }
}
