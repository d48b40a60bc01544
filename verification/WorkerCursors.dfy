/**
 The cursors of the worker's jobs: nested round-robin over organizations and their watch
 targets for ingestion, and plain round-robin over organizations for the other jobs.
 Ids stand for their rank in the database's order.
 */
module WorkerCursors {
  import opened Wrappers

  /** An organization with the ids of its active targets, in order. */
  datatype Organization = Organization(id: nat, targets: seq<nat>)

  /** The `organizationId` and `watchTargetId` of the last result. */
  datatype Cursor = Cursor(organization: Option<nat>, target: Option<nat>)

  /** Which ids the cursor decoders recognize. */
  datatype Decoders = Decoders(organization: nat -> bool, target: nat -> bool)

  datatype Visit = Visit(organization: nat, target: nat)

  predicate Ascending(ids: seq<nat>) { forall i, j :: 0 <= i < j < |ids| ==> ids[i] < ids[j] }

  /** A fixed fleet, in id order. */
  predicate Fleet(orgs: seq<Organization>) {
    && (forall i, j :: 0 <= i < j < |orgs| ==> orgs[i].id < orgs[j].id)
    && (forall i :: 0 <= i < |orgs| ==> Ascending(orgs[i].targets))
  }

  function Decoded(id: Option<nat>, ok: nat -> bool): Option<nat> {
    if id.Some? && ok(id.value) then id else None
  }

  /** `WHERE after IS NULL OR id > after ORDER BY id`. */
  function LaterTargets(ids: seq<nat>, after: Option<nat>): seq<nat> {
    if ids == [] then []
    else (if after.None? || ids[0] > after.value then [ids[0]] else []) + LaterTargets(ids[1..], after)
  }

  function LaterOrganizations(orgs: seq<Organization>, after: Option<nat>): seq<Organization> {
    if orgs == [] then []
    else (if after.None? || orgs[0].id > after.value then [orgs[0]] else []) + LaterOrganizations(orgs[1..], after)
  }

  function Limit<T>(s: seq<T>, n: nat): seq<T> { if |s| <= n then s else s[..n] }

  /** The next organizations after the cursor, from the first again when there are none. */
  function Organizations(orgs: seq<Organization>, limit: nat, after: Option<nat>): seq<Organization> {
    var rows := Limit(LaterOrganizations(orgs, after), limit);
    if rows == [] && after.Some? then Limit(orgs, limit) else rows
  }

  function FindOrganization(orgs: seq<Organization>, id: nat): Option<Organization> {
    if orgs == [] then None
    else if orgs[0].id == id then Some(orgs[0])
    else FindOrganization(orgs[1..], id)
  }

  function Visits(organization: nat, targets: seq<nat>): (visits: seq<Visit>)
    ensures |visits| == |targets| && forall i :: 0 <= i < |targets| ==> visits[i] == Visit(organization, targets[i])
  {
    seq(|targets|, i requires 0 <= i < |targets| => Visit(organization, targets[i]))
  }

  function CursorAfter(organization: Organization, rows: seq<nat>, batch: nat): Cursor {
    Cursor(Some(organization.id), if |rows| == batch && rows != [] then Some(rows[|rows| - 1]) else None)
  }

  /** One successful ingestion run: the targets it syncs, and the cursor of its result. */
  function Ingest(orgs: seq<Organization>, batch: nat, ok: Decoders, cursor: Cursor): (seq<Visit>, Cursor) {
    var organization, target := Decoded(cursor.organization, ok.organization), Decoded(cursor.target, ok.target);
    var continuing := if organization.None? || target.None? then None else FindOrganization(orgs, organization.value);
    var next := Organizations(orgs, 1, organization);
    if continuing.None? && next == [] then ([], Cursor(None, None))
    else
      var chosen := if continuing.Some? then continuing.value else next[0];
      var rows := Limit(LaterTargets(chosen.targets, if continuing.Some? then target else None), batch);
      (Visits(chosen.id, rows), CursorAfter(chosen, rows, batch))
  }

  /** A job as its runs see it: from a cursor, what a successful run visits and the cursor it leaves. */
  type Job<!C, V> = C -> (seq<V>, C)

  function IngestJob(orgs: seq<Organization>, batch: nat, ok: Decoders): Job<Cursor, Visit> {
    cursor => Ingest(orgs, batch, ok, cursor)
  }

  /** The first `n` successful runs of a job from a cursor. */
  function Runs<C, V>(job: Job<C, V>, cursor: C, n: nat): (seq<V>, C)
    decreases n
  {
    if n == 0 then ([], cursor)
    else
      var (visits, next) := job(cursor);
      var (more, last) := Runs(job, next, n - 1);
      (visits + more, last)
  }

  // ------------------------------------------------------------------ selections by id

  lemma {:induction false} AllTargets(ids: seq<nat>)
    ensures LaterTargets(ids, None) == ids
  {
    if ids != [] { AllTargets(ids[1..]); }
  }

  lemma {:induction false} TargetsAbove(ids: seq<nat>, after: nat)
    requires forall i :: 0 <= i < |ids| ==> ids[i] > after
    ensures LaterTargets(ids, Some(after)) == ids
  {
    if ids != [] { TargetsAbove(ids[1..], after); }
  }

  lemma {:induction false} TargetsAfter(ids: seq<nat>, k: nat)
    requires Ascending(ids) && k < |ids|
    ensures LaterTargets(ids, Some(ids[k])) == ids[k + 1..]
  {
    assert forall i, j :: 0 <= i < j < |ids[1..]| ==> ids[1..][i] == ids[i + 1] && ids[1..][j] == ids[j + 1];
    if k == 0 {
      TargetsAbove(ids[1..], ids[0]);
    } else {
      TargetsAfter(ids[1..], k - 1);
      assert ids[1..][k..] == ids[k + 1..];
    }
  }

  lemma {:induction false} AllOrganizations(orgs: seq<Organization>)
    ensures LaterOrganizations(orgs, None) == orgs
  {
    if orgs != [] { AllOrganizations(orgs[1..]); }
  }

  lemma {:induction false} OrganizationsAbove(orgs: seq<Organization>, after: nat)
    requires forall i :: 0 <= i < |orgs| ==> orgs[i].id > after
    ensures LaterOrganizations(orgs, Some(after)) == orgs
  {
    if orgs != [] { OrganizationsAbove(orgs[1..], after); }
  }

  lemma {:induction false} OrganizationsAfter(orgs: seq<Organization>, k: nat)
    requires Fleet(orgs) && k < |orgs|
    ensures LaterOrganizations(orgs, Some(orgs[k].id)) == orgs[k + 1..]
  {
    assert forall i, j :: 0 <= i < j < |orgs[1..]| ==> orgs[1..][i] == orgs[i + 1] && orgs[1..][j] == orgs[j + 1];
    if k == 0 {
      OrganizationsAbove(orgs[1..], orgs[0].id);
    } else {
      OrganizationsAfter(orgs[1..], k - 1);
      assert orgs[1..][k..] == orgs[k + 1..];
    }
  }

  lemma {:induction false} Finds(orgs: seq<Organization>, k: nat)
    requires Fleet(orgs) && k < |orgs|
    ensures FindOrganization(orgs, orgs[k].id) == Some(orgs[k])
  {
    assert forall i, j :: 0 <= i < j < |orgs[1..]| ==> orgs[1..][i] == orgs[i + 1] && orgs[1..][j] == orgs[j + 1];
    if k > 0 { Finds(orgs[1..], k - 1); }
  }

  // ------------------------------------------------------------------ where a cursor stands

  /** Every id of the fleet is one the decoders recognize. */
  predicate Decodable(orgs: seq<Organization>, ok: Decoders) {
    forall i :: 0 <= i < |orgs| ==> ok.organization(orgs[i].id) && forall j :: 0 <= j < |orgs[i].targets| ==> ok.target(orgs[i].targets[j])
  }

  /** The next run starts with the j-th target of the i-th organization. */
  predicate StandsAt(orgs: seq<Organization>, cursor: Cursor, i: nat, j: nat) {
    && i < |orgs| && j <= |orgs[i].targets|
    && if j > 0 then cursor == Cursor(Some(orgs[i].id), Some(orgs[i].targets[j - 1]))
       else
         || (i == 0 && (cursor == Cursor(None, None) || cursor == Cursor(Some(orgs[|orgs| - 1].id), None)))
         || (i > 0 && cursor == Cursor(Some(orgs[i - 1].id), None))
  }

  function Following(orgs: seq<Organization>, i: nat): nat { if i + 1 < |orgs| then i + 1 else 0 }

  /** A cursor with a target goes on in its organization, behind that target. */
  lemma Continues(orgs: seq<Organization>, batch: nat, ok: Decoders, i: nat, j: nat)
    requires Fleet(orgs) && Decodable(orgs, ok) && i < |orgs| && 0 < j <= |orgs[i].targets|
    ensures var rows := Limit(orgs[i].targets[j..], batch);
      Ingest(orgs, batch, ok, Cursor(Some(orgs[i].id), Some(orgs[i].targets[j - 1]))) == (Visits(orgs[i].id, rows), CursorAfter(orgs[i], rows, batch))
  {
    Finds(orgs, i);
    TargetsAfter(orgs[i].targets, j - 1);
  }

  /** The organization behind a bare organization cursor: the next one, or the first again. */
  lemma NextOrganization(orgs: seq<Organization>, k: nat)
    requires Fleet(orgs) && k < |orgs|
    ensures Organizations(orgs, 1, Some(orgs[k].id)) == [orgs[Following(orgs, k)]]
  {
    OrganizationsAfter(orgs, k);
    if k + 1 < |orgs| {
      assert orgs[k + 1..][..1] == [orgs[k + 1]];
    } else {
      assert orgs[..1] == [orgs[0]];
    }
  }

  lemma StartsOrganization(orgs: seq<Organization>, batch: nat, ok: Decoders, organization: Option<nat>, i: nat)
    requires i < |orgs| && Organizations(orgs, 1, Decoded(organization, ok.organization)) == [orgs[i]]
    ensures var rows := Limit(orgs[i].targets, batch);
      Ingest(orgs, batch, ok, Cursor(organization, None)) == (Visits(orgs[i].id, rows), CursorAfter(orgs[i], rows, batch))
  {
    AllTargets(orgs[i].targets);
  }

  lemma Starts(orgs: seq<Organization>, batch: nat, ok: Decoders, cursor: Cursor, i: nat)
    requires Fleet(orgs) && Decodable(orgs, ok) && StandsAt(orgs, cursor, i, 0)
    ensures var rows := Limit(orgs[i].targets, batch);
      Ingest(orgs, batch, ok, cursor) == (Visits(orgs[i].id, rows), CursorAfter(orgs[i], rows, batch))
  {
    if cursor.organization.None? {
      AllOrganizations(orgs);
      assert orgs[..1] == [orgs[0]] && Limit(orgs, 1) == [orgs[0]];
    } else {
      NextOrganization(orgs, if i == 0 then |orgs| - 1 else i - 1);
    }
    StartsOrganization(orgs, batch, ok, cursor.organization, i);
  }

  /** Which organization a run works on, and from which target. */
  lemma Chooses(orgs: seq<Organization>, batch: nat, ok: Decoders, cursor: Cursor, i: nat, j: nat)
    requires Fleet(orgs) && Decodable(orgs, ok) && StandsAt(orgs, cursor, i, j)
    ensures var rows := Limit(orgs[i].targets[j..], batch);
      Ingest(orgs, batch, ok, cursor) == (Visits(orgs[i].id, rows), CursorAfter(orgs[i], rows, batch))
  {
    if j > 0 {
      Continues(orgs, batch, ok, i, j);
    } else {
      assert orgs[i].targets[0..] == orgs[i].targets;
      Starts(orgs, batch, ok, cursor, i);
    }
  }

  lemma CursorStands(orgs: seq<Organization>, batch: nat, i: nat, j: nat)
    requires Fleet(orgs) && batch > 0 && i < |orgs| && j <= |orgs[i].targets|
    ensures var targets := orgs[i].targets;
      var next := CursorAfter(orgs[i], Limit(targets[j..], batch), batch);
      if j + batch <= |targets| then Limit(targets[j..], batch) == targets[j..j + batch] && StandsAt(orgs, next, i, j + batch)
      else Limit(targets[j..], batch) == targets[j..] && StandsAt(orgs, next, Following(orgs, i), 0)
  {
    var targets := orgs[i].targets;
    if j + batch <= |targets| { assert targets[j..][..batch] == targets[j..j + batch]; }
  }

  /**
   What one run from a standing cursor does: it takes the next batch, and goes on behind it or with
   the next organization.
   */
  predicate TakesBatch(orgs: seq<Organization>, batch: nat, i: nat, j: nat, visits: seq<Visit>, next: Cursor)
    requires i < |orgs| && j <= |orgs[i].targets|
  {
    var targets := orgs[i].targets;
    if j + batch <= |targets| then visits == Visits(orgs[i].id, targets[j..j + batch]) && StandsAt(orgs, next, i, j + batch)
    else visits == Visits(orgs[i].id, targets[j..]) && StandsAt(orgs, next, Following(orgs, i), 0)
  }

  ghost predicate Serves(job: Job<Cursor, Visit>, orgs: seq<Organization>, batch: nat) {
    forall cursor, i, j {:trigger job(cursor), StandsAt(orgs, cursor, i, j)} :: StandsAt(orgs, cursor, i, j) ==>
      TakesBatch(orgs, batch, i, j, job(cursor).0, job(cursor).1)
  }

  lemma IngestServes(orgs: seq<Organization>, batch: nat, ok: Decoders)
    requires Fleet(orgs) && Decodable(orgs, ok) && batch > 0
    ensures Serves(IngestJob(orgs, batch, ok), orgs, batch)
  {
    forall cursor, i, j | StandsAt(orgs, cursor, i, j)
      ensures TakesBatch(orgs, batch, i, j, IngestJob(orgs, batch, ok)(cursor).0, IngestJob(orgs, batch, ok)(cursor).1)
    {
      Chooses(orgs, batch, ok, cursor, i, j);
      CursorStands(orgs, batch, i, j);
    }
  }

  // ------------------------------------------------------------------ runs in sequence

  /** `n` runs from this cursor visit these and end with that cursor. */
  ghost predicate Lead<C, V>(job: Job<C, V>, cursor: C, n: nat, visits: seq<V>, next: C) {
    Runs(job, cursor, n) == (visits, next)
  }

  lemma OneLeads<C, V>(job: Job<C, V>, cursor: C)
    ensures Lead(job, cursor, 1, job(cursor).0, job(cursor).1)
  {
    assert Runs(job, job(cursor).1, 0) == ([], job(cursor).1);
    assert job(cursor).0 + [] == job(cursor).0;
  }

  lemma {:induction false} LeadOn<C, V>(job: Job<C, V>, cursor: C, m: nat, n: nat, first: seq<V>, mid: C,
      second: seq<V>, last: C)
    requires Lead(job, cursor, m, first, mid) && Lead(job, mid, n, second, last)
    ensures Lead(job, cursor, m + n, first + second, last)
    decreases m
  {
    if m == 0 {
      assert first + second == second;
    } else {
      var (visits, next) := job(cursor);
      var rest := Runs(job, next, m - 1).0;
      LeadOn(job, next, m - 1, n, rest, mid, second, last);
      assert visits + rest + second == visits + (rest + second);
    }
  }

  /** How many runs an organization takes: its full batches, and one more that finds the batch not full. */
  function RunsFor(targets: nat, batch: nat): nat
    requires batch > 0
    decreases targets
  {
    if targets < batch then 1 else 1 + RunsFor(targets - batch, batch)
  }

  /** One run of a job that serves the fleet. */
  lemma OneBatch(job: Job<Cursor, Visit>, orgs: seq<Organization>, batch: nat, cursor: Cursor, i: nat,
      j: nat) returns (visits: seq<Visit>, next: Cursor)
    requires Serves(job, orgs, batch) && StandsAt(orgs, cursor, i, j)
    ensures Lead(job, cursor, 1, visits, next)
    ensures var targets := orgs[i].targets;
      if j + batch <= |targets| then visits == Visits(orgs[i].id, targets[j..j + batch]) && StandsAt(orgs, next, i, j + batch)
      else visits == Visits(orgs[i].id, targets[j..]) && StandsAt(orgs, next, Following(orgs, i), 0)
  {
    visits, next := job(cursor).0, job(cursor).1;
    OneLeads(job, cursor);
  }

  lemma Joins<C, V>(job: Job<C, V>, cursor: C, m: nat, n: nat, first: seq<V>, mid: C, second: seq<V>, last: C,
      total: nat, all: seq<V>)
    requires Lead(job, cursor, m, first, mid) && Lead(job, mid, n, second, last)
    requires total == m + n && all == first + second
    ensures Lead(job, cursor, total, all, last)
  {
    LeadOn(job, cursor, m, n, first, mid, second, last);
  }

  lemma {:induction false} FinishesOrganization(job: Job<Cursor, Visit>, orgs: seq<Organization>, batch: nat,
      cursor: Cursor, i: nat, j: nat) returns (next: Cursor)
    requires Serves(job, orgs, batch) && batch > 0 && StandsAt(orgs, cursor, i, j)
    ensures Lead(job, cursor, RunsFor(|orgs[i].targets| - j, batch), Visits(orgs[i].id, orgs[i].targets[j..]), next)
    ensures StandsAt(orgs, next, Following(orgs, i), 0)
    decreases |orgs[i].targets| - j
  {
    var targets := orgs[i].targets;
    var first, mid := OneBatch(job, orgs, batch, cursor, i, j);
    if j + batch <= |targets| {
      next := FinishesOrganization(job, orgs, batch, mid, i, j + batch);
      assert |targets| - j - batch == |targets| - (j + batch);
      VisitsSplit(orgs[i].id, targets, j, j + batch);
      Joins(job, cursor, 1, RunsFor(|targets| - (j + batch), batch), first, mid, Visits(orgs[i].id, targets[j + batch..]), next,
        RunsFor(|targets| - j, batch), Visits(orgs[i].id, targets[j..]));
    } else {
      next := mid;
    }
  }

  lemma VisitsSplit(organization: nat, targets: seq<nat>, j: nat, k: nat)
    requires j <= k <= |targets|
    ensures Visits(organization, targets[j..])
      == Visits(organization, targets[j..k]) + Visits(organization, targets[k..])
  {
  }

  // ------------------------------------------------------------------ whole cycles

  /** The runs of a cycle from the i-th organization on. */
  function CycleRuns(orgs: seq<Organization>, batch: nat, i: nat): nat
    requires batch > 0 && i <= |orgs|
    decreases |orgs| - i
  {
    if i == |orgs| then 0 else RunsFor(|orgs[i].targets|, batch) + CycleRuns(orgs, batch, i + 1)
  }

  /** Every active target from the i-th organization on, in order, once. */
  function EveryTarget(orgs: seq<Organization>, i: nat): seq<Visit>
    requires i <= |orgs|
    decreases |orgs| - i
  {
    if i == |orgs| then [] else Visits(orgs[i].id, orgs[i].targets) + EveryTarget(orgs, i + 1)
  }

  lemma {:induction false} CycleFrom(job: Job<Cursor, Visit>, orgs: seq<Organization>, batch: nat, cursor: Cursor,
      i: nat) returns (next: Cursor)
    requires Serves(job, orgs, batch) && batch > 0 && StandsAt(orgs, cursor, i, 0)
    ensures Lead(job, cursor, CycleRuns(orgs, batch, i), EveryTarget(orgs, i), next)
    ensures StandsAt(orgs, next, 0, 0)
    decreases |orgs| - i
  {
    var own := Visits(orgs[i].id, orgs[i].targets);
    var mid := FinishesOrganization(job, orgs, batch, cursor, i, 0);
    assert orgs[i].targets[0..] == orgs[i].targets;
    if i + 1 < |orgs| {
      next := CycleFrom(job, orgs, batch, mid, i + 1);
      Joins(job, cursor, RunsFor(|orgs[i].targets|, batch), CycleRuns(orgs, batch, i + 1), own, mid, EveryTarget(orgs, i + 1), next,
        CycleRuns(orgs, batch, i), EveryTarget(orgs, i));
    } else {
      next := mid;
      assert CycleRuns(orgs, batch, i + 1) == 0 && EveryTarget(orgs, i + 1) == [] && own + [] == own;
    }
  }

  function Repeat(visits: seq<Visit>, times: nat): seq<Visit> {
    if times == 0 then [] else visits + Repeat(visits, times - 1)
  }

  /** `times` rounds of `n` runs each. */
  function Rounds(times: nat, n: nat): nat {
    if times == 0 then 0 else n + Rounds(times - 1, n)
  }

  lemma {:induction false} CyclesFrom(job: Job<Cursor, Visit>, orgs: seq<Organization>, batch: nat, cursor: Cursor,
      times: nat) returns (next: Cursor)
    requires Serves(job, orgs, batch) && batch > 0 && StandsAt(orgs, cursor, 0, 0)
    ensures Lead(job, cursor, Rounds(times, CycleRuns(orgs, batch, 0)), Repeat(EveryTarget(orgs, 0), times), next)
    ensures StandsAt(orgs, next, 0, 0)
    decreases times
  {
    if times == 0 {
      next := cursor;
    } else {
      var m := CycleRuns(orgs, batch, 0);
      var mid := CycleFrom(job, orgs, batch, cursor, 0);
      next := CyclesFrom(job, orgs, batch, mid, times - 1);
      Joins(job, cursor, m, Rounds(times - 1, m), EveryTarget(orgs, 0), mid, Repeat(EveryTarget(orgs, 0), times - 1), next,
        Rounds(times, m), Repeat(EveryTarget(orgs, 0), times));
    }
  }

  /**
   Ingestion goes round for ever: every cycle visits every target exactly once, in order, in exactly
   the given number of runs.
   */
  lemma IngestionCycles(orgs: seq<Organization>, batch: nat, ok: Decoders, times: nat)
    requires Fleet(orgs) && orgs != [] && Decodable(orgs, ok) && batch > 0
    ensures Runs(IngestJob(orgs, batch, ok), Cursor(None, None), Rounds(times, CycleRuns(orgs, batch, 0))).0
      == Repeat(EveryTarget(orgs, 0), times)
  {
    IngestServes(orgs, batch, ok);
    var next := CyclesFrom(IngestJob(orgs, batch, ok), orgs, batch, Cursor(None, None), times);
  }

  // ------------------------------------------------------------------ the number of runs

  lemma AtLeastOnce(x: int, d: int)
    requires d > 0
    ensures x >= 1 ==> x * d >= d
    ensures x <= -1 ==> x * d <= -d
  {
  }

  lemma QuotientIs(n: nat, d: nat, q: nat, r: nat)
    requires d > 0 && r < d && n == q * d + r
    ensures n / d == q
  {
    var p, s := n / d, n % d;
    assert n == p * d + s && s < d;
    assert (p - q) * d == r - s;
    AtLeastOnce(p - q, d);
  }

  lemma AddOneBatch(rest: nat, batch: nat)
    requires batch > 0
    ensures (rest + batch) / batch == rest / batch + 1
  {
    var q, r := rest / batch, rest % batch;
    assert rest + batch == (q + 1) * batch + r;
    QuotientIs(rest + batch, batch, q + 1, r);
  }

  /** An organization takes floor(targets / batch) + 1 runs. */
  lemma {:induction false} RunsForIs(targets: nat, batch: nat)
    requires batch > 0
    ensures RunsFor(targets, batch) == targets / batch + 1
    decreases targets
  {
    if targets < batch {
      QuotientIs(targets, batch, 0, targets);
    } else {
      RunsForIs(targets - batch, batch);
      AddOneBatch(targets - batch, batch);
    }
  }

  /** In one round no target comes twice, and none is missing. */
  lemma {:induction false} EveryTargetOnce(orgs: seq<Organization>, i: nat)
    requires Fleet(orgs) && i <= |orgs|
    ensures forall k, l :: 0 <= k < l < |EveryTarget(orgs, i)| ==> EveryTarget(orgs, i)[k] != EveryTarget(orgs, i)[l]
    ensures forall v :: v in EveryTarget(orgs, i) <==> exists k :: i <= k < |orgs| && v.organization == orgs[k].id && v.target in orgs[k].targets
    decreases |orgs| - i
  {
    if i < |orgs| {
      EveryTargetOnce(orgs, i + 1);
      var own, rest := Visits(orgs[i].id, orgs[i].targets), EveryTarget(orgs, i + 1);
      forall v ensures v in own <==> v.organization == orgs[i].id && v.target in orgs[i].targets {
        if v.organization == orgs[i].id && v.target in orgs[i].targets {
          var k :| 0 <= k < |orgs[i].targets| && orgs[i].targets[k] == v.target;
          assert own[k] == v;
        }
      }
      forall v ensures v in EveryTarget(orgs, i) <==> exists k :: i <= k < |orgs| && v.organization == orgs[k].id && v.target in orgs[k].targets {
        assert v in EveryTarget(orgs, i) <==> v in own || v in rest;
      }
      forall k, l | 0 <= k < l < |own + rest| ensures (own + rest)[k] != (own + rest)[l] {
        if k < |own| && l >= |own| {
          assert rest[l - |own|] in rest;
        }
      }
    }
  }

  // ------------------------------------------------------------------ ids the decoders do not recognize

  /**
   After a full batch that leaves targets over, the next run goes on behind it exactly when the
   decoders recognize both ids. If only the target's id fails, the rest of the organization is
   skipped; if the organization's fails, ingestion starts over from the first organization.
   */
  lemma GoesOnIffDecodable(orgs: seq<Organization>, batch: nat, ok: Decoders, i: nat, j: nat)
    requires Fleet(orgs) && i < |orgs| && 0 < j < |orgs[i].targets| && batch > 0
    ensures var cursor := Cursor(Some(orgs[i].id), Some(orgs[i].targets[j - 1]));
      var known, found := ok.organization(orgs[i].id), ok.target(orgs[i].targets[j - 1]);
      Ingest(orgs, batch, ok, cursor).0 ==
        if known && found then Visits(orgs[i].id, Limit(orgs[i].targets[j..], batch))
        else
          var other := orgs[if known then Following(orgs, i) else 0];
          Visits(other.id, Limit(other.targets, batch))
  {
    var known := ok.organization(orgs[i].id);
    if known && ok.target(orgs[i].targets[j - 1]) {
      Finds(orgs, i);
      TargetsAfter(orgs[i].targets, j - 1);
    } else {
      NextOrganization(orgs, i);
      AllOrganizations(orgs);
      assert Limit(orgs, 1) == [orgs[0]];
      AllTargets(orgs[if known then Following(orgs, i) else 0].targets);
    }
  }

  // ------------------------------------------------------------------ jobs over batches of organizations

  /** One successful run of a job over organizations, and the `organizationId` of its result. */
  function BatchRun(orgs: seq<Organization>, limit: nat, ok: Decoders,
      cursor: Option<nat>): (seq<Organization>, Option<nat>) {
    var rows := Organizations(orgs, limit, Decoded(cursor, ok.organization));
    (rows, if rows == [] then None else Some(rows[|rows| - 1].id))
  }

  function BatchJob(orgs: seq<Organization>, limit: nat, ok: Decoders): Job<Option<nat>, Organization> {
    cursor => BatchRun(orgs, limit, ok, cursor)
  }

  /** The next batch starts with the k-th organization. */
  predicate BatchAt(orgs: seq<Organization>, cursor: Option<nat>, k: nat) {
    && k < |orgs|
    && if k > 0 then cursor == Some(orgs[k - 1].id) else cursor == None || cursor == Some(orgs[|orgs| - 1].id)
  }

  lemma BatchRows(orgs: seq<Organization>, limit: nat, ok: Decoders, cursor: Option<nat>, k: nat)
    requires Fleet(orgs) && Decodable(orgs, ok) && limit > 0 && BatchAt(orgs, cursor, k)
    ensures Organizations(orgs, limit, Decoded(cursor, ok.organization)) == Limit(orgs[k..], limit)
  {
    assert orgs[0..] == orgs;
    if cursor.None? {
      AllOrganizations(orgs);
    } else if k > 0 {
      OrganizationsAfter(orgs, k - 1);
    } else {
      OrganizationsAfter(orgs, |orgs| - 1);
    }
  }

  /** The batch taken from the k-th organization on, and where that leaves the cursor. */
  predicate TakesOrganizations(orgs: seq<Organization>, limit: nat, k: nat, rows: seq<Organization>, next: Option<nat>)
    requires k < |orgs|
  {
    if k + limit < |orgs| then rows == orgs[k..k + limit] && BatchAt(orgs, next, k + limit)
    else rows == orgs[k..] && BatchAt(orgs, next, 0)
  }

  lemma LimitedRows(orgs: seq<Organization>, limit: nat, k: nat)
    requires limit > 0 && k < |orgs|
    ensures var rows := Limit(orgs[k..], limit);
      rows != [] && TakesOrganizations(orgs, limit, k, rows, Some(rows[|rows| - 1].id))
  {
    if k + limit < |orgs| { assert orgs[k..][..limit] == orgs[k..k + limit]; }
  }

  ghost predicate BatchServes(job: Job<Option<nat>, Organization>, orgs: seq<Organization>, limit: nat) {
    forall cursor, k {:trigger job(cursor), BatchAt(orgs, cursor, k)} :: BatchAt(orgs, cursor, k) ==>
      TakesOrganizations(orgs, limit, k, job(cursor).0, job(cursor).1)
  }

  lemma BatchJobServes(orgs: seq<Organization>, limit: nat, ok: Decoders)
    requires Fleet(orgs) && Decodable(orgs, ok) && limit > 0
    ensures BatchServes(BatchJob(orgs, limit, ok), orgs, limit)
  {
    forall cursor, k | BatchAt(orgs, cursor, k)
      ensures TakesOrganizations(orgs, limit, k, BatchJob(orgs, limit, ok)(cursor).0, BatchJob(orgs, limit, ok)(cursor).1)
    {
      BatchRows(orgs, limit, ok, cursor, k);
      LimitedRows(orgs, limit, k);
    }
  }

  lemma OneOrganizationBatch(job: Job<Option<nat>, Organization>, orgs: seq<Organization>, limit: nat,
      cursor: Option<nat>, k: nat)
      returns (rows: seq<Organization>, next: Option<nat>)
    requires BatchServes(job, orgs, limit) && BatchAt(orgs, cursor, k)
    ensures Lead(job, cursor, 1, rows, next)
    ensures if k + limit < |orgs| then rows == orgs[k..k + limit] && BatchAt(orgs, next, k + limit) else rows == orgs[k..] && BatchAt(orgs, next, 0)
  {
    rows, next := job(cursor).0, job(cursor).1;
    OneLeads(job, cursor);
  }

  /** How many batches cover so many organizations. */
  function Batches(n: nat, limit: nat): nat
    requires limit > 0
    decreases n
  {
    if n <= limit then 1 else 1 + Batches(n - limit, limit)
  }

  /** That is n / limit, rounded up. */
  lemma {:induction false} BatchesIs(n: nat, limit: nat)
    requires n > 0 && limit > 0
    ensures Batches(n, limit) == (n + limit - 1) / limit
    decreases n
  {
    if n <= limit {
      QuotientIs(n + limit - 1, limit, 1, n - 1);
    } else {
      BatchesIs(n - limit, limit);
      AddOneBatch(n - 1, limit);
    }
  }

  lemma OrganizationsSplit(orgs: seq<Organization>, k: nat, l: nat)
    requires k <= l <= |orgs|
    ensures orgs[k..] == orgs[k..l] + orgs[l..]
  {
  }

  lemma {:induction false} BatchesFrom(job: Job<Option<nat>, Organization>, orgs: seq<Organization>, limit: nat,
      cursor: Option<nat>, k: nat) returns (last: Option<nat>)
    requires BatchServes(job, orgs, limit) && limit > 0 && BatchAt(orgs, cursor, k)
    ensures Lead(job, cursor, Batches(|orgs| - k, limit), orgs[k..], last) && BatchAt(orgs, last, 0)
    decreases |orgs| - k
  {
    var rows, next := OneOrganizationBatch(job, orgs, limit, cursor, k);
    if k + limit < |orgs| {
      last := BatchesFrom(job, orgs, limit, next, k + limit);
      assert |orgs| - k - limit == |orgs| - (k + limit);
      OrganizationsSplit(orgs, k, k + limit);
      Joins(job, cursor, 1, Batches(|orgs| - (k + limit), limit), rows, next, orgs[k + limit..], last,
        Batches(|orgs| - k, limit), orgs[k..]);
    } else {
      last := next;
    }
  }

  /**
   Every organization comes once, in order, in exactly as many runs as there are batches, and the
   next run is back at the first.
   */
  lemma OrganizationsCycle(orgs: seq<Organization>, limit: nat, ok: Decoders, cursor: Option<nat>)
    requires Fleet(orgs) && Decodable(orgs, ok) && limit > 0 && BatchAt(orgs, cursor, 0)
    ensures var (rows, next) := Runs(BatchJob(orgs, limit, ok), cursor, Batches(|orgs|, limit)); rows == orgs && BatchAt(orgs, next, 0)
  {
    BatchJobServes(orgs, limit, ok);
    var next := BatchesFrom(BatchJob(orgs, limit, ok), orgs, limit, cursor, 0);
    assert orgs[0..] == orgs;
  }

  lemma LimitKeepsFirst<T>(s: seq<T>, n: nat)
    requires s != [] && n > 0
    ensures Limit(s, n) != [] && Limit(s, n)[0] == s[0]
  {
  }

  /**
   After a batch that leaves organizations over, the next one goes on exactly when the last id is
   recognized; else it starts over.
   */
  lemma BatchGoesOnIffDecodable(orgs: seq<Organization>, limit: nat, ok: Decoders, k: nat)
    requires Fleet(orgs) && limit > 0 && 0 < k < |orgs|
    ensures BatchRun(orgs, limit, ok, Some(orgs[k - 1].id)).0
      == Limit(if ok.organization(orgs[k - 1].id) then orgs[k..] else orgs, limit)
    ensures Limit(orgs[k..], limit) != Limit(orgs, limit)
  {
    OrganizationsAfter(orgs, k - 1);
    AllOrganizations(orgs);
    LimitKeepsFirst(orgs[k..], limit);
    LimitKeepsFirst(orgs, limit);
  }
}
