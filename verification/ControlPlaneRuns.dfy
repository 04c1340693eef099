/** Parent runs, uniqueness and the prerequisite order over whole behaviours of the control plane. */
module ControlPlaneRuns {
  import opened Wrappers
  import opened ControlPlane
  import opened ControlPlaneInvariants
  import opened ControlPlaneTheorems

  // ---------------------------------------------------------------- how a run ends

  /** Between `s` and `t` some open batch execution of run `r` ended with the failing status `x`. */
  ghost predicate BatchFailed(s: State, t: State, r: nat, x: Status) {
    Failing(x) && exists e :: EndedWith(s, t, e, r, x)
  }

  ghost predicate EndedWith(s: State, t: State, e: nat, r: nat, x: Status) {
    && e in s.batches && s.batches[e].run == r && !Terminal(s.batches[e].status)
    && e in t.batches && t.batches[e].status == x
  }

  /** A run that has ended stays; an open run takes the failing status of its failing batch, if there is one. */
  ghost predicate RunFollows(s: State, t: State, r: nat) {
    && r in s.runs && r in t.runs
    && (Terminal(s.runs[r].status) ==> t.runs[r] == s.runs[r])
    && (!Terminal(s.runs[r].status) ==>
          && (forall x :: BatchFailed(s, t, r, x) ==> t.runs[r] == s.runs[r].(status := x))
          && ((forall x :: !BatchFailed(s, t, r, x)) ==> t.runs[r] == s.runs[r]))
  }

  /** The one-row case: a row moves and `_terminalize_parent_failure` looks at its new status. */
  lemma AdvanceRunFollows(s: State, e: nat, row: BatchRow, kind: Kind, failure: Option<string>, r: nat)
    requires References(s) && e in s.batches && !Terminal(s.batches[e].status) && row.run == s.batches[e].run && r in s.runs
    ensures RunFollows(s, EndParent(Advance(s, e, row, kind), row.run, row.status, e, failure), r)
  {
    var t := EndParent(Advance(s, e, row, kind), row.run, row.status, e, failure);
    if Failing(row.status) && row.run == r {
      assert EndedWith(s, t, e, r, row.status);
      assert BatchFailed(s, t, r, row.status);
    }
    assert forall f, x :: EndedWith(s, t, f, r, x) && Failing(x) ==> f == e;
    assert t.runs[r] == s.runs[r] || (Failing(row.status) && row.run == r);
  }

  /** Nothing ends and no run changes. */
  lemma QuietRunFollows(s: State, t: State, r: nat)
    requires r in s.runs && r in t.runs && t.runs[r] == s.runs[r]
    requires forall e :: e in s.batches && e in t.batches && !Terminal(s.batches[e].status) ==> !Terminal(t.batches[e].status)
    ensures RunFollows(s, t, r)
  {
  }

  /** Reconciliation orphans, so an open run is orphaned exactly when one of its executions is. */
  ghost predicate RunOrphanedWith(s: State, t: State, r: nat) {
    && r in s.runs && r in t.runs
    && t.runs[r] == if !Terminal(s.runs[r].status) && BatchFailed(s, t, r, ORPHANED) then s.runs[r].(status := ORPHANED) else s.runs[r]
  }

  lemma {:induction false} ReconcileRuns(s: State, rows: seq<nat>, r: nat)
    requires References(s) && r in s.runs
    ensures RunOrphanedWith(s, Reconcile(s, rows), r)
  {
    if rows != [] {
      var front, e := rows[..|rows| - 1], rows[|rows| - 1];
      ReconcileRuns(s, front, r);
      if Expired(Reconcile(s, front), e) {
        OrphanAfter(s, front, e, r);
      }
    }
  }

  lemma OrphanAfter(s: State, rows: seq<nat>, e: nat, r: nat)
    requires References(s) && r in s.runs && RunOrphanedWith(s, Reconcile(s, rows), r) && Expired(Reconcile(s, rows), e)
    ensures RunOrphanedWith(s, Orphan(Reconcile(s, rows), e, EXPIRED_CLASS), r)
  {
    hide Reconcile;
    var s1 := Reconcile(s, rows);
    var t := Orphan(s1, e, EXPIRED_CLASS);
    ReconcileRow(s, rows, e);
    if BatchFailed(s, s1, r, ORPHANED) {
      var f :| EndedWith(s, s1, f, r, ORPHANED);
      assert EndedWith(s, t, f, r, ORPHANED);
    } else if s.batches[e].run == r {
      assert EndedWith(s, t, e, r, ORPHANED);
    } else {
      OtherRunsExecution(s, rows, e, r);
    }
  }

  /** Orphaning an execution of another run fails no run that was not failed before. */
  lemma OtherRunsExecution(s: State, rows: seq<nat>, e: nat, r: nat)
    requires e in s.batches && s.batches[e].run != r && Expired(Reconcile(s, rows), e)
    ensures BatchFailed(s, Orphan(Reconcile(s, rows), e, EXPIRED_CLASS), r, ORPHANED) ==> BatchFailed(s, Reconcile(s, rows), r, ORPHANED)
  {
    hide Reconcile;
    var s1 := Reconcile(s, rows);
    var t := Orphan(s1, e, EXPIRED_CLASS);
    if BatchFailed(s, t, r, ORPHANED) {
      var f :| EndedWith(s, t, f, r, ORPHANED);
      ReconcileRow(s, rows, f);
      assert EndedWith(s, s1, f, r, ORPHANED);
    }
  }

  lemma ReconcileRunFollows(s: State, rows: seq<nat>, r: nat)
    requires References(s) && r in s.runs
    ensures RunFollows(s, Reconcile(s, rows), r)
  {
    hide Reconcile;
    var t := Reconcile(s, rows);
    ReconcileRuns(s, rows, r);
    forall x | BatchFailed(s, t, r, x)
      ensures x == ORPHANED
    {
      var e :| EndedWith(s, t, e, r, x);
      ReconcileRow(s, rows, e);
    }
  }

  /** What any enabled step other than `reject_prerequisite_if_owned` does to a run. */
  lemma StepRunFollows(s: State, step: Step, r: nat)
    requires References(s) && Enabled(s, step) && r in s.runs && !step.DoReject?
    ensures RunFollows(s, Apply(s, step), r)
  {
    hide RunFollows, References, ApplyBoot, RequestCancel, Reconcile;
    match step {
      case DoTransition(e, to, test, failure) =>
        if e in s.batches && Allowed(s.batches[e].status, to) {
          AdvanceRunFollows(s, e, s.batches[e].(status := to, test := test, failure := failure), Entered(to, failure), failure, r);
        } else { QuietRunFollows(s, s, r); }
      case DoRequestCancel(e) => CancelRunFollows(s, e, r);
      case DoFinish(e, worker, token, status, test, failure) =>
        if Terminal(status) && Holds(s, e, worker, token) {
          AdvanceRunFollows(s, e, Ended(s.batches[e], status, test, failure), Entered(status, failure), failure, r);
        } else { QuietRunFollows(s, s, r); }
      case DoOrphan(e, worker, token, reason) =>
        if Owns(s, e, worker, token) {
          AdvanceRunFollows(s, e, Ended(s.batches[e], ORPHANED, s.batches[e].test, Some(reason)), Entered(ORPHANED, Some(reason)), Some(reason), r);
        } else { QuietRunFollows(s, s, r); }
      case DoReconcile(rows) => ReconcileRunFollows(s, rows, r);
      case BootStep(action) =>
        BootFrame(s, action);
        QuietRunFollows(s, ApplyBoot(s, action), r);
      case _ => QuietRunFollows(s, Apply(s, step), r);
    }
  }

  /** Bootstrap transactions leave runs and batch executions alone. */
  lemma BootFrame(s: State, action: BootAction)
    ensures var t := ApplyBoot(s, action); t.runs == s.runs && t.batches == s.batches
  {
    if action.DoReconcileBoots? {
      ReconcileBootsFrame(s, action.rows);
    }
  }

  lemma CancelRunFollows(s: State, e: nat, r: nat)
    requires References(s) && r in s.runs
    ensures RunFollows(s, RequestCancel(s, e), r)
  {
    hide RunFollows, References;
    if e in s.batches && s.batches[e].status in {ADMITTED, QUEUED} {
      var row := s.batches[e].(cancelRequested := true);
      AdvanceRunFollows(s, e, Ended(row, CANCELLED, row.test, Some("OPERATOR_CANCELLED")), Entered(CANCELLED, None), Some("OPERATOR_CANCELLED"), r);
    } else {
      QuietRunFollows(s, RequestCancel(s, e), r);
    }
  }

  /** Step `k` fails run `r` with status `x`: it is not a prerequisite rejection and ends one of the run's executions so. */
  ghost predicate FailsRunAt(tr: Trace, k: int, r: nat, x: Status) {
    && 0 <= k < |tr.steps| && k + 1 < |tr.states| && !tr.steps[k].DoReject?
    && BatchFailed(tr.states[k], tr.states[k + 1], r, x)
  }

  /** No earlier step fails the run. */
  ghost predicate FirstFailure(tr: Trace, k: int, r: nat, x: Status) {
    FailsRunAt(tr, k, r, x) && forall j, y :: j < k ==> !FailsRunAt(tr, j, r, y)
  }

  /** The run is open after `n` steps and none of them failed it, or it took the status of the first that did. */
  ghost predicate RunOutcome(tr: Trace, n: nat, r: nat) {
    && n < |tr.states| && r in tr.states[n].runs
    && (tr.states[n].runs[r].status == ADMITTED ==> forall k, x :: k < n ==> !FailsRunAt(tr, k, r, x))
    && (tr.states[n].runs[r].status != ADMITTED ==> exists k :: k < n && FirstFailure(tr, k, r, tr.states[n].runs[r].status))
  }

  lemma ReferencesOf(s: State)
    requires Inv(s)
    ensures References(s) && UniqueRuns(s) && UniqueBatches(s)
  {
    hide References, UniqueRuns, UniqueBatches, JournalAgrees, ClaimsOnce, EndsOnce, RunsEndOnce, Leases, AdmissionsFollowPasses, ExecutionsAdmitted;
  }

  lemma FailedRunExists(tr: Trace, k: nat, r: nat, x: Status)
    requires Valid(tr) && FailsRunAt(tr, k, r, x)
    ensures r in tr.states[k].runs
  {
    TraceKeeps(tr, k);
    ReferencesOf(tr.states[k]);
    var e :| EndedWith(tr.states[k], tr.states[k + 1], e, r, x);
  }

  /** A run that does not exist yet has no executions to fail it. */
  lemma NoFailureBefore(tr: Trace, n: nat, r: nat, k: int, x: Status)
    requires Valid(tr) && n < |tr.states| && r !in tr.states[n].runs && k < n
    ensures !FailsRunAt(tr, k, r, x)
  {
    if FailsRunAt(tr, k, r, x) {
      TraceLater(tr, k, n);
      FailedRunExists(tr, k, r, x);
    }
  }

  /**
    A run is ended exactly when some step other than a prerequisite rejection ended one of
    its batch executions FAILED, CANCELLED or ORPHANED, and its status is that of the first.
  */
  lemma {:induction false} RunTakesFirstFailure(tr: Trace, n: nat, r: nat)
    requires Valid(tr) && n < |tr.states| && r in tr.states[n].runs
    ensures RunOutcome(tr, n, r)
  {
    if n > 0 {
      var s, step, t := tr.states[n - 1], tr.steps[n - 1], tr.states[n];
      if r !in s.runs {
        forall k, x | k < n - 1
          ensures !FailsRunAt(tr, k, r, x)
        {
          NoFailureBefore(tr, n - 1, r, k, x);
        }
        NewRunIsOpen(tr, n - 1, r);
      } else {
        RunTakesFirstFailure(tr, n - 1, r);
        TraceKeeps(tr, n - 1);
        ReferencesOf(s);
        OutcomeStep(tr, n - 1, r);
      }
    }
  }

  lemma NewRunIsOpen(tr: Trace, k: nat, r: nat)
    requires Valid(tr) && k < |tr.steps| && r !in tr.states[k].runs && r in tr.states[k + 1].runs
    ensures tr.states[k + 1].runs[r].status == ADMITTED
    ensures forall x :: !FailsRunAt(tr, k, r, x)
  {
    NewRunRow(tr.states[k], tr.steps[k], r);
    forall x
      ensures !FailsRunAt(tr, k, r, x)
    {
      if FailsRunAt(tr, k, r, x) { FailedRunExists(tr, k, r, x); }
    }
  }

  /** Runs appear through `create_run` only, and appear open. */
  lemma NewRunRow(s: State, step: Step, r: nat)
    requires r !in s.runs && r in Apply(s, step).runs
    ensures Apply(s, step).runs[r].status == ADMITTED
  {
    hide Reconcile, ApplyBoot;
    match step {
      case DoReconcile(rows) => ReconcileRow(s, rows, r);
      case BootStep(action) => BootFrame(s, action);
      case _ =>
    }
  }

  lemma OutcomeStep(tr: Trace, k: nat, r: nat)
    requires Valid(tr) && k < |tr.steps| && r in tr.states[k].runs && References(tr.states[k]) && RunOutcome(tr, k, r)
    requires tr.states[k].runs[r].status == ADMITTED || Failing(tr.states[k].runs[r].status)
    ensures RunOutcome(tr, k + 1, r)
  {
    hide References;
    var s, step, t := tr.states[k], tr.steps[k], tr.states[k + 1];
    if step.DoReject? {
      assert t.runs == s.runs;
    } else {
      StepRunFollows(s, step, r) by { hide RunFollows; }
      if s.runs[r].status == ADMITTED && t.runs[r].status != ADMITTED {
        assert FirstFailure(tr, k, r, t.runs[r].status);
      }
    }
  }

  // ---------------------------------------------------------------- uniqueness

  predicate OpenFor(row: BatchRow, run: nat, batch: string) {
    row.run == run && row.batch == batch && !Terminal(row.status)
  }

  /**
    At most one run is open; a caller's key names one run and one batch execution; at most
    one execution of a batch is open in a run.
  */
  lemma OneOfEach(tr: Trace, n: nat)
    requires Valid(tr) && n < |tr.states|
    ensures var s := tr.states[n];
      && (forall r, q :: r in s.runs && q in s.runs && !Terminal(s.runs[r].status) && !Terminal(s.runs[q].status) ==> r == q)
      && (forall r, q :: r in s.runs && q in s.runs && s.runs[r].caller == s.runs[q].caller && s.runs[r].key == s.runs[q].key ==> r == q)
      && (forall e, f :: e in s.batches && f in s.batches && s.batches[e].caller == s.batches[f].caller && s.batches[e].key == s.batches[f].key ==> e == f)
      && (forall e, f :: e in s.batches && f in s.batches && OpenFor(s.batches[e], s.batches[f].run, s.batches[f].batch) && !Terminal(s.batches[f].status) ==> e == f)
  {
    TraceKeeps(tr, n);
    ReferencesOf(tr.states[n]);
  }

  predicate RunEndEvent(ev: Event, r: nat, x: Status) {
    ev.run == r && ev.kind.RunEnded? && ev.kind.status == x
  }

  lemma {:induction false} RunStatusHasEvent(events: seq<Event>, r: nat)
    requires RunStatus(events, r).Some?
    ensures exists k :: 0 <= k < |events| && events[k].run == r && AnnouncesRun(events[k].kind) == RunStatus(events, r)
  {
    var n := |events| - 1;
    if events[n].run == r && AnnouncesRun(events[n].kind).Some? {
    } else {
      RunStatusHasEvent(events[..n], r);
      var k :| 0 <= k < n && events[..n][k].run == r && AnnouncesRun(events[..n][k].kind) == RunStatus(events, r);
      assert events[k] == events[..n][k];
    }
  }

  /** An ended run has one RUN_ event, which carries its status; an open run has none. */
  lemma OneRunEnd(tr: Trace, n: nat, r: nat)
    requires Valid(tr) && n < |tr.states| && r in tr.states[n].runs
    ensures var s := tr.states[n];
      Terminal(s.runs[r].status) <==> exists k :: 0 <= k < |s.events| && RunEndEvent(s.events[k], r, s.runs[r].status)
  {
    var s := tr.states[n];
    TraceKeeps(tr, n);
    JournalOf(s);
    EventsOnce(s);
    hide Inv, ClaimsOnce, EndsOnce;
    if Terminal(s.runs[r].status) {
      assert RunStatus(s.events, r) == Some(s.runs[r].status);
      RunStatusHasEvent(s.events, r);
      var k :| 0 <= k < |s.events| && s.events[k].run == r && AnnouncesRun(s.events[k].kind) == Some(s.runs[r].status);
      assert RunEndEvent(s.events[k], r, s.runs[r].status);
    }
  }

  // ---------------------------------------------------------------- prerequisites

  /** A walk along `prerequisite_batches`: every batch on it names the next one. */
  ghost predicate Walk(catalog: map<string, Batch>, path: seq<string>) {
    forall i :: 0 <= i < |path| - 1 ==> path[i] in catalog && path[i + 1] in catalog[path[i]].prerequisites
  }

  predicate AdmitsBatch(s: State, i: int, run: nat, batch: string) {
    0 <= i < |s.events| && s.events[i].run == run && s.events[i].kind.BatchAdmitted? && s.events[i].kind.batch == batch
  }

  lemma PrerequisitesOf(s: State)
    requires Inv(s)
    ensures AdmissionsFollowPasses(s) && ExecutionsAdmitted(s)
  {
    hide References, UniqueRuns, UniqueBatches, JournalAgrees, ClaimsOnce, EndsOnce, RunsEndOnce, Leases, AdmissionsFollowPasses, ExecutionsAdmitted;
  }

  /** Before event `i` the journal admits an execution of `batch` in `run`, and later has it succeed with its tests passed. */
  ghost predicate AdmittedAndPassed(s: State, i: int, run: nat, batch: string) {
    exists k, j :: j < k < i && PassEvent(s, k, run, batch) && AdmitsBatch(s, j, run, batch)
  }

  lemma DirectPrerequisite(s: State, i: int, run: nat, batch: string, p: string)
    requires AdmissionsFollowPasses(s) && ExecutionsAdmitted(s) && AdmitsBatch(s, i, run, batch)
    requires batch in s.catalog && p in s.catalog[batch].prerequisites
    ensures AdmittedAndPassed(s, i, run, p)
  {
    PassBefore(s, i, p);
    var k :| k < i && PassEvent(s, k, run, p);
    AdmittedBeforePass(s, k, run, p);
    var j :| j < k && AdmitsBatch(s, j, run, p);
  }

  lemma PassBefore(s: State, i: int, p: string)
    requires AdmissionsFollowPasses(s) && 0 <= i < |s.events| && Requires(s, s.events[i], p)
    ensures exists k :: k < i && PassEvent(s, k, s.events[i].run, p)
  {
  }

  lemma AdmittedBeforePass(s: State, k: int, run: nat, p: string)
    requires ExecutionsAdmitted(s) && PassEvent(s, k, run, p)
    ensures exists j :: j < k && AdmitsBatch(s, j, run, p)
  {
    var e := s.events[k].exec.value;
    var j :| 0 <= j < k && Admission(s.events[j], e, s.batches[e].run, s.batches[e].batch);
    assert AdmitsBatch(s, j, run, p);
  }

  lemma WalkRest(catalog: map<string, Batch>, path: seq<string>)
    requires |path| >= 2 && Walk(catalog, path)
    ensures Walk(catalog, path[1..]) && path[1..][0] == path[1] && path[1..][|path| - 2] == path[|path| - 1]
  {
  }

  lemma EarlierAdmission(s: State, i: int, run: nat, batch: string) returns (j: int)
    requires AdmittedAndPassed(s, i, run, batch)
    ensures j < i && AdmitsBatch(s, j, run, batch)
  {
    var k, m :| m < k < i && PassEvent(s, k, run, batch) && AdmitsBatch(s, m, run, batch);
    j := m;
  }

  lemma PassedLater(s: State, i: int, j: int, run: nat, batch: string)
    requires AdmittedAndPassed(s, i, run, batch) && i <= j
    ensures AdmittedAndPassed(s, j, run, batch)
  {
  }

  /**
    Prerequisite closure, for any plan: when a batch is admitted, every batch that can be
    reached along prerequisites has a SUCCEEDED/PASSED execution in the same run, whose
    SUCCEEDED event stands earlier in the journal than the admission.
  */
  lemma {:induction false} PrerequisiteClosure(s: State, i: int, run: nat, path: seq<string>)
    requires Inv(s) && |path| >= 2 && Walk(s.catalog, path) && AdmitsBatch(s, i, run, path[0])
    ensures AdmittedAndPassed(s, i, run, path[|path| - 1])
    decreases |path|
  {
    hide Inv, AdmissionsFollowPasses, ExecutionsAdmitted, AdmittedAndPassed;
    PrerequisitesOf(s);
    DirectPrerequisite(s, i, run, path[0], path[1]);
    if |path| > 2 {
      var j := EarlierAdmission(s, i, run, path[1]);
      WalkRest(s.catalog, path);
      PrerequisiteClosure(s, j, run, path[1..]);
      PassedLater(s, j, i, run, path[|path| - 1]);
    }
  }

  /** No batch on a cycle of prerequisites is ever admitted. */
  lemma {:induction false} NoCycleIsAdmitted(s: State, i: int, run: nat, path: seq<string>)
    requires Inv(s) && |path| >= 2 && Walk(s.catalog, path) && path[0] == path[|path| - 1]
    ensures !AdmitsBatch(s, i, run, path[0])
    decreases i
  {
    hide Inv, AdmittedAndPassed;
    if AdmitsBatch(s, i, run, path[0]) {
      PrerequisiteClosure(s, i, run, path);
      var j := EarlierAdmission(s, i, run, path[0]);
      NoCycleIsAdmitted(s, j, run, path);
    }
  }

  /** The same for batch execution rows of a behaviour: each was admitted, after all its transitive prerequisites passed. */
  lemma AdmittedAfterPrerequisites(tr: Trace, n: nat, e: nat, path: seq<string>)
    requires Valid(tr) && n < |tr.states| && e in tr.states[n].batches
    requires |path| >= 2 && Walk(tr.states[n].catalog, path) && path[0] == tr.states[n].batches[e].batch
    ensures var s := tr.states[n]; var row := s.batches[e];
      exists i :: 0 <= i < |s.events| && Admission(s.events[i], e, row.run, row.batch) && AdmittedAndPassed(s, i, row.run, path[|path| - 1])
    ensures var s := tr.states[n];
      exists f :: f in s.batches && s.batches[f].run == s.batches[e].run && s.batches[f].batch == path[|path| - 1]
               && s.batches[f].status == SUCCEEDED && s.batches[f].test == Some(PASSED)
  {
    var s := tr.states[n];
    var row := s.batches[e];
    TraceKeeps(tr, n);
    PrerequisitesOf(s);
    ExecutionHasAdmission(s, e);
    hide Inv, AdmissionsFollowPasses, ExecutionsAdmitted, AdmittedAndPassed;
    var i :| 0 <= i < |s.events| && Admission(s.events[i], e, row.run, row.batch);
    PrerequisiteClosure(s, i, row.run, path);
    PassedBatch(s, i, row.run, path[|path| - 1]);
  }

  lemma PassedBatch(s: State, i: int, run: nat, batch: string)
    requires AdmittedAndPassed(s, i, run, batch)
    ensures exists f :: f in s.batches && s.batches[f].run == run && s.batches[f].batch == batch
                     && s.batches[f].status == SUCCEEDED && s.batches[f].test == Some(PASSED)
  {
    var k, j :| j < k < i && PassEvent(s, k, run, batch) && AdmitsBatch(s, j, run, batch);
    assert PassedRow(s.batches[s.events[k].exec.value], run, batch);
  }

  lemma ExecutionHasAdmission(s: State, e: nat)
    requires ExecutionsAdmitted(s) && e in s.batches
    ensures exists i :: 0 <= i < |s.events| && Admission(s.events[i], e, s.batches[e].run, s.batches[e].batch)
  {
  }

  // ---------------------------------------------------------------- lease columns

  /** A batch execution carries lease columns exactly while it is being worked on. */
  ghost predicate LeaseWhileActive(s: State) {
    forall e :: e in s.batches ==> (s.batches[e].lease.Some? <==> Active(s.batches[e].status))
  }

  /** `transition` into RUNNING, or out of RUNNING or TESTING into an ended status. */
  predicate BypassesQueue(s: State, step: Step) {
    && step.DoTransition? && step.e in s.batches && Allowed(s.batches[step.e].status, step.to)
    && (step.to == RUNNING || (Terminal(step.to) && Active(s.batches[step.e].status)))
  }

  /** The durable queue keeps lease columns and activity in step; the ledger's `transition` breaks it exactly when it bypasses the queue. */
  lemma LeaseColumnsStay(s: State, step: Step)
    requires LeaseWhileActive(s) && Enabled(s, step)
    ensures LeaseWhileActive(Apply(s, step)) <==> !BypassesQueue(s, step)
  {
    hide Reconcile, ApplyBoot, Transition, RequestCancel;
    match step {
      case DoTransition(e, to, test, failure) => TransitionLease(s, e, to, test, failure);
      case DoRequestCancel(e) => CancelLease(s, e);
      case DoReconcile(rows) =>
        var t := Reconcile(s, rows);
        forall e | e in t.batches
          ensures t.batches[e].lease.Some? <==> Active(t.batches[e].status)
        {
          ReconcileRow(s, rows, e);
        }
      case BootStep(action) => BootFrame(s, action);
      case _ =>
    }
  }

  lemma TransitionLease(s: State, e: nat, to: Status, test: Option<TestStatus>, failure: Option<string>)
    requires LeaseWhileActive(s)
    ensures LeaseWhileActive(Transition(s, e, to, test, failure)) <==> !BypassesQueue(s, DoTransition(e, to, test, failure))
  {
    var t := Transition(s, e, to, test, failure);
    if e in s.batches && Allowed(s.batches[e].status, to) {
      assert t.batches[e].status == to && t.batches[e].lease == s.batches[e].lease;
    }
  }

  lemma CancelLease(s: State, e: nat)
    requires LeaseWhileActive(s)
    ensures LeaseWhileActive(RequestCancel(s, e))
  {
  }
}
