/**
  The durable worker: `run_once` between other workers, operators and reconcilers.

  `run_once` is a sequence of queue calls. What the rest of the system does between two of
  them is a parameter: any finite sequence of transactions at every point. The worker's own
  outside world (Nessie, the dbt child, its clock) is a parameter as well.
*/
module Worker {
  import opened Wrappers
  import opened ControlPlane
  import opened ControlPlaneInvariants
  import opened ControlPlaneTheorems
  import opened Database
  import opened QueueStore

  /** What `execute` reports. */
  datatype Report = Report(status: Status, failure: Option<string>)

  datatype World = World(
    early: seq<Step>,                 // transactions of everybody else between reconciliation and claim
    others: nat -> seq<Step>,         // and after the claim, point by point
    branch: Result<string, string>,   // ensure_nessie_branch
    namespaces: Option<string>,       // the error of ensure_nessie_namespaces, if any
    command: Option<string>,          // the error of build_transform_command, if any
    polls: nat,                       // how often the child is polled before it ends
    due: nat -> bool,                 // whether a heartbeat is due at a poll
    report: Option<Report>)           // None: execute raised

  datatype Outcome =
    | Idle             // nothing to claim
    | Worked           // run_once returned True
    | LeaseLostRaised  // finish raised LeaseLost
    | Raised           // execute raised, after the row was orphaned

  /** The claimed row is still this worker's, or has ended. */
  ghost predicate Settled(s: State, e: nat, worker: string, token: nat) {
    Owns(s, e, worker, token) || (e in s.batches && Terminal(s.batches[e].status))
  }

  /** A claimed row never goes back to the queue, whatever anybody does. */
  lemma SettledStays(s: State, step: Step, e: nat, worker: string, token: nat)
    requires Settled(s, e, worker, token) && Enabled(s, step)
    ensures Settled(Apply(s, step), e, worker, token)
  {
    hide Reconcile, ApplyBoot, Transition, RequestCancel;
    match step {
      case DoTransition(x, to, test, failure) => TransitionSettles(s, x, to, test, failure, e, worker, token);
      case DoRequestCancel(x) => CancelSettles(s, x, e, worker, token);
      case DoReconcile(rows) => ReconcileRow(s, rows, e);
      case BootStep(action) => BootSettles(s, action, e, worker, token);
      case _ =>
    }
  }

  lemma TransitionSettles(s: State, x: nat, to: Status, test: Option<TestStatus>, failure: Option<string>, e: nat, worker: string, token: nat)
    requires Settled(s, e, worker, token)
    ensures Settled(Transition(s, x, to, test, failure), e, worker, token)
  {
  }

  lemma CancelSettles(s: State, x: nat, e: nat, worker: string, token: nat)
    requires Settled(s, e, worker, token)
    ensures Settled(RequestCancel(s, x), e, worker, token)
  {
  }

  lemma BootSettles(s: State, action: BootAction, e: nat, worker: string, token: nat)
    requires Settled(s, e, worker, token)
    ensures Settled(ApplyBoot(s, action), e, worker, token)
  {
    if action.DoReconcileBoots? {
      ReconcileBootsFrame(s, action.rows);
    }
  }

  /** A claim of this worker. */
  datatype Mine = Mine(e: nat, worker: string, token: nat)

  /** The claim, if there is one, is settled. */
  ghost predicate Kept(s: State, mine: Option<Mine>) {
    mine.Some? ==> Settled(s, mine.value.e, mine.value.worker, mine.value.token)
  }

  lemma KeptStays(s: State, step: Step, mine: Option<Mine>)
    requires Kept(s, mine) && Enabled(s, step)
    ensures Kept(Apply(s, step), mine)
  {
    hide Settled, Apply;
    if mine.Some? { SettledStays(s, step, mine.value.e, mine.value.worker, mine.value.token); }
  }

  /** The state after `steps`; transactions that are not enabled do not happen. */
  ghost function After(s: State, steps: seq<Step>): State {
    if steps == [] then s
    else
      var s1 := After(s, steps[..|steps| - 1]);
      var step := steps[|steps| - 1];
      if Enabled(s1, step) then Apply(s1, step) else s1
  }

  /** Everybody else takes a turn. */
  method Interleave(db: Tables, steps: seq<Step>, ghost mine: Option<Mine>)
    requires Kept(db.Snapshot(), mine)
    modifies db
    ensures db.Snapshot() == After(old(db.Snapshot()), steps)
    ensures Kept(db.Snapshot(), mine)
    ensures Later(old(db.Snapshot()), db.Snapshot())
  {
    LaterReflexive(db.Snapshot());
    for i := 0 to |steps|
      invariant db.Snapshot() == After(old(db.Snapshot()), steps[..i])
      invariant Kept(db.Snapshot(), mine)
      invariant Later(old(db.Snapshot()), db.Snapshot())
    {
      hide Later, Kept, Apply, Enabled;
      assert steps[..i + 1][..i] == steps[..i];
      if Enabled(db.Snapshot(), steps[i]) {
        ghost var s := db.Snapshot();
        var t := Apply(db.Snapshot(), steps[i]);
        StepLater(s, steps[i]);
        LaterTransitive(old(db.Snapshot()), s, t);
        KeptStays(s, steps[i], mine);
        CatalogStays(s, t);
        db.runs, db.batches, db.boots, db.events, db.clock, db.issued := t.runs, t.batches, t.boots, t.events, t.clock, t.issued;
        assert db.Snapshot() == t;
      }
    }
    assert steps[..|steps|] == steps;
  }

  lemma StepCatalog(s: State, step: Step)
    requires Enabled(s, step)
    ensures Apply(s, step).catalog == s.catalog
  {
    hide Apply, Later;
    StepLater(s, step);
    CatalogStays(s, Apply(s, step));
  }

  lemma CatalogStays(s: State, t: State)
    requires Later(s, t)
    ensures t.catalog == s.catalog
  {
  }

  // ---------------------------------------------------------------- what a turn writes

  function Or(value: Option<string>, default: string): string {
    if value.Some? && value.value != "" then value.value else default
  }

  /**
    How a report of `execute` must show on the row: its own status if it is one of the three it
    may claim and ORPHANED otherwise, the test status that goes with it, and a failure class
    for everything but success: the reported one, or that of the case.
  */
  predicate Answers(report: Report, status: Status, test: Option<TestStatus>, failure: Option<string>) {
    && status == (if report.status in {SUCCEEDED, FAILED, CANCELLED} then report.status else ORPHANED)
    && (test == Some(PASSED) <==> report.status == SUCCEEDED)
    && (test == Some(NOT_RUN) <==> report.status == FAILED)
    && (failure.None? <==> report.status == SUCCEEDED)
    && (failure.Some? ==> ClassFits(report, failure.value))
  }

  predicate ClassFits(report: Report, name: string) {
    if report.failure.Some? && report.failure.value != "" then name == report.failure.value
    else
      && (report.status == FAILED ==> name == "DBT_BUILD_FAILED")
      && (report.status == CANCELLED ==> name == "OPERATOR_CANCELLED")
      && (report.status !in {SUCCEEDED, FAILED, CANCELLED} ==> name == "UNKNOWN_WRITE_STATE_REQUIRES_RECONCILIATION")
  }

  /** Why a worker gives its row up. */
  datatype Cause =
    | BranchUnavailable(error: string)
    | BranchNotRecorded(error: string)
    | NamespaceUnavailable(error: string)
    | CommandRejected(error: string)
    | WorkerException   // execute raised
    | LeaseIsLost       // a heartbeat or a look at the cancel flag found the lease gone

  function Reason(cause: Cause): string {
    match cause
    case BranchUnavailable(error) => "NESSIE_BRANCH_UNAVAILABLE:" + error
    case BranchNotRecorded(error) => "NESSIE_BRANCH_PERSISTENCE_FAILED:" + error
    case NamespaceUnavailable(error) => "NESSIE_NAMESPACE_UNAVAILABLE:" + error
    case CommandRejected(error) => "TRANSFORM_COMMAND_REJECTED:" + error
    case WorkerException => "WORKER_EXCEPTION_UNKNOWN_WRITE_STATE"
    case LeaseIsLost => "WORKER_LEASE_LOST_REQUIRES_RECONCILIATION"
  }

  /** The failure class on the row says what went wrong. */
  predicate Tells(name: string, cause: Cause) {
    && (cause.BranchUnavailable? ==> name == "NESSIE_BRANCH_UNAVAILABLE:" + cause.error)
    && (cause.BranchNotRecorded? ==> name == "NESSIE_BRANCH_PERSISTENCE_FAILED:" + cause.error)
    && (cause.NamespaceUnavailable? ==> name == "NESSIE_NAMESPACE_UNAVAILABLE:" + cause.error)
    && (cause.CommandRejected? ==> name == "TRANSFORM_COMMAND_REJECTED:" + cause.error)
    && (cause.WorkerException? ==> name == "WORKER_EXCEPTION_UNKNOWN_WRITE_STATE")
    && (cause.LeaseIsLost? ==> name == "WORKER_LEASE_LOST_REQUIRES_RECONCILIATION")
  }

  /** The row of `e` ended as `status`, with all that goes with it; the columns a report decides are those of the row. */
  ghost predicate EndedAs(s: State, t: State, e: nat, status: Status) {
    && e in s.batches && e in t.batches && t.batches[e].status == status
    && RowEnds(s, t, e, s.batches[e].(status := status, test := t.batches[e].test, failure := t.batches[e].failure, lease := None),
               t.batches[e].failure, t.batches[e].failure)
  }

  // ---------------------------------------------------------------- polling

  datatype Word = GoOn | Stop | Lost

  /** A renewal: the states before and after it. */
  datatype Renewal = Renewal(before: State, after: State)

  /** The lease was live, and then ran for `lease` more seconds. */
  ghost predicate Renews(r: Renewal, e: nat, worker: string, token: nat, lease: int) {
    && Holds(r.before, e, worker, token)
    && e in r.after.batches && r.after.clock == r.before.clock
    && r.after.batches[e] == r.before.batches[e].(lease := Some(Lease(worker, token, r.before.clock + lease)))
  }

  /** The `cancel` closure at one poll: renew when due, then look at the cancel flag. */
  method PollOnce(q: DurableQueue, e: nat, worker: string, token: nat, lease: int, world: World, i: nat)
    returns (word: Word, ghost renewal: Option<Renewal>, ghost last: State)
    requires Settled(q.db.Snapshot(), e, worker, token)
    modifies q.db
    ensures Settled(q.db.Snapshot(), e, worker, token) && Later(old(q.db.Snapshot()), q.db.Snapshot())
    ensures word.Lost? ==> !Holds(last, e, worker, token)
    ensures word.Stop? ==> Owns(last, e, worker, token) && last.batches[e].cancelRequested
    ensures word.GoOn? ==> Owns(last, e, worker, token) && !last.batches[e].cancelRequested
    ensures word.GoOn? ==> (world.due(i) <==> renewal.Some?)
    ensures renewal.Some? ==> Renews(renewal.value, e, worker, token, lease)
  {
    hide Settled, Apply, Heartbeat, Later;
    renewal := None;
    Interleave(q.db, world.others(3 + 2 * i), Some(Mine(e, worker, token)));
    last := q.db.Snapshot();
    if world.due(i) {
      ApplyHeartbeat(q.db.Snapshot(), e, worker, token, lease);
      SettledStays(q.db.Snapshot(), DoHeartbeat(e, worker, token, lease), e, worker, token);
      StepLater(q.db.Snapshot(), DoHeartbeat(e, worker, token, lease));
      var renewed := q.Heartbeat(e, worker, token, lease);
      LaterTransitive(old(q.db.Snapshot()), last, q.db.Snapshot());
      if !renewed { return Lost, None, last; }
      renewal := Some(Renewal(last, q.db.Snapshot()));
    }
    ghost var mid := q.db.Snapshot();
    Interleave(q.db, world.others(4 + 2 * i), Some(Mine(e, worker, token)));
    LaterTransitive(old(q.db.Snapshot()), mid, q.db.Snapshot());
    last := q.db.Snapshot();
    var cancelled := q.CancelRequestedFor(e, worker, token);
    word := if cancelled.Failure? then Lost else if cancelled.value then Stop else GoOn;
  }

  /** How a stretch of polling went: the states in which the lease was renewed and the cancel flag looked at. */
  datatype Watch = Watch(renewals: map<nat, Renewal>, looks: seq<State>, last: State)

  /** Every due poll renewed the lease, which was live at that moment, and no other poll did. */
  ghost predicate RenewedWhenDue(w: Watch, due: nat -> bool, e: nat, worker: string, token: nat, lease: int) {
    && (forall i :: 0 <= i < |w.looks| ==> (due(i) <==> i in w.renewals))
    && (forall i :: i in w.renewals ==> i < |w.looks| && Renews(w.renewals[i], e, worker, token, lease))
  }

  /** No look let the child run on with its row gone or its cancellation requested. */
  ghost predicate LooksClear(w: Watch, e: nat, worker: string, token: nat) {
    forall i :: 0 <= i < |w.looks| ==> Owns(w.looks[i], e, worker, token) && !w.looks[i].batches[e].cancelRequested
  }

  ghost predicate Watched(w: Watch, world: World, e: nat, worker: string, token: nat, lease: int) {
    RenewedWhenDue(w, world.due, e, worker, token, lease) && LooksClear(w, e, worker, token)
  }

  /** Polling went on until the child ended or a look found the cancel request. */
  ghost predicate Undisturbed(w: Watch, world: World, e: nat, worker: string, token: nat) {
    |w.looks| == world.polls || (Owns(w.last, e, worker, token) && w.last.batches[e].cancelRequested)
  }

  /**
    All polls. The lease is reported lost only in a state in which it is not live, polling
    stops early only for that or for a cancel request, and until then every due poll renewed
    a live lease for the full time.
  */
  method Poll(q: DurableQueue, e: nat, worker: string, token: nat, lease: int, world: World) returns (lost: bool, ghost watch: Watch)
    requires Settled(q.db.Snapshot(), e, worker, token)
    modifies q.db
    ensures Settled(q.db.Snapshot(), e, worker, token) && Later(old(q.db.Snapshot()), q.db.Snapshot())
    ensures lost ==> !Holds(watch.last, e, worker, token) && |watch.looks| < world.polls
    ensures !lost ==> Undisturbed(watch, world, e, worker, token)
    ensures Watched(watch, world, e, worker, token, lease) && |watch.looks| <= world.polls
  {
    hide Settled, Apply, Holds, Owns, Later, Renews;
    lost := false;
    watch := Watch(map[], [], q.db.Snapshot());
    LaterReflexive(q.db.Snapshot());
    for i := 0 to world.polls
      invariant Settled(q.db.Snapshot(), e, worker, token) && Later(old(q.db.Snapshot()), q.db.Snapshot())
      invariant |watch.looks| == i && RenewedWhenDue(watch, world.due, e, worker, token, lease) && LooksClear(watch, e, worker, token)
    {
      var word;
      ghost var renewal, last;
      ghost var before := q.db.Snapshot();
      word, renewal, last := PollOnce(q, e, worker, token, lease, world, i);
      LaterTransitive(old(q.db.Snapshot()), before, q.db.Snapshot());
      watch := watch.(last := last);
      if !word.GoOn? { return word.Lost?, watch; }
      watch := Watch(if renewal.Some? then watch.renewals[i := renewal.value] else watch.renewals, watch.looks + [last], last);
    }
  }

  lemma ApplyHeartbeat(s: State, e: nat, worker: string, token: nat, lease: int)
    ensures Enabled(s, DoHeartbeat(e, worker, token, lease))
    ensures Apply(s, DoHeartbeat(e, worker, token, lease)) == Heartbeat(s, e, worker, token, lease)
  {
  }

  // ---------------------------------------------------------------- before the child

  /** The cause is the first thing that went wrong: `seen` is the state in which the branch or the lease was refused. */
  ghost predicate Explains(cause: Cause, world: World, seen: State, e: nat, worker: string, token: nat) {
    match cause
    case BranchUnavailable(error) => world.branch == Failure(error)
    case BranchNotRecorded(error) =>
      && world.branch.Success? && BranchRefused(seen, world.branch.value, error, e, worker, token)
    case NamespaceUnavailable(error) => world.branch.Success? && world.namespaces == Some(error)
    case CommandRejected(error) => world.branch.Success? && world.namespaces.None? && world.command == Some(error)
    case WorkerException => Starts(world) && world.report.None?
    case LeaseIsLost => Starts(world) && world.report.Some? && !Holds(seen, e, worker, token)
  }

  /** The queue refuses the branch: the owned row has another one, or the lease is gone. */
  ghost predicate BranchRefused(s: State, branch: string, error: string, e: nat, worker: string, token: nat) {
    if Owns(s, e, worker, token) && s.batches[e].branch.Some? && s.batches[e].branch.value != branch then error == "DurableQueueError"
    else !Holds(s, e, worker, token) && error == "LeaseLost"
  }

  /** Nothing outside the queue keeps the child from being started. */
  predicate Starts(world: World) {
    world.branch.Success? && world.namespaces.None? && world.command.None?
  }

  /** The run's branch stands on the row, under a live lease. */
  ghost predicate Prepared(s: State, world: World, e: nat, worker: string, token: nat) {
    world.branch.Success? && Holds(s, e, worker, token) && s.batches[e].branch == Some(world.branch.value)
  }

  /** Everything before the child starts; the reason to give up, if there is one. */
  method Prepare(q: DurableQueue, e: nat, worker: string, token: nat, world: World) returns (cause: Option<Cause>, ghost seen: State)
    requires Settled(q.db.Snapshot(), e, worker, token)
    modifies q.db
    ensures Settled(q.db.Snapshot(), e, worker, token) && Later(old(q.db.Snapshot()), q.db.Snapshot())
    ensures cause.None? ==> Starts(world) && Prepared(seen, world, e, worker, token)
    ensures cause.Some? ==> Explains(cause.value, world, seen, e, worker, token) && !cause.value.WorkerException? && !cause.value.LeaseIsLost?
  {
    hide Settled, Apply, Later, RecordBranch;
    Interleave(q.db, world.others(0), Some(Mine(e, worker, token)));
    seen := q.db.Snapshot();
    if world.branch.Failure? { return Some(BranchUnavailable(world.branch.error)), seen; }
    ApplyBranch(q.db.Snapshot(), e, worker, token, world.branch.value);
    SettledStays(q.db.Snapshot(), DoRecordBranch(e, worker, token, world.branch.value), e, worker, token);
    StepLater(q.db.Snapshot(), DoRecordBranch(e, worker, token, world.branch.value));
    var recorded := q.RecordBranch(e, worker, token, world.branch.value);
    ghost var mid := q.db.Snapshot();
    LaterTransitive(old(q.db.Snapshot()), seen, mid);
    Interleave(q.db, world.others(1), Some(Mine(e, worker, token)));
    LaterTransitive(old(q.db.Snapshot()), mid, q.db.Snapshot());
    if recorded.Failure? {
      return Some(BranchNotRecorded(if recorded.error == BranchConflict then "DurableQueueError" else "LeaseLost")), seen;
    }
    if world.namespaces.Some? { return Some(NamespaceUnavailable(world.namespaces.value)), seen; }
    if world.command.Some? { return Some(CommandRejected(world.command.value)), seen; }
    return None, mid;
  }

  lemma ApplyBranch(s: State, e: nat, worker: string, token: nat, branch: string)
    ensures Enabled(s, DoRecordBranch(e, worker, token, branch))
    ensures Apply(s, DoRecordBranch(e, worker, token, branch)) == RecordBranch(s, e, worker, token, branch)
  {
  }

  // ---------------------------------------------------------------- the last call

  lemma RowEnded(s: State, t: State, e: nat, row: BatchRow, noted: Option<string>, failure: Option<string>)
    requires RowEnds(s, t, e, row, noted, failure)
    ensures e in t.batches && t.batches[e] == row
  {
  }

  /** Orphaning a settled row leaves it ended; a row that was still owned says why. */
  method GiveUp(q: DurableQueue, e: nat, worker: string, token: nat, cause: Cause)
    requires Settled(q.db.Snapshot(), e, worker, token)
    modifies q.db
    ensures Later(old(q.db.Snapshot()), q.db.Snapshot())
    ensures e in q.db.batches && Terminal(q.db.batches[e].status)
    ensures GivenUp(cause, old(q.db.Snapshot()), q.db.Snapshot(), e, worker, token)
  {
    assert Tells(Reason(cause), cause);
    hide Reason, Tells, Apply, OrphanIfOwned, Later, Enabled, RowEnds;
    ApplyOrphan(q.db.Snapshot(), e, worker, token, Reason(cause));
    StepLater(q.db.Snapshot(), DoOrphan(e, worker, token, Reason(cause)));
    ghost var s := q.db.Snapshot();
    var done := q.OrphanIfOwned(e, worker, token, Reason(cause));
    if done {
      RowEnded(s, q.db.Snapshot(), e, s.batches[e].(status := ORPHANED, failure := Some(Reason(cause)), lease := None),
               Some(Reason(cause)), Some(Reason(cause)));
    }
  }

  lemma ApplyOrphan(s: State, e: nat, worker: string, token: nat, reason: string)
    ensures Enabled(s, DoOrphan(e, worker, token, reason))
    ensures Apply(s, DoOrphan(e, worker, token, reason)) == OrphanIfOwned(s, e, worker, token, reason)
  {
  }

  /** An owned row ended ORPHANED for this cause with its tests as they were; any other row is left alone. */
  ghost predicate GivenUp(cause: Cause, s: State, t: State, e: nat, worker: string, token: nat) {
    if Owns(s, e, worker, token) then
      && EndedAs(s, t, e, ORPHANED) && t.batches[e].test == s.batches[e].test
      && t.batches[e].failure.Some? && Tells(t.batches[e].failure.value, cause)
    else
      t == s
  }

  /** The last call of a turn: `finish`, which raises when the lease is gone. */
  method Conclude(q: DurableQueue, e: nat, worker: string, token: nat, report: Report) returns (outcome: Outcome)
    requires Settled(q.db.Snapshot(), e, worker, token)
    modifies q.db
    ensures outcome.Worked? || outcome.LeaseLostRaised?
    ensures outcome.Worked? <==> Holds(old(q.db.Snapshot()), e, worker, token)
    ensures e in q.db.batches && (outcome.Worked? ==> Terminal(q.db.batches[e].status))
    ensures outcome.LeaseLostRaised? ==> Terminal(q.db.batches[e].status) || Expired(q.db.Snapshot(), e)
    ensures outcome.Worked? ==>
              EndedAs(old(q.db.Snapshot()), q.db.Snapshot(), e, q.db.batches[e].status) &&
              Answers(report, q.db.batches[e].status, q.db.batches[e].test, q.db.batches[e].failure)
    ensures outcome.LeaseLostRaised? ==> q.db.Snapshot() == old(q.db.Snapshot())
    ensures Later(old(q.db.Snapshot()), q.db.Snapshot())
  {
    var status, test, failure;
    if report.status == SUCCEEDED {
      status, test, failure := SUCCEEDED, Some(PASSED), None;
    } else if report.status == FAILED {
      status, test, failure := FAILED, Some(NOT_RUN), Some(Or(report.failure, "DBT_BUILD_FAILED"));
    } else if report.status == CANCELLED {
      status, test, failure := CANCELLED, None, Some(Or(report.failure, "OPERATOR_CANCELLED"));
    } else {
      status, test, failure := ORPHANED, None, Some(Or(report.failure, "UNKNOWN_WRITE_STATE_REQUIRES_RECONCILIATION"));
    }
    assert Answers(report, status, test, failure) && Terminal(status);
    hide Or, Answers, Apply, Finish, Later, Enabled, RowEnds;
    ApplyFinish(q.db.Snapshot(), e, worker, token, status, test, failure);
    StepLater(q.db.Snapshot(), DoFinish(e, worker, token, status, test, failure));
    ghost var s := q.db.Snapshot();
    var out := q.Finish(e, worker, token, status, test, failure);
    if out.Success? {
      RowEnded(s, q.db.Snapshot(), e, s.batches[e].(status := status, test := test, failure := failure, lease := None), failure, failure);
    }
    return if out.Success? then Worked else LeaseLostRaised;
  }

  lemma ApplyFinish(s: State, e: nat, worker: string, token: nat, status: Status, test: Option<TestStatus>, failure: Option<string>)
    ensures Enabled(s, DoFinish(e, worker, token, status, test, failure))
    ensures Apply(s, DoFinish(e, worker, token, status, test, failure)) == Finish(s, e, worker, token, status, test, failure)
  {
  }

  // ---------------------------------------------------------------- the turn

  /** A token that no claim has used. */
  lemma {:induction false} FreshToken(issued: set<nat>) returns (token: nat)
    ensures forall t :: t in issued ==> t < token
    decreases |issued|
  {
    if issued == {} {
      token := 0;
    } else {
      var x :| x in issued;
      var y := FreshToken(issued - {x});
      token := if x < y then y else x + 1;
      forall t | t in issued ensures t < token {
        if t != x { assert t in issued - {x}; }
      }
    }
  }

  datatype Turn = Turn(outcome: Outcome, claimed: Option<nat>, token: nat, cause: Option<Cause>)

  /** The states a turn went through: before and after the claim, with the branch recorded, at the refusal of branch or lease, before the last call. */
  datatype Course = Course(before: State, claim: State, prepared: State, watch: Watch, seen: State, last: State)

  /**
    One worker turn, with everybody else's transactions between all of its calls, also between
    reconciliation and claim. Rows whose lease has expired end ORPHANED; the first waiting row
    is claimed and never returns to the queue. The last call is either the orphaning for the
    first thing that went wrong, whose class then stands on the row if it was still owned, or
    the answer to what `execute` reported. A turn that returns has its row ended; if `finish`
    raises, the row has ended or its lease has expired, so that the next reconciliation orphans it.
  */
  method RunOnce(q: DurableQueue, worker: string, lease: int, world: World) returns (turn: Turn, ghost course: Course)
    modifies q.db
    ensures ExpiredEnd(old(q.db.Snapshot()), q.db.Snapshot())
    ensures turn.outcome.Idle? <==> turn.claimed.None?
    ensures turn.claimed.None? ==> q.db.Snapshot() == course.before && NobodyWaits(course.before)
    ensures turn.claimed.Some? ==> ClaimedFirst(course, turn.claimed.value, worker, turn.token, lease)
    ensures turn.claimed.Some? ==> turn.claimed.value in q.db.batches && !Claimable(q.db.batches[turn.claimed.value])
    ensures turn.outcome.Worked? || turn.outcome.Raised? ==> Terminal(q.db.batches[turn.claimed.value].status)
    ensures turn.outcome.LeaseLostRaised? ==>
              Terminal(q.db.batches[turn.claimed.value].status) || Expired(q.db.Snapshot(), turn.claimed.value)
    ensures turn.claimed.Some? ==> Concluded(turn, course, world, worker, lease, q.db.Snapshot())
    ensures turn.claimed.Some? ==> SuccessIsReported(turn.claimed.value, world, course.last, q.db.Snapshot())
  {
    hide ExpiredEnd, Apply, Settled, Later, Concluded, SuccessIsReported;
    Sweep(q, world);
    ghost var unused := FreshToken(q.db.issued);
    assert unused !in q.db.issued;
    var token: nat :| token !in q.db.issued;
    ghost var before := q.db.Snapshot();
    course := Course(before, before, before, Watch(map[], [], before), before, before);
    var claimed := q.Claim(worker, token, lease);
    if claimed.None? { return Turn(Idle, None, token, None), course; }
    ghost var claim := q.db.Snapshot();
    ClaimLater(before, claimed.value, worker, token, lease);
    assert ClaimedFirst(course.(claim := claim), claimed.value, worker, token, lease);
    hide ControlPlane.Claim, FirstQueued, Owns;
    turn, course := Attempt(q, claimed.value, worker, token, lease, world, before);
    LaterTransitive(before, claim, q.db.Snapshot());
    EndedStayEnded(old(q.db.Snapshot()), before, q.db.Snapshot());
    ReportedOnly(turn, course, world, worker, lease, q.db.Snapshot());
  }

  /** Reconciliation, and what others do before the claim. */
  method Sweep(q: DurableQueue, world: World)
    modifies q.db
    ensures ExpiredEnd(old(q.db.Snapshot()), q.db.Snapshot())
  {
    ApplyReconcile(q.db.Snapshot());
    var ids := q.ReconcileExpired();
    hide Reconcile, RowsOrphaned, RunsOrphaned, OrphansJournaled, Expired, Apply, Later;
    ghost var swept := q.db.Snapshot();
    Interleave(q.db, world.early, None);
    SweptEnd(old(q.db.Snapshot()), swept, ids, q.db.Snapshot());
  }

  /** Rows that had expired at `s` are ORPHANED at `t`. */
  ghost predicate ExpiredEnd(s: State, t: State) {
    forall e :: Expired(s, e) ==>
      e in t.batches && t.batches[e].status == ORPHANED && t.batches[e].failure == Some("WORKER_LEASE_EXPIRED_REQUIRES_RECONCILIATION")
  }

  ghost predicate NobodyWaits(s: State) {
    forall e :: e in s.batches ==> s.batches[e].status != QUEUED || s.batches[e].cancelRequested
  }

  /** The claim took the first waiting row for `lease` seconds. */
  ghost predicate ClaimedFirst(course: Course, e: nat, worker: string, token: nat, lease: int) {
    && FirstQueued(course.before.batches, e) && e in course.claim.batches
    && course.claim.batches[e] == course.before.batches[e].(status := RUNNING, lease := Some(Lease(worker, token, course.before.clock + lease)))
  }

  /** A row that succeeds by the last call was reported SUCCEEDED by `execute`. */
  ghost predicate SuccessIsReported(e: nat, world: World, last: State, now: State) {
    e in last.batches && e in now.batches && last.batches[e].status != SUCCEEDED && now.batches[e].status == SUCCEEDED ==>
      world.report.Some? && world.report.value.status == SUCCEEDED
  }

  /** The last call of a turn and what it did to `course.last`. */
  ghost predicate Concluded(turn: Turn, course: Course, world: World, worker: string, lease: int, now: State)
    requires turn.claimed.Some?
  {
    var e := turn.claimed.value;
    && Watched(course.watch, world, e, worker, turn.token, lease)
    && (turn.cause.None? || turn.cause.value.WorkerException? || turn.cause.value.LeaseIsLost? ==>
          Prepared(course.prepared, world, e, worker, turn.token))
    && if turn.cause.Some? then
         && Explains(turn.cause.value, world, course.seen, e, worker, turn.token)
         && (turn.outcome.Raised? <==> turn.cause.value.WorkerException?) && !turn.outcome.LeaseLostRaised?
         && GivenUp(turn.cause.value, course.last, now, e, worker, turn.token)
       else
         && Starts(world) && world.report.Some? && Undisturbed(course.watch, world, e, worker, turn.token)
         && (turn.outcome.Worked? <==> Holds(course.last, e, worker, turn.token)) && !turn.outcome.Raised?
         && Answered(turn.outcome, world.report.value, course.last, now, e)
  }

  /** `finish` wrote the answer to the report, or raised and wrote nothing. */
  ghost predicate Answered(outcome: Outcome, report: Report, last: State, now: State, e: nat) {
    if outcome.Worked? then
      && e in now.batches && EndedAs(last, now, e, now.batches[e].status)
      && Answers(report, now.batches[e].status, now.batches[e].test, now.batches[e].failure)
    else
      now == last
  }

  lemma ApplyReconcile(s: State)
    ensures forall rows :: Later(s, Reconcile(s, rows))
  {
    forall rows ensures Later(s, Reconcile(s, rows)) { ReconcileLater(s, rows); }
  }

  lemma SweptEnd(s: State, swept: State, ids: seq<nat>, t: State)
    requires RowsOrphaned(s, swept, ids) && (forall e :: Expired(s, e) ==> e in ids) && Later(swept, t)
    ensures ExpiredEnd(s, t)
  {
  }

  lemma EndedStayEnded(s: State, t: State, u: State)
    requires ExpiredEnd(s, t) && Later(t, u)
    ensures ExpiredEnd(s, u)
  {
  }

  lemma ReportedOnly(turn: Turn, course: Course, world: World, worker: string, lease: int, now: State)
    requires turn.claimed.Some? && Concluded(turn, course, world, worker, lease, now)
    ensures SuccessIsReported(turn.claimed.value, world, course.last, now)
  {
    hide Explains, Watched, Undisturbed, Holds, Prepared;
  }

  /** The claimed row was given up before or after the child ran. */
  lemma ConcludedByGivingUp(turn: Turn, course: Course, world: World, worker: string, lease: int, now: State)
    requires turn.claimed.Some? && turn.cause.Some? && !turn.outcome.LeaseLostRaised?
    requires turn.outcome.Raised? <==> turn.cause.value.WorkerException?
    requires Watched(course.watch, world, turn.claimed.value, worker, turn.token, lease)
    requires Explains(turn.cause.value, world, course.seen, turn.claimed.value, worker, turn.token)
    requires GivenUp(turn.cause.value, course.last, now, turn.claimed.value, worker, turn.token)
    requires turn.cause.value.WorkerException? || turn.cause.value.LeaseIsLost? ==>
               Prepared(course.prepared, world, turn.claimed.value, worker, turn.token)
    ensures Concluded(turn, course, world, worker, lease, now)
  {
    hide Explains, GivenUp, Watched, Prepared;
  }

  lemma ConcludedByFinishing(turn: Turn, course: Course, world: World, worker: string, lease: int, now: State)
    requires turn.claimed.Some? && turn.cause.None? && !turn.outcome.Raised? && Starts(world) && world.report.Some?
    requires Watched(course.watch, world, turn.claimed.value, worker, turn.token, lease)
    requires Undisturbed(course.watch, world, turn.claimed.value, worker, turn.token)
    requires turn.outcome.Worked? <==> Holds(course.last, turn.claimed.value, worker, turn.token)
    requires Answered(turn.outcome, world.report.value, course.last, now, turn.claimed.value)
    requires Prepared(course.prepared, world, turn.claimed.value, worker, turn.token)
    ensures Concluded(turn, course, world, worker, lease, now)
  {
    hide Holds, Answered, Watched, Undisturbed, Prepared;
  }

  method Attempt(q: DurableQueue, e: nat, worker: string, token: nat, lease: int, world: World, ghost before: State)
    returns (turn: Turn, ghost course: Course)
    requires Owns(q.db.Snapshot(), e, worker, token)
    modifies q.db
    ensures !turn.outcome.Idle? && turn.claimed == Some(e) && turn.token == token && e in q.db.batches
    ensures course.before == before && course.claim == old(q.db.Snapshot())
    ensures turn.outcome.Worked? || turn.outcome.Raised? ==> Terminal(q.db.batches[e].status)
    ensures turn.outcome.LeaseLostRaised? ==> Terminal(q.db.batches[e].status) || Expired(q.db.Snapshot(), e)
    ensures Concluded(turn, course, world, worker, lease, q.db.Snapshot())
    ensures Later(old(q.db.Snapshot()), q.db.Snapshot())
  {
    assert Settled(q.db.Snapshot(), e, worker, token);
    hide Apply, Settled, GivenUp, Owns, Holds, Later, Explains, Prepared, Concluded, Expired;
    ghost var claim := q.db.Snapshot();
    var cause;
    ghost var seen;
    cause, seen := Prepare(q, e, worker, token, world);
    ghost var last := q.db.Snapshot();
    if cause.Some? {
      course := Course(before, claim, claim, Watch(map[], [], claim), seen, last);
      GiveUp(q, e, worker, token, cause.value);
      turn := Turn(Worked, Some(e), token, cause);
      ConcludedByGivingUp(turn, course, world, worker, lease, q.db.Snapshot());
    } else {
      turn, course := Supervise(q, e, worker, token, lease, world, before, claim, seen);
    }
    LaterTransitive(claim, last, q.db.Snapshot());
  }

  /** The child and what follows it. */
  method Supervise(q: DurableQueue, e: nat, worker: string, token: nat, lease: int, world: World, ghost before: State, ghost claim: State, ghost prepared: State)
    returns (turn: Turn, ghost course: Course)
    requires Settled(q.db.Snapshot(), e, worker, token) && Starts(world) && Prepared(prepared, world, e, worker, token)
    modifies q.db
    ensures !turn.outcome.Idle? && turn.claimed == Some(e) && turn.token == token && e in q.db.batches
    ensures course.before == before && course.claim == claim
    ensures turn.outcome.Worked? || turn.outcome.Raised? ==> Terminal(q.db.batches[e].status)
    ensures turn.outcome.LeaseLostRaised? ==> Terminal(q.db.batches[e].status) || Expired(q.db.Snapshot(), e)
    ensures Concluded(turn, course, world, worker, lease, q.db.Snapshot())
    ensures Later(old(q.db.Snapshot()), q.db.Snapshot())
  {
    hide Apply, Settled, GivenUp, Owns, Holds, Later, Watched, Undisturbed, Prepared, Concluded, Expired, EndedAs, Answers;
    var lost;
    ghost var watch;
    lost, watch := Poll(q, e, worker, token, lease, world);
    ghost var polled := q.db.Snapshot();
    Interleave(q.db, world.others(2), Some(Mine(e, worker, token)));
    ghost var last := q.db.Snapshot();
    LaterTransitive(old(q.db.Snapshot()), polled, last);
    course := Course(before, claim, prepared, watch, watch.last, last);
    if world.report.None? || lost {
      var cause := if world.report.None? then WorkerException else LeaseIsLost;
      GiveUp(q, e, worker, token, cause);
      turn := Turn(if world.report.None? then Raised else Worked, Some(e), token, Some(cause));
      ConcludedByGivingUp(turn, course, world, worker, lease, q.db.Snapshot());
    } else {
      var outcome := Conclude(q, e, worker, token, world.report.value);
      turn := Turn(outcome, Some(e), token, None);
      ConcludedByFinishing(turn, course, world, worker, lease, q.db.Snapshot());
    }
    LaterTransitive(old(q.db.Snapshot()), last, q.db.Snapshot());
  }
}
