/**
  `run_once_protected_bootstrap`: one claimed bootstrap between other workers and operators.

  There is no reconciliation at the start of this turn, and `finish_protected_bootstrap` does
  not look at the expiry, so only a reconciliation or a finish with its own token can take the
  row from the worker.
*/
module BootstrapWorker {
  import opened Wrappers
  import opened ControlPlane
  import opened Database
  import opened QueueStore
  import opened Bootstraps
  import Worker

  datatype World = World(
    others: nat -> seq<Step>,             // transactions of everybody else, point by point
    command: Option<string>,              // the error of build_protected_bootstrap_command, if any
    polls: nat,                           // how often the child is polled before it ends
    due: nat -> bool,                     // whether a heartbeat is due at a poll
    report: Option<Worker.Report>)        // None: execute raised

  datatype Outcome = Idle | Returned | LeaseLostRaised | Raised

  /** What the last call writes, and whether a lost lease is swallowed there. */
  datatype Ending = Ending(status: Status, publication: Publication, failure: Option<string>, swallows: bool)

  function Shortened(s: string): string {
    if |s| > 128 then s[..128] else s
  }

  function Rejection(error: string): Ending {
    Ending(FAILED, NOT_STARTED, Some(Shortened("BOOTSTRAP_COMMAND_REJECTED:" + error)), true)
  }

  const EXCEPTION: Ending :=
    Ending(ORPHANED, RECONCILIATION_REQUIRED, Some("WORKER_EXCEPTION_UNKNOWN_WRITE_STATE"), true)

  const LOST: Ending :=
    Ending(ORPHANED, RECONCILIATION_REQUIRED, Some("WORKER_LEASE_LOST_REQUIRES_RECONCILIATION"), true)

  function Verdict(report: Worker.Report): Ending {
    match report.status
    case SUCCEEDED => Ending(SUCCEEDED, PUBLISHED, None, false)
    case FAILED => Ending(FAILED, NOT_STARTED, Some(Worker.Or(report.failure, "BOOTSTRAP_FAILED")), false)
    case CANCELLED => Ending(CANCELLED, NOT_STARTED, Some(Worker.Or(report.failure, "OPERATOR_CANCELLED")), false)
    case _ => Ending(ORPHANED, RECONCILIATION_REQUIRED,
                     Some(Worker.Or(report.failure, "UNKNOWN_WRITE_STATE_REQUIRES_RECONCILIATION")), false)
  }

  /**
    How a report of `execute` must be written: its own status if it is one of the three it may
    claim and ORPHANED otherwise; published exactly on success, nothing started exactly on a
    clean failure or a cancellation, and reconciliation required exactly when the write state
    is unknown; and a failure class for everything but success.
  */
  predicate BootAnswers(report: Worker.Report, ending: Ending) {
    && ending.status == (if report.status in {SUCCEEDED, FAILED, CANCELLED} then report.status else ORPHANED)
    && (ending.publication == PUBLISHED <==> report.status == SUCCEEDED)
    && (ending.publication == NOT_STARTED <==> report.status in {FAILED, CANCELLED})
    && (ending.publication == RECONCILIATION_REQUIRED <==> report.status !in {SUCCEEDED, FAILED, CANCELLED})
    && (ending.failure.None? <==> report.status == SUCCEEDED)
    && (ending.failure.Some? ==> ClassFits(report, ending.failure.value))
    && !ending.swallows
  }

  predicate ClassFits(report: Worker.Report, name: string) {
    if report.failure.Some? && report.failure.value != "" then name == report.failure.value
    else
      && (report.status == FAILED ==> name == "BOOTSTRAP_FAILED")
      && (report.status == CANCELLED ==> name == "OPERATOR_CANCELLED")
      && (report.status !in {SUCCEEDED, FAILED, CANCELLED} ==> name == "UNKNOWN_WRITE_STATE_REQUIRES_RECONCILIATION")
  }

  /** A refused command: nothing was started; the class names the error in at most 128 characters. */
  predicate Rejects(error: string, ending: Ending) {
    && ending.status == FAILED && ending.publication == NOT_STARTED && ending.swallows
    && ending.failure.Some? && |ending.failure.value| <= 128 && ending.failure.value <= "BOOTSTRAP_COMMAND_REJECTED:" + error
    && (|"BOOTSTRAP_COMMAND_REJECTED:" + error| > 128 ==> |ending.failure.value| == 128)
    && (|"BOOTSTRAP_COMMAND_REJECTED:" + error| <= 128 ==> ending.failure.value == "BOOTSTRAP_COMMAND_REJECTED:" + error)
  }

  /** An unknown write state with this class, whose last call may fail unnoticed. */
  predicate Unknown(name: string, ending: Ending) {
    ending.status == ORPHANED && ending.publication == RECONCILIATION_REQUIRED && ending.failure == Some(name) && ending.swallows
  }

  // ---------------------------------------------------------------- who can take the row away

  /** The step ends this worker's hold: reconciliation of its expired row, or a finish in its name. */
  ghost predicate Dispossesses(s: State, step: Step, b: nat, worker: string, token: nat) {
    step.BootStep? &&
    match step.boot
    case DoReconcileBoots(rows) => b in rows && ExpiredBoot(s, b)
    case DoFinishBoot(x, w, t, status, _, _) => x == b && w == worker && t == token && Terminal(status)
    case _ => false
  }

  /** A step takes an owned row from its worker exactly if it is one of these two. */
  lemma OwnedUnlessDispossessed(s: State, step: Step, b: nat, worker: string, token: nat)
    requires OwnsBoot(s, b, worker, token) && Enabled(s, step)
    requires token in s.issued
    ensures OwnsBoot(Apply(s, step), b, worker, token) <==> !Dispossesses(s, step, b, worker, token)
  {
    if !step.BootStep? {
      OtherStepFrame(s, step);
    } else if step.boot.DoReconcileBoots? {
      ReconciledRow(s, step.boot.rows, b);
    } else {
      hide ReconcileBoots, Passed;
    }
  }

  /** The step is neither a reconciliation of bootstraps nor a finish in this worker's name. */
  predicate Harmless(step: Step, b: nat, worker: string, token: nat) {
    step.BootStep? ==>
      !step.boot.DoReconcileBoots?
      && !(step.boot.DoFinishBoot? && step.boot.b == b && step.boot.worker == worker && step.boot.token == token)
  }

  predicate AllHarmless(steps: seq<Step>, b: nat, worker: string, token: nat) {
    forall i :: 0 <= i < |steps| ==> Harmless(steps[i], b, worker, token)
  }

  /** Everybody else does nothing but harmless steps. */
  ghost predicate Undisturbed(world: World, b: nat, worker: string, token: nat) {
    forall i :: AllHarmless(world.others(i), b, worker, token)
  }

  /** The row exists, its token was issued, and unless somebody may have taken it, it is still owned. */
  ghost predicate Watched(s: State, b: nat, worker: string, token: nat, safe: bool) {
    b in s.boots && token in s.issued && (safe ==> OwnsBoot(s, b, worker, token))
  }

  lemma RowStays(s: State, step: Step, b: nat)
    requires b in s.boots && Enabled(s, step)
    ensures b in Apply(s, step).boots && s.issued <= Apply(s, step).issued
  {
    if !step.BootStep? {
      OtherStepFrame(s, step);
    } else if step.boot.DoReconcileBoots? {
      ReconcileBootsRow(s, step.boot.rows, b);
    } else {
      hide ReconcileBoots, Passed;
    }
  }

  lemma WatchedStays(s: State, step: Step, b: nat, worker: string, token: nat, safe: bool)
    requires Watched(s, b, worker, token, safe) && Enabled(s, step) && (safe ==> Harmless(step, b, worker, token))
    ensures Watched(Apply(s, step), b, worker, token, safe)
  {
    RowStays(s, step, b);
    if safe { OwnedUnlessDispossessed(s, step, b, worker, token); }
    hide Apply, Enabled, OwnsBoot;
  }

  method Interleave(db: Tables, steps: seq<Step>, ghost b: nat, ghost worker: string, ghost token: nat, ghost safe: bool)
    requires Watched(db.Snapshot(), b, worker, token, safe) && (safe ==> AllHarmless(steps, b, worker, token))
    modifies db
    ensures Watched(db.Snapshot(), b, worker, token, safe)
  {
    for i := 0 to |steps|
      invariant Watched(db.Snapshot(), b, worker, token, safe)
    {
      hide Watched, Apply, Enabled;
      if Enabled(db.Snapshot(), steps[i]) {
        var t := Apply(db.Snapshot(), steps[i]);
        WatchedStays(db.Snapshot(), steps[i], b, worker, token, safe);
        CatalogStays(db.Snapshot(), steps[i]);
        db.runs, db.batches, db.boots, db.events, db.clock, db.issued := t.runs, t.batches, t.boots, t.events, t.clock, t.issued;
        assert db.Snapshot() == t;
      }
    }
  }

  lemma CatalogStays(s: State, step: Step)
    requires Enabled(s, step)
    ensures Apply(s, step).catalog == s.catalog
  {
    hide Apply, Enabled;
    Worker.StepCatalog(s, step);
  }

  // ---------------------------------------------------------------- the turn

  predicate HoldsBoot(s: State, b: nat, worker: string, token: nat) {
    OwnsBoot(s, b, worker, token) && s.clock <= s.boots[b].lease.value.expires
  }

  /** The lease was live, and then ran for `lease` more seconds. */
  ghost predicate Renews(r: Worker.Renewal, b: nat, worker: string, token: nat, lease: int) {
    && HoldsBoot(r.before, b, worker, token) && b in r.after.boots
    && r.after.boots[b] == r.before.boots[b].(lease := Some(Lease(worker, token, r.before.clock + lease)))
  }

  /** Due polls renewed, no others did, and no look let the child run on with its row gone or its cancellation requested. */
  ghost predicate Polled(w: Worker.Watch, world: World, b: nat, worker: string, token: nat, lease: int) {
    && (forall i :: 0 <= i < |w.looks| ==> (world.due(i) <==> i in w.renewals))
    && (forall i :: i in w.renewals ==> Renews(w.renewals[i], b, worker, token, lease))
    && (forall i :: 0 <= i < |w.looks| ==> OwnsBoot(w.looks[i], b, worker, token) && !w.looks[i].boots[b].cancelRequested)
  }

  /** Polling went on until the child ended or a look found the cancel request. */
  ghost predicate Unlost(w: Worker.Watch, world: World, b: nat, worker: string, token: nat) {
    |w.looks| == world.polls || (OwnsBoot(w.last, b, worker, token) && w.last.boots[b].cancelRequested)
  }

  /** The `cancel` closure at one poll: renew when due, then look at the cancel flag. */
  method PollOnce(q: DurableQueue, b: nat, worker: string, token: nat, lease: int, world: World, i: nat, ghost safe: bool)
    returns (word: Worker.Word, ghost renewal: Option<Worker.Renewal>, ghost last: State)
    requires Watched(q.db.Snapshot(), b, worker, token, safe) && (safe ==> Undisturbed(world, b, worker, token))
    modifies q.db
    ensures Watched(q.db.Snapshot(), b, worker, token, safe)
    ensures word.Lost? ==> !HoldsBoot(last, b, worker, token)
    ensures word.Stop? ==> OwnsBoot(last, b, worker, token) && last.boots[b].cancelRequested
    ensures word.GoOn? ==> OwnsBoot(last, b, worker, token) && !last.boots[b].cancelRequested
    ensures word.GoOn? ==> (world.due(i) <==> renewal.Some?)
    ensures renewal.Some? ==> Renews(renewal.value, b, worker, token, lease)
  {
    hide Watched, Harmless, HeartbeatBoot;
    renewal := None;
    Interleave(q.db, world.others(2 + 2 * i), b, worker, token, safe);
    last := q.db.Snapshot();
    if world.due(i) {
      HeartbeatWatched(q.db.Snapshot(), b, worker, token, lease, safe);
      var renewed := q.HeartbeatBootstrap(b, worker, token, lease);
      if !renewed { return Worker.Lost, None, last; }
      renewal := Some(Worker.Renewal(last, q.db.Snapshot()));
    }
    Interleave(q.db, world.others(3 + 2 * i), b, worker, token, safe);
    last := q.db.Snapshot();
    var cancelled := q.CancelRequestedForBootstrap(b, worker, token);
    word := if cancelled.Failure? then Worker.Lost else if cancelled.value then Worker.Stop else Worker.GoOn;
  }

  /** All polls. */
  method Poll(q: DurableQueue, b: nat, worker: string, token: nat, lease: int, world: World, ghost safe: bool)
    returns (lost: bool, ghost watch: Worker.Watch)
    requires Watched(q.db.Snapshot(), b, worker, token, safe) && (safe ==> Undisturbed(world, b, worker, token))
    modifies q.db
    ensures Watched(q.db.Snapshot(), b, worker, token, safe)
    ensures Polled(watch, world, b, worker, token, lease)
    ensures lost ==> !HoldsBoot(watch.last, b, worker, token) && |watch.looks| < world.polls
    ensures !lost ==> Unlost(watch, world, b, worker, token)
  {
    hide Watched, Undisturbed, Renews, OwnsBoot;
    lost := false;
    watch := Worker.Watch(map[], [], q.db.Snapshot());
    for i := 0 to world.polls
      invariant Watched(q.db.Snapshot(), b, worker, token, safe)
      invariant |watch.looks| == i && (forall k :: k in watch.renewals ==> k < i) && Polled(watch, world, b, worker, token, lease)
    {
      var word;
      ghost var renewal, last;
      word, renewal, last := PollOnce(q, b, worker, token, lease, world, i, safe);
      watch := watch.(last := last);
      if !word.GoOn? { return word.Lost?, watch; }
      watch := Worker.Watch(if renewal.Some? then watch.renewals[i := renewal.value] else watch.renewals, watch.looks + [last], last);
    }
  }

  lemma HeartbeatWatched(s: State, b: nat, worker: string, token: nat, lease: int, safe: bool)
    requires Watched(s, b, worker, token, safe)
    ensures Watched(HeartbeatBoot(s, b, worker, token, lease), b, worker, token, safe)
  {
  }

  datatype Turn = Turn(outcome: Outcome, claimed: Option<nat>, token: nat, ending: Ending)

  datatype Course = Course(before: State, claim: State, watch: Worker.Watch, last: State)

  /** Which ending the outside world and the polling call for. */
  ghost predicate EndingFits(ending: Ending, world: World, watch: Worker.Watch, b: nat, worker: string, token: nat) {
    if world.command.Some? then Rejects(world.command.value, ending)
    else if world.report.None? then Unknown("WORKER_EXCEPTION_UNKNOWN_WRITE_STATE", ending)
    else if ending.swallows then
      Unknown("WORKER_LEASE_LOST_REQUIRES_RECONCILIATION", ending) && !HoldsBoot(watch.last, b, worker, token)
    else
      BootAnswers(world.report.value, ending) && Unlost(watch, world, b, worker, token)
  }

  /** The last call and its effect on `last`: an owned row takes the ending, any other stays. */
  ghost predicate Concluded(turn: Turn, course: Course, world: World, worker: string, lease: int, now: State)
    requires turn.claimed.Some?
  {
    var b := turn.claimed.value;
    && Polled(course.watch, world, b, worker, turn.token, lease)
    && EndingFits(turn.ending, world, course.watch, b, worker, turn.token)
    && EndingWritten(turn.ending, course.last, now, b, worker, turn.token)
    && (turn.outcome.Raised? <==> world.command.None? && world.report.None?)
    && (turn.outcome.LeaseLostRaised? <==> !turn.ending.swallows && !OwnsBoot(course.last, b, worker, turn.token))
  }

  ghost predicate EndingWritten(ending: Ending, last: State, now: State, b: nat, worker: string, token: nat) {
    if OwnsBoot(last, b, worker, token) then
      now == last.(boots := last.boots[b := last.boots[b].(status := ending.status, publication := ending.publication,
                                                           failure := ending.failure, lease := None)])
    else
      now == last
  }

  /** The claim took the first waiting row for `lease` seconds, for reconciliation if it was requeued for that. */
  ghost predicate ClaimedFirst(course: Course, b: nat, worker: string, token: nat, lease: int) {
    && NextBootInLine(course.before.boots, b) && b in course.claim.boots
    && course.claim.boots[b] == course.before.boots[b].(
         status := RUNNING, lease := Some(Lease(worker, token, course.before.clock + lease)),
         publication := if course.before.boots[b].status == RECONCILE_QUEUED then RECONCILING else BUILDING_STAGING)
  }

  /**
    One turn. The documentation promises that a claimed row always reaches a terminal status: it
    has one at the end exactly when the worker still owned the row before its last call, or the
    row had ended before; and the worker owns it to the end unless somebody reconciles expired
    bootstraps or finishes in its name.
  */
  method RunOnce(q: DurableQueue, worker: string, lease: int, world: World) returns (turn: Turn, ghost course: Course)
    modifies q.db
    ensures turn.outcome.Idle? <==> turn.claimed.None?
    ensures turn.claimed.None? ==> q.db.Snapshot() == old(q.db.Snapshot())
    ensures turn.claimed.None? ==> forall b :: b in q.db.boots ==> !ClaimableBoot(q.db.boots[b])
    ensures turn.claimed.Some? ==> course.before == old(q.db.Snapshot()) && ClaimedFirst(course, turn.claimed.value, worker, turn.token, lease)
    ensures turn.claimed.Some? ==> turn.claimed.value in course.last.boots && turn.claimed.value in q.db.boots
    ensures turn.claimed.Some? ==> Concluded(turn, course, world, worker, lease, q.db.Snapshot())
    ensures turn.claimed.Some? ==>
              (Terminal(q.db.boots[turn.claimed.value].status) <==>
                 OwnsBoot(course.last, turn.claimed.value, worker, turn.token) || Terminal(course.last.boots[turn.claimed.value].status))
    ensures turn.claimed.Some? && Undisturbed(world, turn.claimed.value, worker, turn.token) ==>
              Terminal(q.db.boots[turn.claimed.value].status) && !turn.outcome.LeaseLostRaised?
  {
    ghost var unused := Worker.FreshToken(q.db.issued);
    assert unused !in q.db.issued;
    var token: nat :| token !in q.db.issued;
    ghost var before := q.db.Snapshot();
    course := Course(before, before, Worker.Watch(map[], [], before), before);
    hide NextBootInLine, EndingFits, EndingWritten, Polled;
    var claimed := q.ClaimBootstrap(worker, token, lease);
    if claimed.None? { return Turn(Idle, None, token, LOST), course; }
    var b := claimed.value.0;
    ghost var safe := Undisturbed(world, b, worker, token);
    ghost var claim := q.db.Snapshot();
    assert Watched(claim, b, worker, token, safe);
    assert ClaimedFirst(course.(claim := claim), b, worker, token, lease);
    hide Watched, Undisturbed, OwnsBoot, Verdict, Rejection, FinishBoot, ClaimBoot;
    var outcome, ending;
    ghost var watch, last;
    outcome, ending, watch, last := Attempt(q, b, worker, token, lease, world, safe);
    course := Course(before, claim, watch, last);
    turn := Turn(outcome, Some(b), token, ending);
  }

  method Attempt(q: DurableQueue, b: nat, worker: string, token: nat, lease: int, world: World, ghost safe: bool)
    returns (outcome: Outcome, ending: Ending, ghost watch: Worker.Watch, ghost last: State)
    requires Watched(q.db.Snapshot(), b, worker, token, safe) && (safe ==> Undisturbed(world, b, worker, token))
    modifies q.db
    ensures !outcome.Idle? && b in last.boots && b in q.db.boots
    ensures Polled(watch, world, b, worker, token, lease)
    ensures EndingFits(ending, world, watch, b, worker, token)
    ensures EndingWritten(ending, last, q.db.Snapshot(), b, worker, token)
    ensures outcome.Raised? <==> world.command.None? && world.report.None?
    ensures outcome.LeaseLostRaised? <==> !ending.swallows && !OwnsBoot(last, b, worker, token)
    ensures Terminal(q.db.boots[b].status) <==> OwnsBoot(last, b, worker, token) || Terminal(last.boots[b].status)
    ensures safe ==> OwnsBoot(last, b, worker, token)
  {
    Interleave(q.db, world.others(0), b, worker, token, safe);
    watch := Worker.Watch(map[], [], q.db.Snapshot());
    if world.command.Some? {
      ending, last := Rejection(world.command.value), q.db.Snapshot();
    } else {
      hide Watched, HoldsBoot, Unlost, Polled;
      var lost;
      lost, watch := Poll(q, b, worker, token, lease, world, safe);
      Interleave(q.db, world.others(1), b, worker, token, safe);
      last := q.db.Snapshot();
      ending := if world.report.None? then EXCEPTION else if lost then LOST else Verdict(world.report.value);
    }
    WatchedMeans(last, b, worker, token, safe);
    assert EndingFits(ending, world, watch, b, worker, token);
    assert Terminal(ending.status);
    assert ending.swallows || world.report.Some? || world.command.Some?;
    hide EndingFits, Verdict, Rejection, Watched, Undisturbed, FinishBoot, Polled;
    var finished := q.FinishBootstrap(b, worker, token, ending.status, ending.publication, ending.failure);
    outcome :=
      if world.command.None? && world.report.None? then Raised
      else if finished.Success? || ending.swallows then Returned else LeaseLostRaised;
  }

  lemma WatchedMeans(s: State, b: nat, worker: string, token: nat, safe: bool)
    requires Watched(s, b, worker, token, safe)
    ensures b in s.boots && (safe ==> OwnsBoot(s, b, worker, token))
  {
  }

  /**
    The documented promise fails for every expired row: reconciled and requeued while its worker
    is still busy, the row waits in RECONCILE_QUEUED, and whatever that worker writes last has no effect.
  */
  lemma ReconciledRowStaysOpen(s: State, b: nat, worker: string, token: nat, status: Status, publication: Publication, failure: Option<string>)
    requires OwnsBoot(s, b, worker, token) && ExpiredBoot(s, b)
    ensures var reconcile, requeue := BootStep(DoReconcileBoots([b])), BootStep(DoRequestReconcileBoot(b));
      && Enabled(s, reconcile) && Enabled(Apply(s, reconcile), requeue)
      && var t := Apply(Apply(s, reconcile), requeue);
      && b in t.boots && t.boots[b].status == RECONCILE_QUEUED && !Terminal(t.boots[b].status)
      && FinishBoot(t, b, worker, token, status, publication, failure) == t
  {
    ReconciledRow(s, [b], b);
    hide ReconcileBoots;
  }

  /**
    A refused command ends the row FAILED and NOT_STARTED even when the claim was for
    reconciliation: no transaction makes it claimable again.
  */
  lemma RejectionBuries(s: State, b: nat, worker: string, token: nat, error: string)
    requires BootsInv(s) && OwnsBoot(s, b, worker, token)
    ensures var ending := Rejection(error);
      !CanBeClaimed(FinishBoot(s, b, worker, token, ending.status, ending.publication, ending.failure), b)
  {
    var ending := Rejection(error);
    var action := DoFinishBoot(b, worker, token, ending.status, ending.publication, ending.failure);
    var t := FinishBoot(s, b, worker, token, ending.status, ending.publication, ending.failure);
    assert Enabled(s, BootStep(action)) && ApplyBoot(s, action) == t && b in t.boots && Dead(t.boots[b]);
    hide FinishBoot, BootsInv, CanBeClaimed, Dead, ApplyBoot, OwnsBoot, Rejection;
    ActionKeeps(s, action);
    DeadExactly(t, b);
  }
}
