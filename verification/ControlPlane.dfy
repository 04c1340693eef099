/**
  The durable transform control plane as a step system.

  A `State` holds the PostgreSQL tables the control plane owns: transform runs, batch
  executions, protected bootstrap executions and the append-only event journal. Every
  database transaction is one atomic step, given here as a function from states to
  states; a transaction that raises is rolled back and leaves the state as it was.
  `lease_owner`, `lease_token` and `lease_expires_at` are always written together, so a
  row carries one optional `Lease`. `issued` remembers every lease token drawn so far:
  the source draws them from `uuid4`.
*/
module ControlPlane {
  import opened Wrappers

  datatype Status =
    | ADMITTED | QUEUED | RUNNING | TESTING
    | SUCCEEDED | FAILED | CANCELLED | ORPHANED
    | RECONCILE_QUEUED

  predicate Terminal(status: Status) {
    status.SUCCEEDED? || status.FAILED? || status.CANCELLED? || status.ORPHANED?
  }

  predicate Active(status: Status) {
    status.RUNNING? || status.TESTING?
  }

  predicate Failing(status: Status) {
    status.FAILED? || status.CANCELLED? || status.ORPHANED?
  }

  /** The `TRANSITIONS` table of the ledger. */
  predicate Allowed(from: Status, to: Status) {
    match from
    case ADMITTED => to.QUEUED? || to.CANCELLED?
    case QUEUED => to.RUNNING? || to.CANCELLED? || to.ORPHANED?
    case RUNNING => to.TESTING? || to.FAILED? || to.CANCELLED? || to.ORPHANED?
    case TESTING => to.SUCCEEDED? || to.FAILED? || to.CANCELLED? || to.ORPHANED?
    case _ => false
  }

  datatype TestStatus = PASSED | NOT_RUN

  datatype Lease = Lease(owner: string, token: nat, expires: int)

  /** What may not change under one idempotency key. */
  datatype Terms = Terms(mode: string, contractDigest: string, planDigest: string)

  datatype RunRow = RunRow(caller: string, key: string, terms: Terms, status: Status)

  datatype BatchRow = BatchRow(
    run: nat, caller: string, key: string, batch: string, authority: string, fingerprint: string,
    acceptedAt: int, status: Status, test: Option<TestStatus>, failure: Option<string>,
    lease: Option<Lease>, cancelRequested: bool, branch: Option<string>)

  datatype Publication = NOT_STARTED | BUILDING_STAGING | RECONCILING | RECONCILIATION_REQUIRED | PUBLISHED

  datatype BootRow = BootRow(
    run: nat, caller: string, key: string, operation: string, version: int, authority: string,
    acceptedAt: int, status: Status, publication: Publication, failure: Option<string>,
    lease: Option<Lease>, cancelRequested: bool)

  datatype Kind =
    | RunAdmitted(caller: string)
    | BatchAdmitted(batch: string, authority: string)
    | Claimed(worker: string, token: nat)
    | CancelRequested
    | Entered(status: Status, failure: Option<string>)
    | RunEnded(status: Status, cause: nat, failure: Option<string>)
    | BootstrapAdmitted(operation: string, version: int, authority: string)

  datatype Event = Event(run: nat, exec: Option<nat>, kind: Kind)

  /** One batch of the execution plan: its prerequisites are ids of other batches. */
  datatype Batch = Batch(id: string, authority: string, prerequisites: set<string>)

  datatype Operation = Operation(id: string, version: int, authority: string, prerequisite: string)

  datatype State = State(
    catalog: map<string, Batch>,
    runs: map<nat, RunRow>,
    batches: map<nat, BatchRow>,
    boots: map<nat, BootRow>,
    events: seq<Event>,
    clock: int,
    issued: set<nat>)

  /** The empty database under a plan. */
  function Empty(catalog: map<string, Batch>): State {
    State(catalog, map[], map[], map[], [], 0, {})
  }

  // ---------------------------------------------------------------- row writes

  /** Write a batch row together with the journal entry that announces its new status. */
  function Advance(s: State, e: nat, row: BatchRow, kind: Kind): State {
    s.(batches := s.batches[e := row], events := s.events + [Event(row.run, Some(e), kind)])
  }

  /** Write columns of a batch row that the journal does not follow. */
  function Amend(s: State, e: nat, row: BatchRow): State {
    s.(batches := s.batches[e := row])
  }

  function Remark(s: State, ev: Event): State {
    s.(events := s.events + [ev])
  }

  function AmendBoot(s: State, b: nat, row: BootRow): State {
    s.(boots := s.boots[b := row])
  }

  /** `_terminalize_parent_failure`: only a failing status ends the run, and only an open run. */
  function EndParent(s: State, run: nat, status: Status, cause: nat, failure: Option<string>): State {
    if Failing(status) && run in s.runs && !Terminal(s.runs[run].status) then
      s.(runs := s.runs[run := s.runs[run].(status := status)],
         events := s.events + [Event(run, None, RunEnded(status, cause, failure))])
    else
      s
  }

  /** The row of an execution that ends: its lease columns are nulled. */
  function Ended(row: BatchRow, status: Status, test: Option<TestStatus>, failure: Option<string>): BatchRow {
    row.(status := status, test := test, failure := failure, lease := None)
  }

  function Close(s: State, e: nat, status: Status, test: Option<TestStatus>, failure: Option<string>): State
    requires e in s.batches
  {
    Advance(s, e, Ended(s.batches[e], status, test, failure), Entered(status, failure))
  }

  // ---------------------------------------------------------------- run and batch admission

  predicate RunKeyTaken(s: State, caller: string, key: string) {
    exists r :: r in s.runs && s.runs[r].caller == caller && s.runs[r].key == key
  }

  predicate SomeRunOpen(s: State) {
    exists r :: r in s.runs && !Terminal(s.runs[r].status)
  }

  function AddRun(s: State, r: nat, caller: string, key: string, terms: Terms): State {
    s.(runs := s.runs[r := RunRow(caller, key, terms, ADMITTED)],
       events := s.events + [Event(r, None, RunAdmitted(caller))])
  }

  function CreateRun(s: State, r: nat, caller: string, key: string, terms: Terms): State {
    if RunKeyTaken(s, caller, key) || SomeRunOpen(s) then s else AddRun(s, r, caller, key, terms)
  }

  predicate BatchKeyTaken(s: State, caller: string, key: string) {
    exists e :: e in s.batches && s.batches[e].caller == caller && s.batches[e].key == key
  }

  predicate BatchOpen(s: State, run: nat, batch: string) {
    exists e :: e in s.batches && s.batches[e].run == run && s.batches[e].batch == batch && !Terminal(s.batches[e].status)
  }

  predicate PassedRow(row: BatchRow, run: nat, batch: string) {
    row.run == run && row.batch == batch && row.status == SUCCEEDED && row.test == Some(PASSED)
  }

  predicate Passed(s: State, run: nat, batch: string) {
    exists e :: e in s.batches && PassedRow(s.batches[e], run, batch)
  }

  function NewBatchRow(run: nat, caller: string, key: string, batch: Batch, fingerprint: string, at: int): BatchRow {
    BatchRow(run, caller, key, batch.id, batch.authority, fingerprint, at, ADMITTED, None, None, None, false, None)
  }

  predicate MayAdmit(s: State, run: nat, caller: string, key: string, batch: Batch) {
    && run in s.runs && s.runs[run].caller == caller
    && !BatchKeyTaken(s, caller, key)
    && !BatchOpen(s, run, batch.id)
    && forall p :: p in batch.prerequisites ==> Passed(s, run, p)
  }

  function AddBatch(s: State, e: nat, run: nat, caller: string, key: string, batch: Batch, fingerprint: string, at: int): State {
    Advance(s, e, NewBatchRow(run, caller, key, batch, fingerprint, at), BatchAdmitted(batch.id, batch.authority))
  }

  /** `submit_batch`: note that the status of the run is not looked at. */
  function SubmitBatch(s: State, e: nat, run: nat, caller: string, key: string, batch: Batch, fingerprint: string, at: int): State {
    if MayAdmit(s, run, caller, key, batch) then AddBatch(s, e, run, caller, key, batch, fingerprint, at) else s
  }

  /** `transition`: any move of the table, by anyone; the lease columns are not touched. */
  function Transition(s: State, e: nat, to: Status, test: Option<TestStatus>, failure: Option<string>): State {
    if e in s.batches && Allowed(s.batches[e].status, to) then
      var row := s.batches[e].(status := to, test := test, failure := failure);
      EndParent(Advance(s, e, row, Entered(to, failure)), row.run, to, e, failure)
    else
      s
  }

  // ---------------------------------------------------------------- the durable queue

  predicate Claimable(row: BatchRow) {
    row.status == QUEUED && !row.cancelRequested
  }

  /** Claiming works for any eligible row; `SKIP LOCKED` may pass over rows others hold. */
  function Claim(s: State, e: nat, worker: string, token: nat, lease: int): State {
    if e in s.batches && Claimable(s.batches[e]) then
      var row := s.batches[e].(status := RUNNING, lease := Some(Lease(worker, token, s.clock + lease)));
      Advance(s.(issued := s.issued + {token}), e, row, Claimed(worker, token))
    else
      s
  }

  predicate Owns(s: State, e: nat, worker: string, token: nat) {
    && e in s.batches && Active(s.batches[e].status)
    && s.batches[e].lease.Some?
    && s.batches[e].lease.value.owner == worker && s.batches[e].lease.value.token == token
  }

  predicate Holds(s: State, e: nat, worker: string, token: nat) {
    Owns(s, e, worker, token) && s.clock <= s.batches[e].lease.value.expires
  }

  function Heartbeat(s: State, e: nat, worker: string, token: nat, lease: int): State {
    if Holds(s, e, worker, token) then
      Amend(s, e, s.batches[e].(lease := Some(Lease(worker, token, s.clock + lease))))
    else
      s
  }

  predicate BranchFits(row: BatchRow, branch: string) {
    row.branch.None? || row.branch == Some(branch)
  }

  function RecordBranch(s: State, e: nat, worker: string, token: nat, branch: string): State {
    if Holds(s, e, worker, token) && BranchFits(s.batches[e], branch) then
      Amend(s, e, s.batches[e].(branch := Some(branch)))
    else
      s
  }

  function RequestCancel(s: State, e: nat): State {
    if e !in s.batches || Terminal(s.batches[e].status) then
      s
    else if s.batches[e].status in {ADMITTED, QUEUED} then
      var row := s.batches[e].(cancelRequested := true);
      var s1 := Advance(s, e, Ended(row, CANCELLED, row.test, Some("OPERATOR_CANCELLED")), Entered(CANCELLED, None));
      EndParent(s1, row.run, CANCELLED, e, Some("OPERATOR_CANCELLED"))
    else
      Remark(Amend(s, e, s.batches[e].(cancelRequested := true)), Event(s.batches[e].run, Some(e), CancelRequested))
  }

  function Finish(s: State, e: nat, worker: string, token: nat, status: Status, test: Option<TestStatus>, failure: Option<string>): State {
    if Terminal(status) && Holds(s, e, worker, token) then
      EndParent(Close(s, e, status, test, failure), s.batches[e].run, status, e, failure)
    else
      s
  }

  /** An ORPHANED end that takes the run down with it. */
  function Orphan(s: State, e: nat, failure: string): State
    requires e in s.batches
  {
    EndParent(Close(s, e, ORPHANED, s.batches[e].test, Some(failure)), s.batches[e].run, ORPHANED, e, Some(failure))
  }

  function OrphanIfOwned(s: State, e: nat, worker: string, token: nat, failure: string): State {
    if Owns(s, e, worker, token) then Orphan(s, e, failure) else s
  }

  /** Ends the batch only; the run stays open. */
  function RejectPrerequisite(s: State, e: nat, worker: string, token: nat, failure: string): State {
    if Owns(s, e, worker, token) then Close(s, e, ORPHANED, s.batches[e].test, Some(failure)) else s
  }

  predicate Expired(s: State, e: nat) {
    && e in s.batches && Active(s.batches[e].status)
    && s.batches[e].lease.Some? && s.batches[e].lease.value.expires < s.clock
  }

  const EXPIRED_CLASS: string := "WORKER_LEASE_EXPIRED_REQUIRES_RECONCILIATION"

  /** `reconcile_expired` over the rows it locked, in the order it meets them. */
  function Reconcile(s: State, rows: seq<nat>): State {
    if rows == [] then s
    else
      var s1 := Reconcile(s, rows[..|rows| - 1]);
      var e := rows[|rows| - 1];
      if Expired(s1, e) then Orphan(s1, e, EXPIRED_CLASS) else s1
  }

  // ---------------------------------------------------------------- protected bootstraps

  predicate BootKeyTaken(s: State, caller: string, key: string) {
    exists b :: b in s.boots && s.boots[b].caller == caller && s.boots[b].key == key
  }

  predicate BootAdmitted(s: State, run: nat, operation: string, version: int) {
    exists b :: b in s.boots && s.boots[b].run == run && s.boots[b].operation == operation && s.boots[b].version == version
  }

  predicate MayAdmitBoot(s: State, run: nat, caller: string, key: string, op: Operation) {
    && run in s.runs
    && !BootKeyTaken(s, caller, key)
    && !BootAdmitted(s, run, op.id, op.version)
    && Passed(s, run, op.prerequisite)
  }

  function NewBootRow(run: nat, caller: string, key: string, op: Operation, at: int): BootRow {
    BootRow(run, caller, key, op.id, op.version, op.authority, at, ADMITTED, NOT_STARTED, None, None, false)
  }

  function SubmitBoot(s: State, b: nat, run: nat, caller: string, key: string, op: Operation, at: int): State {
    if MayAdmitBoot(s, run, caller, key, op) then
      Remark(AmendBoot(s, b, NewBootRow(run, caller, key, op, at)),
             Event(run, Some(b), BootstrapAdmitted(op.id, op.version, op.authority)))
    else
      s
  }

  function QueueBoot(s: State, b: nat): State {
    if b in s.boots && s.boots[b].status == ADMITTED then AmendBoot(s, b, s.boots[b].(status := QUEUED)) else s
  }

  predicate ClaimableBoot(row: BootRow) {
    (row.status == QUEUED || row.status == RECONCILE_QUEUED) && !row.cancelRequested
  }

  /** The claim is in create mode exactly when the row was QUEUED. */
  function ClaimBoot(s: State, b: nat, worker: string, token: nat, lease: int): State {
    if b in s.boots && ClaimableBoot(s.boots[b]) then
      var row := s.boots[b].(
        status := RUNNING,
        publication := if s.boots[b].status == RECONCILE_QUEUED then RECONCILING else BUILDING_STAGING,
        lease := Some(Lease(worker, token, s.clock + lease)));
      AmendBoot(s.(issued := s.issued + {token}), b, row)
    else
      s
  }

  predicate OwnsBoot(s: State, b: nat, worker: string, token: nat) {
    && b in s.boots && s.boots[b].status == RUNNING
    && s.boots[b].lease.Some?
    && s.boots[b].lease.value.owner == worker && s.boots[b].lease.value.token == token
  }

  function HeartbeatBoot(s: State, b: nat, worker: string, token: nat, lease: int): State {
    if OwnsBoot(s, b, worker, token) && s.clock <= s.boots[b].lease.value.expires then
      AmendBoot(s, b, s.boots[b].(lease := Some(Lease(worker, token, s.clock + lease))))
    else
      s
  }

  function RequestCancelBoot(s: State, b: nat): State {
    if b !in s.boots || Terminal(s.boots[b].status) then
      s
    else if s.boots[b].status in {ADMITTED, QUEUED} then
      AmendBoot(s, b, s.boots[b].(cancelRequested := true, status := CANCELLED, publication := NOT_STARTED,
                                  failure := Some("OPERATOR_CANCELLED")))
    else
      AmendBoot(s, b, s.boots[b].(cancelRequested := true, publication := RECONCILIATION_REQUIRED))
  }

  predicate Reconcilable(row: BootRow) {
    (row.status == ORPHANED || row.status == FAILED) && row.publication == RECONCILIATION_REQUIRED
  }

  function RequestReconcileBoot(s: State, b: nat): State {
    if b in s.boots && Reconcilable(s.boots[b]) then
      AmendBoot(s, b, s.boots[b].(status := RECONCILE_QUEUED, cancelRequested := false, failure := None))
    else
      s
  }

  /** No expiry check here: an expired lease that nobody reconciled may still finish. */
  function FinishBoot(s: State, b: nat, worker: string, token: nat, status: Status, publication: Publication, failure: Option<string>): State {
    if Terminal(status) && OwnsBoot(s, b, worker, token) then
      AmendBoot(s, b, s.boots[b].(status := status, publication := publication, failure := failure, lease := None))
    else
      s
  }

  predicate ExpiredBoot(s: State, b: nat) {
    && b in s.boots && s.boots[b].status == RUNNING
    && s.boots[b].lease.Some? && s.boots[b].lease.value.expires < s.clock
  }

  function OrphanBoot(s: State, b: nat): State
    requires b in s.boots
  {
    AmendBoot(s, b, s.boots[b].(status := ORPHANED, publication := RECONCILIATION_REQUIRED, lease := None,
                                failure := Some(EXPIRED_CLASS)))
  }

  function ReconcileBoots(s: State, rows: seq<nat>): State {
    if rows == [] then s
    else
      var s1 := ReconcileBoots(s, rows[..|rows| - 1]);
      var b := rows[|rows| - 1];
      if ExpiredBoot(s1, b) then OrphanBoot(s1, b) else s1
  }

  // ---------------------------------------------------------------- steps and runs of the system

  datatype Step =
    | Tick(now: int)
    | DoCreateRun(r: nat, caller: string, key: string, terms: Terms)
    | DoSubmitBatch(e: nat, run: nat, caller: string, key: string, batch: Batch, fingerprint: string, at: int)
    | DoTransition(e: nat, to: Status, test: Option<TestStatus>, failure: Option<string>)
    | DoClaim(e: nat, worker: string, token: nat, lease: int)
    | DoHeartbeat(e: nat, worker: string, token: nat, lease: int)
    | DoRecordBranch(e: nat, worker: string, token: nat, branch: string)
    | DoRequestCancel(e: nat)
    | DoFinish(e: nat, worker: string, token: nat, status: Status, test: Option<TestStatus>, failure: Option<string>)
    | DoOrphan(e: nat, worker: string, token: nat, reason: string)
    | DoReject(e: nat, worker: string, token: nat, reason: string)
    | DoReconcile(rows: seq<nat>)
    | BootStep(boot: BootAction)

  datatype BootAction =
    | DoSubmitBoot(b: nat, run: nat, caller: string, key: string, op: Operation, at: int)
    | DoQueueBoot(b: nat)
    | DoClaimBoot(b: nat, worker: string, token: nat, lease: int)
    | DoHeartbeatBoot(b: nat, worker: string, token: nat, lease: int)
    | DoRequestCancelBoot(b: nat)
    | DoRequestReconcileBoot(b: nat)
    | DoFinishBoot(b: nat, worker: string, token: nat, status: Status, publication: Publication, failure: Option<string>)
    | DoReconcileBoots(rows: seq<nat>)

  /** Identifiers and tokens are fresh, the database clock never runs backwards, and batches come from the plan. */
  predicate Enabled(s: State, step: Step) {
    match step
    case Tick(now) => s.clock <= now
    case DoCreateRun(r, _, _, _) => r !in s.runs
    case DoSubmitBatch(e, _, _, _, batch, _, _) =>
      e !in s.batches && e !in s.boots && batch.id in s.catalog && s.catalog[batch.id] == batch
    case DoClaim(_, _, token, _) => token !in s.issued
    case BootStep(boot) =>
      (match boot
       case DoSubmitBoot(b, _, _, _, _, _) => b !in s.batches && b !in s.boots
       case DoClaimBoot(_, _, token, _) => token !in s.issued
       case _ => true)
    case _ => true
  }

  function ApplyBoot(s: State, action: BootAction): State {
    match action
    case DoSubmitBoot(b, run, caller, key, op, at) => SubmitBoot(s, b, run, caller, key, op, at)
    case DoQueueBoot(b) => QueueBoot(s, b)
    case DoClaimBoot(b, worker, token, lease) => ClaimBoot(s, b, worker, token, lease)
    case DoHeartbeatBoot(b, worker, token, lease) => HeartbeatBoot(s, b, worker, token, lease)
    case DoRequestCancelBoot(b) => RequestCancelBoot(s, b)
    case DoRequestReconcileBoot(b) => RequestReconcileBoot(s, b)
    case DoFinishBoot(b, worker, token, status, publication, failure) =>
      FinishBoot(s, b, worker, token, status, publication, failure)
    case DoReconcileBoots(rows) => ReconcileBoots(s, rows)
  }

  function Apply(s: State, step: Step): State {
    match step
    case Tick(now) => s.(clock := now)
    case DoCreateRun(r, caller, key, terms) => CreateRun(s, r, caller, key, terms)
    case DoSubmitBatch(e, run, caller, key, batch, fingerprint, at) =>
      SubmitBatch(s, e, run, caller, key, batch, fingerprint, at)
    case DoTransition(e, to, test, failure) => Transition(s, e, to, test, failure)
    case DoClaim(e, worker, token, lease) => Claim(s, e, worker, token, lease)
    case DoHeartbeat(e, worker, token, lease) => Heartbeat(s, e, worker, token, lease)
    case DoRecordBranch(e, worker, token, branch) => RecordBranch(s, e, worker, token, branch)
    case DoRequestCancel(e) => RequestCancel(s, e)
    case DoFinish(e, worker, token, status, test, failure) => Finish(s, e, worker, token, status, test, failure)
    case DoOrphan(e, worker, token, reason) => OrphanIfOwned(s, e, worker, token, reason)
    case DoReject(e, worker, token, reason) => RejectPrerequisite(s, e, worker, token, reason)
    case DoReconcile(rows) => Reconcile(s, rows)
    case BootStep(boot) => ApplyBoot(s, boot)
  }

  /** A finite behaviour: the states it visits and the steps between them, from an empty database. */
  datatype Trace = Trace(states: seq<State>, steps: seq<Step>)

  ghost predicate Valid(tr: Trace) {
    && |tr.states| == |tr.steps| + 1
    && tr.states[0] == Empty(tr.states[0].catalog)
    && forall i :: 0 <= i < |tr.steps| ==>
         Enabled(tr.states[i], tr.steps[i]) && tr.states[i + 1] == Apply(tr.states[i], tr.steps[i])
  }
}
