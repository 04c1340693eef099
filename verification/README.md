# Verification model of the data platform's control and publication protocols

This project states, in Dafny, what the platform's hand-written protocols guarantee, and proves it. It covers

* the **durable transform control plane**: the PostgreSQL ledger and queue, the worker, its heartbeats and the execution plan;
* the **Kafka to Raw/DLQ consumer** with its retry, dead-letter, fail-stop and restart behaviour, and the DLQ replay tool;
* the **multi-agent planner and executor**;
* **Raw-to-Bronze publication** by any number of executors;
* three kernels: the knowledge **chunker and chunk index**, the nested **tool-call budget**, and the **z-score flag**.

Run `dafny verify dfyconfig.toml`.

## How it is built

The control plane is a step system. `ControlPlane` gives every database transaction as a function from states to states, and a behaviour (`Trace`) is any finite interleaving of transactions by any number of callers, workers and reconcilers, with the database clock moving forward in between. The classes `TransformLedger` and `DurableQueue` carry the same transactions out on mutable tables, statement by statement; each of their methods is proved to have exactly the effect of its step and states besides, in terms of the rows, what it writes; and `TransformWorker` runs the queue calls of a worker turn with other parties' transactions inserted at every point. The invariant, and from it the theorems, are proved about the steps, so they hold of everything the classes do.

The consumer, the plan visitor and executor, the publication, the chunker, the registry of tool calls and the ranking follow the same pattern: the code's loops and updates as methods and classes, tied to a function, and the theorems about that function. Crashes, ambiguous failures (an error although the write landed), the network, handlers, policy decisions and clocks are parameters, so that every statement is about all of their outcomes.

| files | what is in them |
|---|---|
| `ControlPlane`, `ControlPlaneInvariants`, `ControlPlaneTheorems`, `ControlPlaneRuns`, `Bootstraps` | the step system, its invariant, leases and fencing, the journal, runs and prerequisites, protected bootstraps |
| `Database`, `TransformLedger`, `DurableQueue`, `TransformWorker`, `BootstrapWorker`, `HeartbeatTiming`, `LeaseTime`, `ExecutionPlan` | the tables, the two store classes, the worker turns, heartbeat arithmetic, how long leases last, the plan as an instance |
| `Coordinates`, `KafkaConsumer`, `ConsumerRuns`, `ConsumerConfluence`, `ReplayDlq` | record identities, one record, whole schedules, crash confluence, the replay tool |
| `PlanValidation`, `PlanExecution` | the topological sort, the executor |
| `RawToBronze`, `RawToBronzeRuns` | the step system of publication, its theorems and one call |
| `Splitting`, `GreedyChunks`, `Normalization`, `PlainParagraphs`, `Knowledge`, `ToolBudget`, `Ranking` | the kernels |
| `Text`, `Wrappers` | decimal printing and splitting, `Option` and `Result` |

## Findings

Where the code does less than its documentation or a reader may expect, the model follows the code and proves exactly when the expectation holds.

* A protected bootstrap that waits in RECONCILE_QUEUED and is then cancelled can never be claimed again, although its status is not terminal; `run_once_protected_bootstrap` documents ORPHANED as the only status an operator must revisit. `Bootstraps.DeadExactly` gives the exact set of rows that are lost in this way.
* The ledger's `transition` leaves lease columns as they are. `ControlPlaneRuns.LeaseColumnsStay` shows that "a row has lease columns exactly while it is active" is kept by a step if and only if the step is not a `transition` that enters RUNNING or ends an active row.
* The heartbeat loop starts only after the private Trino is up. `HeartbeatTiming.LostOnlyByALateStart` shows that, under the timing assumptions, a late first heartbeat is the only way to lose the lease, and `SlowStartLoses` that after a start that outlasts the lease the first due heartbeat loses it.
* Raw objects of records without an event id get a random one, so crash schedules agree on the Raw map exactly when all storable records carry their id (`ConsumerConfluence.ConfluentExactlyWithEventIds`).
* With a negative MAX_PROCESSING_RETRIES, and only then, the retry loop is empty and a record is passed over: nothing is stored, sent to the DLQ or committed (`ConsumerRuns.SkippedExactly`). The offset invariant still holds.
* The depth limit of `validate_plan` limits the recursion, not the length of dependency chains, so acceptance depends on the order in which steps and dependencies are listed. `PlanValidation.AcceptedExactly` gives the exact condition for a listing, `AcceptedHoweverListed` the exact condition for all listings: no cycle and no dependency walk of more than max_depth steps.
* A Bronze table whose creator died before registering its file stays unpublishable for ever, and this is the only way in which a model becomes unpublishable (`RawToBronzeRuns.CanReturnExactly`).
* Chunk identities are hashed from document id, ordinal and content joined by bars, so an id that goes on with a bar and an ordinal can take another document's chunk. `Knowledge.SafeExactly` shows that the index is right after every history over a set of one-line ids exactly when none of them shadows another within the chunk size.
* A protected bootstrap stays with its worker until the worker finishes it, unless someone reconciles expired bootstraps or finishes in its name (`BootstrapWorker.OwnedUnlessDispossessed`). Nothing in the repository calls `reconcile_expired_protected_bootstraps`: a row whose worker died stays RUNNING until an operator arranges that call or a finish with the row's own token, and the continuations that `Bootstraps.DeadExactly` counts on for such a row are these two. Where the call is made, `run_once_protected_bootstrap` can return with a row that is not terminal, against its documentation: `BootstrapWorker.ReconciledRowStaysOpen` shows it for every expired row, and `BootstrapWorker.RunOnce` says exactly when.
* A refused command ends a bootstrap FAILED and NOT_STARTED even when the claim was for reconciliation, after which it can never be claimed again (`BootstrapWorker.RejectionBuries`).

## Model

| member | source | states |
|---|---|---|
| `ControlPlaneTheorems.JournalRefinement` | orchestration/transform_runtime/durable_queue.py:34-69 | In every reachable state, reading the journal in order (a claim as RUNNING, cancel requests and bootstrap events as nothing) gives the current status of every run and every batch execution, and of nothing else. |
| `ControlPlaneTheorems.ClaimedAndEndedAtMostOnce` | orchestration/transform_runtime/durable_queue.py:51-69 | In any interleaving no batch execution is claimed twice, no token serves two claims, no execution has two terminal events and no run two RUN_ events. |
| `ControlPlaneTheorems.EndedExactlyWhenJournaled` | orchestration/transform_runtime/durable_queue.py:209-228 | A batch execution has ended if and only if the journal holds its terminal event, and that event names its status. |
| `ControlPlaneTheorems.EndedForEver` | orchestration/transform_runtime/durable_queue.py:209-278 | Once a batch execution has ended, its whole row (status, test status, failure class, owner) never changes again, whoever calls whatever. |
| `ControlPlaneTheorems.HeldBefore` | orchestration/transform_runtime/durable_queue.py:170-179 | Whoever holds an unexpired lease after a step held it unexpired before the step, or took it by claiming: no step revives a lease. |
| `ControlPlaneTheorems.LeaseContinuity` | orchestration/transform_runtime/durable_queue.py:170-179 | A lease that is live now goes back to one claim and was live in every state since. |
| `LeaseTime.LeaseLasts` | orchestration/transform_runtime/durable_queue.py:51-69 | After a claim or renewal at clock t for some lease seconds the worker still holds the row in every later state whose clock is at most t plus these seconds, unless a step has ended the row or it asked itself for less. |
| `LeaseTime.NotReconciledInTime` | orchestration/transform_runtime/durable_queue.py:261-278 | No reconciliation within those seconds changes the row. |
| `LeaseTime.HeldThroughBeats` | orchestration/transform_runtime/durable_queue.py:170-179 | A worker whose heartbeats follow its claim and each other within the lease seconds holds its row in every state until that long after the last, unless a step has ended it. |
| `LeaseTime.BeatIsHeartbeat` | orchestration/job_runner/transform_worker.py:205-213 | A due poll of the heartbeat closure meets the queue: it finds the lease lost exactly when the row is not held, and otherwise its expiry cell and the row both stand at the heartbeat plus the lease seconds. |
| `LeaseTime.MirrorStays` | orchestration/transform_runtime/durable_queue.py:170-179 | Any other step leaves the expiry of a held row as the closure has it, or ends the row. |
| `ControlPlaneTheorems.OneClaim` | orchestration/transform_runtime/durable_queue.py:51-69 | No behaviour has two steps that claim the same batch execution. |
| `ControlPlaneTheorems.FinishIsFenced` | orchestration/transform_runtime/durable_queue.py:209-228 | A `finish` that changes anything presents the token of the only claim its execution ever has, and that lease was live in every state from the claim to the finish. |
| `ControlPlaneTheorems.StaleCallsChangeNothing` | orchestration/transform_runtime/durable_queue.py:151-259 | A heartbeat, branch record, finish, orphan or reject call whose owner and token are not those of a journaled claim of the execution leaves the whole state as it was. |
| `ControlPlaneTheorems.ReconcileRow` | orchestration/transform_runtime/durable_queue.py:261-278 | Reconciling any list of rows leaves each row as it was, or orphaned because its lease had expired before. |
| `ControlPlaneTheorems.TraceLater` | orchestration/transform_runtime/durable_queue.py:30-37 | From any state to any later one the journal is extended, identities stay, ended runs and executions are frozen. |
| `ControlPlaneInvariants.StepKeeps` | orchestration/transform_runtime/ledger.py:347-811 | Every transaction keeps the invariant over rows and journal: references, uniqueness, journal agreement, single claims and ends, leases backed by claims, admissions preceded by passes. |
| `ControlPlaneInvariants.TraceKeeps` | orchestration/transform_runtime/durable_queue.py:30-278 | The invariant holds in every state of every behaviour from the empty database. |
| `ControlPlaneRuns.RunTakesFirstFailure` | orchestration/transform_runtime/durable_queue.py:39-49 | A run is open exactly while no step other than a prerequisite rejection has ended one of its executions FAILED, CANCELLED or ORPHANED; otherwise it has the status of the first step that did. |
| `ControlPlaneRuns.StepRunFollows` | orchestration/transform_runtime/durable_queue.py:246-259 | What one step does to one run: ended runs stay, an open run takes the failing status of an execution of its own that the step ended, and nothing else changes it. |
| `ControlPlaneRuns.OneRunEnd` | orchestration/transform_runtime/durable_queue.py:39-49 | A run has ended if and only if the journal holds its RUN_ event, which carries its status. |
| `ControlPlaneRuns.OneOfEach` | orchestration/transform_runtime/ledger.py:356-391 | At most one run is open; a caller's key names one run and one batch execution; at most one execution of a batch is open in a run. |
| `ControlPlaneRuns.PrerequisiteClosure` | orchestration/transform_runtime/ledger.py:494-511 | For an arbitrary prerequisite graph: before the admission of a batch the journal holds, for every batch reachable along prerequisites, an admission and a later SUCCEEDED event of an execution in the same run whose tests passed. |
| `ControlPlaneRuns.NoCycleIsAdmitted` | orchestration/transform_runtime/ledger.py:494-511 | No batch on a cycle of prerequisites is ever admitted. |
| `ControlPlaneRuns.AdmittedAfterPrerequisites` | orchestration/transform_runtime/ledger.py:435-585 | The same from the rows: every batch execution was admitted after all its transitive prerequisites had passed in its run, and each has a row that is SUCCEEDED with its tests PASSED. |
| `ControlPlaneRuns.LeaseColumnsStay` | orchestration/transform_runtime/ledger.py:675-781 | A step keeps "lease columns exactly while active" if and only if it is not a `transition` that bypasses the queue. |
| `Bootstraps.LaterClaimsReconcile` | orchestration/transform_runtime/durable_queue.py:71-88 | Of two claims for one (run, operation, version), on whatever rows, both are of the same row and the later one is reconciliation-only, so at most one claim is in create mode. |
| `Bootstraps.TraceBoots` | orchestration/transform_runtime/ledger.py:604-650 | In every reachable state (run, operation, version) and (caller, key) each name at most one bootstrap row, and a row carries a lease exactly while RUNNING. |
| `Bootstraps.OldTokenIsGone` | orchestration/transform_runtime/durable_queue.py:71-88 | After a re-claim the earlier claim's token never stands in the row again. |
| `Bootstraps.StaleFinishRejected` | orchestration/transform_runtime/durable_queue.py:130-142 | A finish or heartbeat with an earlier claim's token after a re-claim changes nothing. |
| `Bootstraps.PublishedForEver` | orchestration/transform_runtime/durable_queue.py:130-149 | A bootstrap that is SUCCEEDED and PUBLISHED stays exactly as it is. |
| `Bootstraps.DeadExactly` | orchestration/transform_runtime/durable_queue.py:71-142 | Some sequence of bootstrap transactions makes a row claimable if and only if the row is not succeeded, not cancelled, not failed or orphaned without need of reconciliation, and not queued for reconciliation with a cancel request. |
| `Bootstraps.CancelledReconciliationIsDead` | orchestration/transform_runtime/durable_queue.py:106-118 | Cancelling a bootstrap that waits for reconciliation leaves a non-terminal row that can never be claimed. |
| `Database.Tables.TerminalizeParent` | orchestration/transform_runtime/durable_queue.py:39-49 | A run that is open takes the status FAILED, CANCELLED or ORPHANED of its execution and gets one RUN_ event naming the cause; any other status, or an ended run, changes nothing. |
| `LedgerStore.TransformLedger.CreateRun` | orchestration/transform_runtime/ledger.py:347-433 | A new run is ADMITTED with its journal entry exactly when its key is free and every run has ended; RunActive exactly when the key is free and a run is open; KeyReused only for, and with unique keys exactly for, a key with other terms; a reused key returns its run and changes nothing. |
| `LedgerStore.TransformLedger.SubmitBatch` | orchestration/transform_runtime/ledger.py:435-585 | A new execution is the ADMITTED row of its caller, key, batch, authority and fingerprint, without lease or test status, for a run of the caller in which every prerequisite has a SUCCEEDED/PASSED row; each error exactly in its case, KeyReused under unique keys; otherwise the prior or the open row is returned and nothing changes. |
| `LedgerStore.TransformLedger.Transition` | orchestration/transform_runtime/ledger.py:675-781 | Succeeds exactly for the thirteen moves of the table, writes status, test status and failure class and leaves the lease columns; the run follows a failing status. |
| `LedgerStore.TransformLedger.SubmitBootstrap` | orchestration/transform_runtime/ledger.py:604-650 | A new bootstrap is the ADMITTED, NOT_STARTED row of its operation, for a run whose prerequisite has a SUCCEEDED/PASSED row and which has no row of that operation and version; each error exactly in its case, KeyReused under unique keys; otherwise nothing changes. |
| `LedgerStore.TransformLedger.QueueBootstrap` | orchestration/transform_runtime/ledger.py:662-673 | Exactly an ADMITTED bootstrap becomes QUEUED, and nothing else changes. |
| `QueueStore.DurableQueue.Claim` | orchestration/transform_runtime/durable_queue.py:51-69 | None exactly when no row is QUEUED without a cancel request; otherwise the first such row by acceptance time and identity becomes RUNNING under the fresh token until the present clock plus the lease seconds, with one journal entry, and nothing else changes. |
| `QueueStore.DurableQueue.Heartbeat` | orchestration/transform_runtime/durable_queue.py:170-179 | Renews exactly a RUNNING or TESTING row whose lease has the presented owner and token and has not expired; the new expiry is the present clock plus the lease seconds, and nothing else changes. |
| `QueueStore.DurableQueue.RecordBranch` | orchestration/transform_runtime/durable_queue.py:151-168 | Records the branch exactly under a live lease and no other branch on the row; a conflict is told from a lost lease, and errors change nothing. |
| `QueueStore.DurableQueue.CancelRequestedFor` | orchestration/transform_runtime/durable_queue.py:181-187 | Reads the cancel flag exactly for the owner of an active row, whether or not its lease has expired. |
| `QueueStore.DurableQueue.RequestCancel` | orchestration/transform_runtime/durable_queue.py:189-207 | Ends an ADMITTED or QUEUED row CANCELLED with its run, raises the cancel flag of a RUNNING or TESTING one with one journal entry, and leaves an ended one and everything else alone. |
| `QueueStore.DurableQueue.Finish` | orchestration/transform_runtime/durable_queue.py:209-228 | Succeeds exactly for a terminal status under a live lease; the row takes status, test status and failure class and loses its lease, the journal notes it, and the run follows a failing status; errors change nothing. |
| `QueueStore.DurableQueue.OrphanIfOwned` | orchestration/transform_runtime/durable_queue.py:230-244 | Works exactly for the owner of an active row, expired or not: the row ends ORPHANED for the reason, with its test status as it was, and the run follows. |
| `QueueStore.DurableQueue.RejectPrerequisiteIfOwned` | orchestration/transform_runtime/durable_queue.py:246-259 | The same without touching the run. |
| `QueueStore.DurableQueue.ReconcileExpired` | orchestration/transform_runtime/durable_queue.py:261-278 | The loop orphans exactly the active rows whose lease lies before the clock, each once, with the class of an expired lease; exactly their open runs end ORPHANED, each end is journaled, all other rows stay, and no row is left expired. |
| `QueueStore.DurableQueue.ClaimBootstrap` | orchestration/transform_runtime/durable_queue.py:71-88 | None exactly when no row is QUEUED or RECONCILE_QUEUED without a cancel request; otherwise the earliest such row is RUNNING under the fresh token until the clock plus the lease seconds, RECONCILING exactly when it was requeued for that and BUILDING_STAGING otherwise, as the answer says. |
| `QueueStore.DurableQueue.HeartbeatBootstrap` | orchestration/transform_runtime/durable_queue.py:90-96 | Renews exactly a live lease, until the present clock plus the lease seconds. |
| `QueueStore.DurableQueue.CancelRequestedForBootstrap` | orchestration/transform_runtime/durable_queue.py:98-104 | Reads the cancel flag exactly for the owner of a RUNNING bootstrap. |
| `QueueStore.DurableQueue.RequestCancelBootstrap` | orchestration/transform_runtime/durable_queue.py:106-118 | A waiting row ends CANCELLED and NOT_STARTED, a RUNNING or requeued one is flagged and marked as requiring reconciliation, an ended one stays. |
| `QueueStore.DurableQueue.RequestReconcileBootstrap` | orchestration/transform_runtime/durable_queue.py:120-128 | Requeues exactly rows that failed or were orphaned and require reconciliation, clearing cancel flag and failure class; errors change nothing. |
| `QueueStore.DurableQueue.FinishBootstrap` | orchestration/transform_runtime/durable_queue.py:130-142 | Succeeds exactly for a terminal status presented by the owner of a RUNNING row, without an expiry check; the row takes status, publication state and failure class and loses its lease. |
| `QueueStore.DurableQueue.ReconcileExpiredBootstraps` | orchestration/transform_runtime/durable_queue.py:280-293 | The loop orphans exactly the expired bootstraps, marks them for reconciliation, and leaves all other rows. |
| `Worker.SettledStays` | orchestration/transform_runtime/durable_queue.py:209-278 | Whatever anybody does, a claimed row stays owned by its claim or has ended: ORPHANED is never requeued. |
| `Worker.RunOnce` | orchestration/job_runner/transform_worker.py:157-246 | With any transactions of others between all of its calls: rows expired at the start end ORPHANED; the first waiting row is claimed for the lease seconds; before the child starts its branch stands on the row; the last call is the orphaning for the first thing that went wrong, whose failure class then stands on a row still owned, or, when polling lost no lease, the answer to the report: its own status if SUCCEEDED, FAILED or CANCELLED and ORPHANED otherwise, PASSED exactly for SUCCEEDED and NOT_RUN exactly for FAILED, the reported failure class or that of the case. A row succeeds by the turn only if `execute` reported SUCCEEDED; a turn that returns has its row ended; if `finish` raises, the row has ended or has an expired lease. |
| `Worker.Poll` | orchestration/job_runner/transform_worker.py:205-213 | The lease is reported lost only in a state where it is not live; polling stops early only for that or a cancel request, and never passes over one; every due poll before that renewed a live lease for the full lease seconds, and no other poll did. |
| `Worker.Conclude` | orchestration/job_runner/transform_worker.py:235-246 | Raises exactly when the lease is not live, and then writes nothing; otherwise the row takes the status, test status and failure class the report calls for and loses its lease, and the run follows a failing status. |
| `BootstrapWorker.RunOnce` | orchestration/job_runner/transform_worker.py:249-352 | With any transactions of others between its calls: the earliest waiting row is claimed for the lease seconds; what is written last is the refusal of the command (at most 128 characters), the class of an exception or of a lost lease with an unknown write state, or the answer to the report: PUBLISHED exactly for SUCCEEDED, NOT_STARTED exactly for FAILED and CANCELLED, reconciliation required otherwise. An owned row takes it, any other stays. The row is terminal at the end exactly when the worker still owned it or it had ended; if nobody reconciles bootstraps or finishes in its name, it is terminal and no lease is lost. |
| `BootstrapWorker.OwnedUnlessDispossessed` | orchestration/transform_runtime/durable_queue.py:130-142 | A step takes an owned bootstrap from its worker if and only if it reconciles the expired row or finishes with its owner and token. |
| `BootstrapWorker.ReconciledRowStaysOpen` | orchestration/job_runner/transform_worker.py:258-263 | Every expired row, reconciled and requeued while its worker is busy, waits in RECONCILE_QUEUED, and whatever that worker writes last has no effect. |
| `BootstrapWorker.RejectionBuries` | orchestration/job_runner/transform_worker.py:272-286 | After a refused command no sequence of bootstrap transactions makes the row claimable. |
| `HeartbeatTiming.LostOnlyByALateStart` | orchestration/job_runner/transform_worker.py:205-213 | If interval + poll gap + twice the transaction time fits into the lease, then over any number of polls the lease is lost if and only if the first due heartbeat comes after the claim's own lease. |
| `HeartbeatTiming.KeptAfterFirst` | orchestration/job_runner/transform_execution.py:738-747 | After a first heartbeat in time, every later state of the poll loop has a lease that a heartbeat renewed and no due poll missed. |
| `HeartbeatTiming.NeverExpires` | orchestration/job_runner/transform_execution.py:738-747 | After a first heartbeat in time, at every instant up to the last heartbeat the row's expiry lies ahead. |
| `HeartbeatTiming.LateStartLoses` | orchestration/transform_runtime/durable_queue.py:170-179 | A first due heartbeat after the expiry loses the lease for good. |
| `HeartbeatTiming.SlowStartLoses` | orchestration/job_runner/transform_execution.py:667-695 | If polling starts after the claim's lease has run out, the lease is lost if and only if any heartbeat is ever due. |
| `HeartbeatTiming.Heartbeats.Cancel` | orchestration/job_runner/transform_worker.py:205-213 | A heartbeat is due after a third of the lease, in whole seconds and at least one; a due one loses an expired lease and otherwise renews both cells; a poll that is not due changes nothing. |
| `HeartbeatTiming.Heartbeats.PollLoop` | orchestration/job_runner/transform_execution.py:738-747 | The loop over the two cells of the closure computes the run the timing lemmas are about. |
| `ExecutionPlan.LastBatchNeedsAllOthers` | orchestration/transform_runtime/execution_plan.py:48-298 | The last batch of the governed plan is admitted only after every other batch of it has passed in the run. |
| `ExecutionPlan.PlanIsAcyclic` | orchestration/transform_runtime/execution_plan.py:48-298 | Every walk along prerequisites of the governed plan stays in the plan and goes to lower numbers. |
| `ExecutionPlan.PlanTable` | orchestration/transform_runtime/execution_plan.py:48-298 | The direct prerequisites of every batch of the plan, by number, and that numbers tell batches apart. |
| `ExecutionPlan.NeedsExactly` | orchestration/transform_runtime/execution_plan.py:48-298 | The closure of the plan: a walk along prerequisites leads from one batch to another if and only if the other comes before it, but for eight pairs that are named. |
| `ExecutionPlan.AdmittedAfterNeeds` | orchestration/transform_runtime/execution_plan.py:48-298 | Every batch of the plan is admitted only after all batches it needs, directly or not, have passed in the run. |
| `Coordinates.FailureIdRoundTrip` | services/kafka-consumer-events/kafka_consumer_events.py:904-915 | Reading a failure identity from the right gives back the coordinate, for every topic, colons included. |
| `Coordinates.FailureIdInjective` | services/kafka-consumer-events/kafka_consumer_events.py:904-915 | Failure identities are equal exactly for the same source record. |
| `Coordinates.PrintedIdentity` | services/kafka-consumer-events/kafka_consumer_events.py:904-915 | The printed form, topic, partition and offset joined by colons. |
| `Coordinates.RawKeyRoundTrip` | services/kafka-consumer-events/kafka_consumer_events.py:918-924 | The Raw key of a slash-free topic gives back its coordinate, whatever stands in front. |
| `Coordinates.RawKeyInjective` | services/kafka-consumer-events/kafka_consumer_events.py:918-924 | Raw keys of slash-free topics are equal only for the same source record, across dates and categories. |
| `Coordinates.PrintedKey` | services/kafka-consumer-events/kafka_consumer_events.py:918-924 | The printed form of a key below its leading part. |
| `KafkaConsumer.Consumer.ProcessMessage` | services/kafka-consumer-events/kafka_consumer_events.py:1311-1367 | The retry loop, with any outcome of every write, by its number of attempts: all before the last failed transiently, and there is another attempt as long as one may be made; "ok" exactly when the last stored and committed; the DLQ only after a permanent failure or when all MAX_PROCESSING_RETRIES + 1 attempts failed, with one envelope carrying the retries made, and "dlq" only when that was acknowledged and committed; Raw, DLQ, audit and offset afterwards exactly. |
| `KafkaConsumer.ProcessExactly` | services/kafka-consumer-events/kafka_consumer_events.py:1311-1367 | The same of the function the loop computes; a record that does not deserialise goes to the DLQ without an attempt. |
| `KafkaConsumer.FirstSuccessEnds` | services/kafka-consumer-events/kafka_consumer_events.py:1327-1348 | If attempts 0 to j - 1 fail transiently, j is at most MAX_PROCESSING_RETRIES and attempt j stores and commits, then the call ends "ok" after j + 1 attempts with the record in Raw, its offset committed and nothing in the DLQ. |
| `KafkaConsumer.GivenUpOnlyAtTheEnd` | services/kafka-consumer-events/kafka_consumer_events.py:1278-1279 | A record that deserialises is given up only after a permanent failure or after all MAX_PROCESSING_RETRIES + 1 attempts. |
| `KafkaConsumer.Consumer.PublishDlqThenCommit` | services/kafka-consumer-events/kafka_consumer_events.py:1282-1301 | Publishes, then commits only after the acknowledgement; fail-stop otherwise. |
| `KafkaConsumer.Consumer.StoreEvent` | services/kafka-consumer-events/kafka_consumer_events.py:1214-1232 | An existing Raw object is kept; otherwise it appears exactly when the write landed. |
| `ConsumerRuns.AttemptsHandle` | services/kafka-consumer-events/kafka_consumer_events.py:1311-1367 | Every call keeps all Raw objects and envelopes, and moves the committed offset only past its own record, and only if that record is in Raw or in the DLQ. |
| `ConsumerRuns.SkippedExactly` | services/kafka-consumer-events/kafka_consumer_events.py:1327-1327 | A record is passed over if and only if MAX_PROCESSING_RETRIES is negative, and then nothing changes. |
| `ConsumerRuns.OffsetInvariant` | README.md:104-108 | In every state reached by any schedule of deliveries, failures, crashes and restarts, every offset below a committed offset has its Raw object or a DLQ envelope. |
| `ConsumerRuns.NothingIsOverwritten` | services/kafka-consumer-events/kafka_consumer_events.py:1214-1232 | Along any schedule Raw objects are never overwritten and envelopes never withdrawn. |
| `ConsumerRuns.DrainedLosesNothing` | README.md:104-108 | A fully committed log lost no record. |
| `ConsumerConfluence.DrainedExactly` | services/kafka-consumer-events/kafka_consumer_events.py:1282-1367 | When only crashes go wrong, a drained log has in Raw exactly its storable records with their bodies, and in the DLQ exactly the others. |
| `ConsumerConfluence.CrashConfluence` | services/kafka-consumer-events/kafka_consumer_events.py:1214-1232 | Any two crash and restart schedules that drain a log agree on Raw keys, bodies and failure identities, and on the Raw map if every record carries its event id. |
| `ConsumerConfluence.ConfluentExactlyWithEventIds` | services/kafka-consumer-events/kafka_consumer_events.py:1147-1240 | All draining schedules give one Raw map if and only if every storable record carries its event id. |
| `ConsumerConfluence.OnlyMultiplicityGrows` | services/kafka-consumer-events/kafka_consumer_events.py:1282-1301 | A crash-free drain publishes each envelope once; crashes can only add copies, never identities. |
| `ConsumerConfluence.DrainExists` | services/kafka-consumer-events/kafka_consumer_events.py:1470-1519 | Every log has a crash-free schedule that drains it. |
| `ConsumerConfluence.DrainAlways` | services/kafka-consumer-events/kafka_consumer_events.py:1470-1519 | Every schedule, whatever failed, crashed or stopped the consumer in it, goes on to drain the log by a restart if it is down and deliveries without failure; a crash-only schedule stays one. |
| `ReplayDlq.GroupsAreSources` | services/kafka-consumer-events/replay_dlq.py:96-115 | Grouping by failure identity is grouping by source record: legacy envelopes join, others stay out, order and multiplicity are kept. |
| `ReplayDlq.GroupByFailureId` | services/kafka-consumer-events/replay_dlq.py:108-115 | The loop builds, for every identity, exactly its records in scan order. |
| `ReplayDlq.DuplicateGroups` | services/kafka-consumer-events/replay_dlq.py:118-120 | Keeps exactly the groups of more than one record. |
| `ReplayDlq.Replay` | services/kafka-consumer-events/replay_dlq.py:170-241 | Not found, inspected, refused, published or failed, each exactly in its case: an unforced execution is refused exactly when its identity has duplicate envelopes, and nothing is published without being told to execute. |
| `ReplayDlq.DuplicatesAreCopies` | services/kafka-consumer-events/replay_dlq.py:118-120 | The tool counts as many envelopes of a source record as the consumer published. |
| `PlanValidation.ValidateMeans` | services/agent-api/multi_agent.py:86-112 | For a well-formed plan: a list is a permutation of the steps with dependencies first and the plan has no cycle; "circular plan" means a cycle within max_depth exists; the depth error means a dependency walk longer than max_depth exists. Other errors come exactly from plans that are not well formed: too many steps, repeated ids, or the fault of the first faulty step. |
| `PlanValidation.AcyclicShallowPlansPass` | services/agent-api/multi_agent.py:86-112 | A well-formed acyclic plan whose walks fit max_depth is accepted. |
| `PlanValidation.AcceptedExactly` | services/agent-api/multi_agent.py:86-112 | A plan is accepted if and only if it is well formed, acyclic, and its listing has no descent of max_depth + 1 steps each of which, but the last, is met before an earlier listed step or earlier sibling dependency on the way has reached it. |
| `PlanValidation.TooDeepExactly` | services/agent-api/multi_agent.py:99-111 | For a well-formed acyclic plan the depth error is raised exactly for such a descent. |
| `PlanValidation.AcceptedHoweverListed` | services/agent-api/multi_agent.py:86-112 | A well-formed plan is accepted under every order of its steps and of their dependencies if and only if it has no cycle and no dependency walk of more than max_depth steps. |
| `PlanValidation.ListedInOrder` | services/agent-api/multi_agent.py:86-112 | A well-formed plan that lists every step after its dependencies is accepted in its listing order, however long its chains are. |
| `PlanValidation.DeepWalkFirst` | services/agent-api/multi_agent.py:86-112 | A plan that lists the far end of a chain of max_depth + 1 first dependencies first is refused as too deep. |
| `PlanValidation.PlanVisitor.Descend` | services/agent-api/multi_agent.py:99-109 | The closure with its three collections computes the recursion, error or list, and terminates. |
| `PlanValidation.ValidatePlan` | services/agent-api/multi_agent.py:86-112 | The checks and the loop together compute `Validate`, with these errors and this list. |
| `PlanExecution.RunConsistent` | services/agent-api/multi_agent.py:139-173 | After any number of steps each result is the one its dependencies' results determine, and the handled steps are exactly those whose dependencies completed and whose guard allowed it. |
| `PlanExecution.CompletedWasFree` | services/agent-api/multi_agent.py:146-165 | A completed step was handled, was allowed, and had all its dependencies completed. |
| `PlanExecution.DependentsAreSkipped` | services/agent-api/multi_agent.py:146-150 | Every transitive dependent of a step that did not complete is SKIPPED and not handled. |
| `PlanExecution.OrderDoesNotMatter` | services/agent-api/multi_agent.py:139-173 | Two dependency-respecting orders that both run to the end give every step the same result. |
| `PlanExecution.ToolsWithinBudget` | services/agent-api/multi_agent.py:169-171 | The tool counter is the sum over the handled steps and never exceeds max_tool_calls. |
| `PlanExecution.CompletedExactly` | services/agent-api/multi_agent.py:114-196 | After an allowed precheck a returned plan is COMPLETED exactly when it has steps, the final guard allows the return, and every step was free to run, was allowed, and its handler returned a completed result. |
| `PlanExecution.ReturnsExactly` | services/agent-api/multi_agent.py:139-189 | Every step has exactly the status that is called for: SKIPPED for a dependency that did not complete, DENIED or REQUIRES_APPROVAL for the guard's word on a free step, FAILED for a handler that is missing or raises, and otherwise what its handler returned. DENIED is returned exactly if the final guard or some step denies; REQUIRES_APPROVAL exactly if not and the final guard or some step requires approval; otherwise COMPLETED, PARTIAL or FAILED as all, some or none of the steps completed. |
| `PlanExecution.LimitedExactly` | services/agent-api/multi_agent.py:139-171 | A run that ends with a limit did its first steps in a dependency-respecting order, in time and within the tool budget, and the next started too late or its handler reported one call too many. |
| `PlanExecution.RunStep` | services/agent-api/multi_agent.py:137-173 | The body of the loop computes the step's result and counters, limit errors included. |
| `PlanExecution.RunSteps` | services/agent-api/multi_agent.py:137-173 | The loop computes `After`, limit errors included. |
| `PlanExecution.Execute` | services/agent-api/multi_agent.py:114-196 | Precheck, validation, loop and overall status together: a denied or withheld precheck returns at once with no result; otherwise each result and the overall status exactly as called for, all steps in time and within the tool budget; a limit only where a step hits it. |
| `PlanExecution.PlannedIsValid` | services/agent-api/multi_agent.py:36-75 | A plan the deterministic planner makes passes validation, in the planner's order, exactly when max_depth is at least two, or one for a plan that is no chain; otherwise it is refused as too deep. |
| `PlanExecution.PlannedShape` | services/agent-api/multi_agent.py:67-73 | The planner numbers one step per agent in order, and every step but the first depends on the one before it, except for the hybrid pair. |
| `RawToBronze.MoveKeeps` | orchestration/job_runner/raw_to_bronze_executor.py:460-516 | Every operation of every executor, landing or not, keeps the invariant between tables, files and executors. |
| `RawToBronzeRuns.WrittenAndRegisteredOnce` | orchestration/job_runner/raw_to_bronze_executor.py:497-505 | With any number of executors, any interleaving and failures anywhere, no model's parquet is written twice or registered twice, and no table has two files. |
| `RawToBronzeRuns.ReturnMeansPublished` | orchestration/job_runner/raw_to_bronze_executor.py:480-516 | A normal return means that the caller's own path with its row count and columns is the one registered file, in that state and in every later one. |
| `RawToBronzeRuns.WhoPublished` | orchestration/job_runner/raw_to_bronze_executor.py:474-516 | "published" comes from the executor that made, wrote and registered; an executor that returns "already_published" made, wrote and registered nothing. |
| `RawToBronzeRuns.ReturnsAgree` | orchestration/job_runner/raw_to_bronze_executor.py:304-310 | All executors that return for a model belong to one execution with equal rows and columns, and only one of them published. |
| `RawToBronzeRuns.SettledForEver` | orchestration/job_runner/raw_to_bronze_executor.py:329-345 | Once a table's creator is past registering or dead, the table and the model's files never change again. |
| `RawToBronzeRuns.PartialForEver` | orchestration/job_runner/raw_to_bronze_executor.py:480-500 | If the creator dies before registering, nothing of the model ever changes and no executor ever returns for it. |
| `RawToBronzeRuns.CanReturnExactly` | orchestration/job_runner/raw_to_bronze_executor.py:460-516 | From any reachable state some continuation has an executor return for a model if and only if its table was not abandoned by a creator that died before registering a file. |
| `RawToBronzeRuns.Warehouse.ExecuteModel` | orchestration/job_runner/raw_to_bronze_executor.py:460-516 | One call, however it ends: an existing table is never touched and is recognized exactly when it holds the caller's file, rows and columns; otherwise what is left is exactly a table if its creation landed, the file if the table is the caller's own and none lay there, and its registration; "published" exactly when every operation lands and the file has the announced rows. |
| `Splitting.Split` | services/agent-api/knowledge.py:67-82 | The two loops compute `Chunks`. |
| `Splitting.SplitConserves` | services/agent-api/knowledge.py:67-82 | Every chunk fits the size, and the chunks hold the non-white characters of the text, all of them and in order. |
| `Splitting.IngestConserves` | services/agent-api/knowledge.py:46-49 | The same from the document as given, through stripping, line splitting and trimming. |
| `Splitting.NoBlankChunks` | services/agent-api/knowledge.py:67-82 | No chunk is blank, whatever white space the text holds. |
| `Splitting.FirstChunkStartsClean` | services/agent-api/knowledge.py:67-82 | The first chunk does not begin with white space. |
| `Splitting.ParagraphsMean` | services/agent-api/knowledge.py:68-68 | Paragraphs are non-empty, stripped and free of blank lines, hold all of the text, and the text is these paragraphs with a blank line between any two and white space around them. |
| `Splitting.WholeParagraphs` | services/agent-api/knowledge.py:67-82 | When no paragraph exceeds the size, the chunks joined by blank lines are the paragraphs joined by blank lines, and no two neighbouring chunks would have fitted into one. |
| `GreedyChunks.PiecesAreFull` | services/agent-api/knowledge.py:72-72 | A paragraph is cut into full pieces and a last one. |
| `GreedyChunks.ChunksAreGreedy` | services/agent-api/knowledge.py:67-82 | For every text: the pieces of its paragraphs, in groups, make its chunks; each is its group joined by blank lines and stripped, within the size all the way, and the next group's first piece would have made it longer. |
| `Normalization.NormalizeMeans` | services/agent-api/knowledge.py:47-47 | For any layout of a text in lines with any of the line ends of `splitlines`: normalising strips the text, then the right end of each line, and joins the lines by single newlines. |
| `Normalization.NormalizeExactly` | services/agent-api/knowledge.py:47-47 | Every text that is not blank has such a layout, and a blank one normalises to nothing. |
| `PlainParagraphs.ChunksOfJoin` | services/agent-api/knowledge.py:46-82 | One-line paragraphs that fit, no two neighbours of which fit together, are exactly the chunks of their text, through normalising and splitting. |
| `PlainParagraphs.ChunksOfLongLine` | services/agent-api/knowledge.py:67-82 | A long line is cut into full chunks and what is left of it. |
| `Knowledge.LocalKnowledgeRetriever.Ingest` | services/agent-api/knowledge.py:46-65 | The document is stored under the given id or the digest of its source and normalised text; its earlier chunks are gone, and the chunks of the normalised text are there in order, each under the digest of id, ordinal and text; everything else stays. |
| `Knowledge.Open` | services/agent-api/knowledge.py:39-44 | A retriever exists exactly for chunk sizes from 100 to 4000. |
| `Knowledge.IngestKeepsAgreement` | services/agent-api/knowledge.py:46-65 | Ingesting keeps the chunk map exactly the union of the numbered splits of the stored documents, if no document id shadows another within the chunk size. |
| `Knowledge.HistoryAgrees` | services/agent-api/knowledge.py:46-65 | After any sequence of ingests the index is that of the last version of each document. |
| `Knowledge.OrderOfIngestsDoesNotMatter` | services/agent-api/knowledge.py:46-65 | Two histories that end in the same versions end in the same index. |
| `Knowledge.ReingestIsNoOp` | services/agent-api/knowledge.py:46-65 | Re-ingesting an unchanged document changes nothing. |
| `Knowledge.CollideExactly` | services/agent-api/knowledge.py:59-59 | For one-line ids, chunks that `_split` produces for two documents can have one identity exactly when the ids are equal or one shadows the other: an ordinal can be read off behind it, the rest leaves room in a chunk, and for ordinal 0 the rest does not begin with white space. |
| `Knowledge.CollideOnly` | services/agent-api/knowledge.py:59-59 | For arbitrary ids, chunks that `_split` produces can have one identity only if the ids are equal or one shadows the other. |
| `Knowledge.SafeExactly` | services/agent-api/knowledge.py:46-65 | Every history over a set of one-line ids leaves the right index if and only if none of the ids shadows another within the chunk size. |
| `Knowledge.LosesAChunk` | services/agent-api/knowledge.py:46-65 | If a chunk of one document has the identity of another document's only chunk, ingesting both loses it. |
| `Knowledge.BarFreeIsApart` | services/agent-api/knowledge.py:59-59 | Ids without a bar are never shadowed. |
| `Knowledge.BarLosesAChunk` | services/agent-api/knowledge.py:59-59 | The shortest case, for any text: one id extends the other by a bar and a zero. |
| `ToolBudget.WithinBudget` | services/agent-api/tools.py:188-259 | However tools nest, fail and retry: recorded calls never exceed max_tool_calls, executions are exactly the attempts in the records, and at most max_tool_calls times (max_retries + 1). |
| `ToolBudget.CallEnds` | services/agent-api/tools.py:188-259 | A call within the budget leaves one truthful record in its place, failed only for good or after the last permitted attempt; a call over the budget leaves no trace. |
| `ToolBudget.PathMeans` | services/agent-api/tools.py:932-948 | One execution returns a value exactly when its way through the body, given the outcomes of its nested calls, ends in returning it; it fails with an error exactly when the way ends in raising it or in an unhandled nested call that failed with it. |
| `ToolBudget.LastTryAnswers` | services/agent-api/tools.py:209-240 | A call ends as its last try does; all before it failed for a passing reason, and a passing failure is the answer only when the retries are used up. |
| `ToolBudget.CallExtends` | services/agent-api/tools.py:188-259 | Records of earlier calls are final. |
| `ToolBudget.CallAccounts` | services/agent-api/tools.py:209-240 | One call changes executions by exactly the attempts it adds to the records. |
| `ToolBudget.CycleEndsAtTheBound` | services/agent-api/tools.py:193-213 | A tool that calls itself ends, having used the whole budget and not more: the bounds are attained. |
| `ToolBudget.ToolRegistry.Invoke` | services/agent-api/tools.py:188-259 | The retry loop with its nested calls terminates for every behaviour of the tools, and some genuine call leads to its answer: refused exactly over the budget, and otherwise tried as long as tries fail for a passing reason and retries are left, ending as its last try does. |
| `ToolBudget.ToolRegistry.Execute` | services/agent-api/tools.py:932-948 | A tool function that makes further controlled calls answers as its way through the body does: with the value or the error at its end, or with the error of a nested call it does not handle. |
| `Ranking.Rank` | services/agent-api/phase4_agents.py:187-198 | The ranking loop keeps place and value of every row; each value lies `z_score` deviations above the mean of the non-null values, or below for a negative score, and is unusual from two on either side; a null, or any value when all are equal, scores zero and is not; at most a quarter of the non-null values are unusual and none among four. |
| `Ranking.AtMostAQuarter` | services/agent-api/phase4_agents.py:187-198 | At most a quarter of the values can be flagged, whatever they are. |
| `Ranking.ZSquaredBound` | services/agent-api/phase4_agents.py:187-198 | The squared distance of a value from the mean is at most (n - 1) times the variance. |
| `Ranking.NoneAmongFour` | services/agent-api/phase4_agents.py:187-198 | With four or fewer values none is flagged. |
| `Ranking.FiveCanFlag` | services/agent-api/phase4_agents.py:187-198 | Five values can have a flag, so four is exact. |
| `Ranking.QuarterIsReached` | services/agent-api/phase4_agents.py:187-198 | Two of eight values can be flagged, so a quarter is exact. |

## Left out

- Row locking, SKIP LOCKED and isolation: each transaction is one atomic step, including `create_run` and `submit_batch`, which take no locks themselves. The SQL migrations are not part of this model.
- Freshness of lease tokens and identifiers, and a database clock that does not run backwards, are assumptions of the step system.
- `batch_attempts`, the timestamp columns other than acceptance and lease expiry, and the branch column of bootstrap rows.
- The SQLite ledger, which treats ORPHANED runs as active and writes RUN_ events unconditionally.
- The HTTP API and `validate_execution_batch`; in particular idempotent batch resubmission through the API, which runs the QUEUED transition again.
- Completion of runs: nothing in the modelled code sets a run to SUCCEEDED.
- The bounded output buffer, timeouts and signals of `execute`; a child ends with some report after some number of polls.
- HeartbeatTiming.LostOnlyByALateStart: database time and worker time are one real axis; clock drift between them is not modelled.
- Consumer-group rebalancing and zombie consumers, the CDC branch, Avro bytes, back-off delays, and the date and category parts of Raw keys (an arbitrary leading part).
- At-most-once replay: the replay tool keeps no record of earlier replays.
- ConsumerConfluence.CrashConfluence: the outcome of a record is taken to depend on the record; transient failures that exhaust the retries are covered by the offset invariant only.
- Thread races of timed-out tool functions: a timeout ends the execution. Error categories and durations in call records.
- The planner's choice of agents from the words of an objective; its plans are taken for any list of agents.
- ToolBudget.WithinBudget: each execution of a tool function makes finitely many nested calls.
- Knowledge.HistoryAgrees: the truncated SHA-256 digest is taken to be injective.
- Worker.RunOnce: the branch factory, the command builder and `execute` are parameters; logging is left out.
- Knowledge.CollideExactly: for ids that contain line breaks only the direction of `Knowledge.CollideOnly` is stated; a chunk can begin with the remainder of such an id only if normalising leaves it as it is.
- RawToBronze.MoveKeeps: contents of the transformation beyond row count and columns; a file's registered row count is what the writer wrote.
- Floating point: means, deviations and clocks are reals; `sqrt` is exact.
- Retrieval, redaction, SQL classification, provisioning, lifecycle planning and generators.
