/** `PostgresTransformLedger`: admission of runs, batches and bootstraps, and the transition table. */
module LedgerStore {
  import opened Wrappers
  import opened ControlPlane
  import opened Database
  import opened ControlPlaneInvariants
  import Bootstraps

  datatype LedgerError = KeyReused | RunActive | RunNotFound | PrerequisiteIncomplete | InvalidTransition | AlreadyAdmitted

  predicate RunOf(s: State, run: nat, caller: string) {
    run in s.runs && s.runs[run].caller == caller
  }

  /** A run of this caller and key with other terms. */
  predicate RunKeyMisused(s: State, caller: string, key: string, terms: Terms) {
    exists r :: r in s.runs && s.runs[r].caller == caller && s.runs[r].key == key && s.runs[r].terms != terms
  }

  /** A batch execution of this caller and key for something else. */
  predicate BatchKeyMisused(s: State, run: nat, caller: string, key: string, batch: string, fingerprint: string) {
    exists e :: e in s.batches && s.batches[e].caller == caller && s.batches[e].key == key
             && (s.batches[e].run != run || s.batches[e].batch != batch || s.batches[e].fingerprint != fingerprint)
  }

  /** A bootstrap of this caller and key for something else. */
  predicate BootKeyMisused(s: State, run: nat, caller: string, key: string, op: Operation) {
    exists b :: b in s.boots && s.boots[b].caller == caller && s.boots[b].key == key
             && (s.boots[b].run != run || s.boots[b].operation != op.id || s.boots[b].version != op.version || s.boots[b].authority != op.authority)
  }

  /** With unique keys, the one row of a key decides whether the key is misused; without a row it is not. */
  lemma BatchKeyDecides(s: State, run: nat, caller: string, key: string, batch: string, fingerprint: string)
    ensures BatchKeyMisused(s, run, caller, key, batch, fingerprint) ==> BatchKeyTaken(s, caller, key)
    ensures forall e :: e in s.batches && s.batches[e].caller == caller && s.batches[e].key == key ==>
              var differs := s.batches[e].run != run || s.batches[e].batch != batch || s.batches[e].fingerprint != fingerprint;
              (differs ==> BatchKeyMisused(s, run, caller, key, batch, fingerprint))
              && (UniqueBatches(s) && BatchKeyMisused(s, run, caller, key, batch, fingerprint) ==> differs)
  {
  }

  lemma BootKeyDecides(s: State, run: nat, caller: string, key: string, op: Operation)
    ensures BootKeyMisused(s, run, caller, key, op) ==> BootKeyTaken(s, caller, key)
    ensures forall b :: b in s.boots && s.boots[b].caller == caller && s.boots[b].key == key ==>
              var differs := s.boots[b].run != run || s.boots[b].operation != op.id
                             || s.boots[b].version != op.version || s.boots[b].authority != op.authority;
              (differs ==> BootKeyMisused(s, run, caller, key, op))
              && (Bootstraps.BootsInv(s) && BootKeyMisused(s, run, caller, key, op) ==> differs)
  {
  }

  /** Some batch execution of the run ended SUCCEEDED with its tests PASSED. */
  predicate HasPassed(batches: map<nat, BatchRow>, run: nat, batch: string) {
    exists e :: e in batches && batches[e].run == run && batches[e].batch == batch
             && batches[e].status == SUCCEEDED && batches[e].test == Some(PASSED)
  }

  /** The moves of the transition table. */
  const MOVES: set<(Status, Status)> := {
    (ADMITTED, QUEUED), (ADMITTED, CANCELLED),
    (QUEUED, RUNNING), (QUEUED, CANCELLED), (QUEUED, ORPHANED),
    (RUNNING, TESTING), (RUNNING, FAILED), (RUNNING, CANCELLED), (RUNNING, ORPHANED),
    (TESTING, SUCCEEDED), (TESTING, FAILED), (TESTING, CANCELLED), (TESTING, ORPHANED)
  }

  lemma NotFailingStays(s: State, run: nat, status: Status, e: nat, failure: Option<string>)
    requires !Failing(status)
    ensures EndParent(s, run, status, e, failure) == s && RunFollows(s, s, run, status, e, failure)
  {
  }

  lemma MovesAreAllowed(from: Status, to: Status)
    ensures Allowed(from, to) <==> (from, to) in MOVES
  {
  }

  class TransformLedger {
    const db: Tables

    constructor (db: Tables)
      ensures this.db == db
    {
      this.db := db;
    }

    method CreateRun(id: nat, caller: string, key: string, terms: Terms) returns (out: Result<RunRow, LedgerError>)
      requires id !in db.runs
      modifies db
      ensures db.Snapshot() == ControlPlane.CreateRun(old(db.Snapshot()), id, caller, key, terms)
      ensures out.Success? ==> out.value in db.runs.Values && out.value.caller == caller && out.value.key == key && out.value.terms == terms
      ensures out.Failure? ==> db.Snapshot() == old(db.Snapshot())
      ensures out == Failure(RunActive) <==> !RunKeyTaken(old(db.Snapshot()), caller, key) && SomeRunOpen(old(db.Snapshot()))
      ensures out == Failure(RunActive) ==>
                && (exists r :: r in old(db.runs) && old(db.runs)[r].status !in {SUCCEEDED, FAILED, CANCELLED, ORPHANED})
                && forall r :: r in old(db.runs) ==> old(db.runs)[r].caller != caller || old(db.runs)[r].key != key
      ensures out.Failure? ==> out.error == RunActive || out.error == KeyReused
      ensures out == Failure(KeyReused) ==> RunKeyMisused(old(db.Snapshot()), caller, key, terms)
      ensures UniqueRuns(old(db.Snapshot())) ==> (out == Failure(KeyReused) <==> RunKeyMisused(old(db.Snapshot()), caller, key, terms))
      ensures out.Success? && RunKeyTaken(old(db.Snapshot()), caller, key) ==> out.value in old(db.runs.Values)
      ensures out.Success? && !RunKeyTaken(old(db.Snapshot()), caller, key) ==> id in db.runs && out.value == db.runs[id] && out.value.status == ADMITTED
      ensures out.Success? && (forall r :: r in old(db.runs) ==> old(db.runs)[r].caller != caller || old(db.runs)[r].key != key) ==>
                && (forall r :: r in old(db.runs) ==> old(db.runs)[r].status in {SUCCEEDED, FAILED, CANCELLED, ORPHANED})
                && out.value == RunRow(caller, key, terms, ADMITTED)
                && db.Snapshot() == old(db.Snapshot()).(
                     runs := old(db.runs)[id := out.value], events := old(db.events) + [Event(id, None, RunAdmitted(caller))])
      ensures RunKeyTaken(old(db.Snapshot()), caller, key) ==> db.Snapshot() == old(db.Snapshot())
    {
      if exists r :: r in db.runs && db.runs[r].caller == caller && db.runs[r].key == key {
        var r :| r in db.runs && db.runs[r].caller == caller && db.runs[r].key == key;
        if db.runs[r].terms != terms { return Failure(KeyReused); }
        return Success(db.runs[r]);
      }
      if exists r :: r in db.runs && !Terminal(db.runs[r].status) {
        return Failure(RunActive);
      }
      db.runs := db.runs[id := RunRow(caller, key, terms, ADMITTED)];
      db.WriteEvent(Event(id, None, RunAdmitted(caller)));
      return Success(db.runs[id]);
    }

    method SubmitBatch(id: nat, run: nat, caller: string, key: string, batch: Batch, fingerprint: string, at: int)
      returns (out: Result<BatchRow, LedgerError>)
      requires id !in db.batches
      modifies db
      ensures db.Snapshot() == ControlPlane.SubmitBatch(old(db.Snapshot()), id, run, caller, key, batch, fingerprint, at)
      ensures out.Success? ==> out.value in db.batches.Values && out.value.run == run && out.value.batch == batch.id
      ensures out.Failure? ==> db.Snapshot() == old(db.Snapshot())
      ensures out == Failure(RunNotFound) <==> !RunOf(old(db.Snapshot()), run, caller)
      ensures out == Failure(PrerequisiteIncomplete) <==>
                && RunOf(old(db.Snapshot()), run, caller)
                && !BatchKeyTaken(old(db.Snapshot()), caller, key) && !BatchOpen(old(db.Snapshot()), run, batch.id)
                && exists p :: p in batch.prerequisites && !Passed(old(db.Snapshot()), run, p)
      ensures out == Failure(PrerequisiteIncomplete) ==> exists p :: p in batch.prerequisites && !HasPassed(old(db.batches), run, p)
      ensures out.Failure? ==> out.error == RunNotFound || out.error == PrerequisiteIncomplete || out.error == KeyReused
      ensures out == Failure(KeyReused) ==>
                RunOf(old(db.Snapshot()), run, caller) && BatchKeyMisused(old(db.Snapshot()), run, caller, key, batch.id, fingerprint)
      ensures UniqueBatches(old(db.Snapshot())) ==>
                (out == Failure(KeyReused) <==>
                   RunOf(old(db.Snapshot()), run, caller) && BatchKeyMisused(old(db.Snapshot()), run, caller, key, batch.id, fingerprint))
      ensures out.Success? && BatchKeyTaken(old(db.Snapshot()), caller, key) ==>
                out.value in old(db.batches.Values) && out.value.caller == caller && out.value.key == key && out.value.fingerprint == fingerprint
      ensures out.Success? && !BatchKeyTaken(old(db.Snapshot()), caller, key) && BatchOpen(old(db.Snapshot()), run, batch.id) ==>
                out.value in old(db.batches.Values) && !Terminal(out.value.status)
      ensures MayAdmit(old(db.Snapshot()), run, caller, key, batch) ==> id in db.batches && out == Success(db.batches[id])
      ensures out.Success? && !BatchKeyTaken(old(db.Snapshot()), caller, key) && !BatchOpen(old(db.Snapshot()), run, batch.id) ==> id in db.batches
      ensures id in db.batches ==>
                && run in old(db.runs) && old(db.runs)[run].caller == caller
                && (forall p :: p in batch.prerequisites ==> HasPassed(old(db.batches), run, p))
                && db.batches[id] == BatchRow(run, caller, key, batch.id, batch.authority, fingerprint, at,
                                              ADMITTED, None, None, None, false, None)
                && db.Snapshot() == old(db.Snapshot()).(
                     batches := old(db.batches)[id := db.batches[id]],
                     events := old(db.events) + [Event(run, Some(id), BatchAdmitted(batch.id, batch.authority))])
      ensures id !in db.batches ==> db.Snapshot() == old(db.Snapshot())
    {
      BatchKeyDecides(db.Snapshot(), run, caller, key, batch.id, fingerprint);
      hide BatchKeyMisused, UniqueBatches;
      if run !in db.runs || db.runs[run].caller != caller { return Failure(RunNotFound); }
      if exists e :: e in db.batches && db.batches[e].caller == caller && db.batches[e].key == key {
        var e :| e in db.batches && db.batches[e].caller == caller && db.batches[e].key == key;
        var prior := db.batches[e];
        if prior.run != run || prior.batch != batch.id || prior.fingerprint != fingerprint { return Failure(KeyReused); }
        return Success(prior);
      }
      if exists e :: e in db.batches && db.batches[e].run == run && db.batches[e].batch == batch.id && !Terminal(db.batches[e].status) {
        var e :| e in db.batches && db.batches[e].run == run && db.batches[e].batch == batch.id && !Terminal(db.batches[e].status);
        return Success(db.batches[e]);
      }
      var pending := batch.prerequisites;
      while pending != {}
        invariant pending <= batch.prerequisites
        invariant forall p :: p in batch.prerequisites - pending ==> Passed(db.Snapshot(), run, p)
        decreases pending
      {
        var p :| p in pending;
        if !exists e :: e in db.batches && PassedRow(db.batches[e], run, p) {
          assert !Passed(db.Snapshot(), run, p);
          return Failure(PrerequisiteIncomplete);
        }
        pending := pending - {p};
      }
      db.batches := db.batches[id := NewBatchRow(run, caller, key, batch, fingerprint, at)];
      db.WriteEvent(Event(run, Some(id), BatchAdmitted(batch.id, batch.authority)));
      return Success(db.batches[id]);
    }

    method Transition(e: nat, to: Status, test: Option<TestStatus>, failure: Option<string>) returns (out: Result<BatchRow, LedgerError>)
      modifies db
      ensures db.Snapshot() == ControlPlane.Transition(old(db.Snapshot()), e, to, test, failure)
      ensures out.Success? <==> e in old(db.batches) && Allowed(old(db.batches)[e].status, to)
      ensures out.Success? ==> e in db.batches && out.value == db.batches[e] && out.value.status == to
      ensures out.Success? <==> e in old(db.batches) && (old(db.batches)[e].status, to) in MOVES
      ensures out.Success? ==>
                RowEnds(old(db.Snapshot()), db.Snapshot(), e, old(db.batches)[e].(status := to, test := test, failure := failure), failure, failure)
      ensures out.Failure? ==> db.Snapshot() == old(db.Snapshot())
    {
      hide Allowed, MOVES, EndParent, RunFollows, Failing;
      if e in db.batches { MovesAreAllowed(db.batches[e].status, to); }
      if e !in db.batches || !Allowed(db.batches[e].status, to) { return Failure(InvalidTransition); }
      var run := db.batches[e].run;
      db.batches := db.batches[e := db.batches[e].(status := to, test := test, failure := failure)];
      db.WriteEvent(Event(run, Some(e), Entered(to, failure)));
      if Failing(to) {
        db.TerminalizeParent(run, e, to, failure);
      } else {
        NotFailingStays(db.Snapshot(), run, to, e, failure);
      }
      return Success(db.batches[e]);
    }

    method SubmitBootstrap(id: nat, run: nat, caller: string, key: string, op: Operation, at: int) returns (out: Result<BootRow, LedgerError>)
      requires id !in db.boots
      modifies db
      ensures db.Snapshot() == SubmitBoot(old(db.Snapshot()), id, run, caller, key, op, at)
      ensures out.Success? ==> out.value in db.boots.Values
      ensures out.Success? ==> out.value.run == run && out.value.operation == op.id && out.value.version == op.version
      ensures out.Failure? ==> db.Snapshot() == old(db.Snapshot())
      ensures out == Failure(RunNotFound) <==> run !in old(db.runs)
      ensures out.Failure? ==>
                out.error == RunNotFound || out.error == AlreadyAdmitted || out.error == PrerequisiteIncomplete || out.error == KeyReused
      ensures out == Failure(KeyReused) ==> run in old(db.runs) && BootKeyMisused(old(db.Snapshot()), run, caller, key, op)
      ensures Bootstraps.BootsInv(old(db.Snapshot())) ==>
                (out == Failure(KeyReused) <==> run in old(db.runs) && BootKeyMisused(old(db.Snapshot()), run, caller, key, op))
      ensures out == Failure(AlreadyAdmitted) <==>
                run in old(db.runs) && !BootKeyTaken(old(db.Snapshot()), caller, key) && BootAdmitted(old(db.Snapshot()), run, op.id, op.version)
      ensures out == Failure(PrerequisiteIncomplete) <==>
                && run in old(db.runs) && !BootKeyTaken(old(db.Snapshot()), caller, key)
                && !BootAdmitted(old(db.Snapshot()), run, op.id, op.version) && !Passed(old(db.Snapshot()), run, op.prerequisite)
      ensures out == Failure(AlreadyAdmitted) ==>
                exists b :: b in old(db.boots) && old(db.boots)[b].run == run
                         && old(db.boots)[b].operation == op.id && old(db.boots)[b].version == op.version
      ensures out == Failure(PrerequisiteIncomplete) ==> !HasPassed(old(db.batches), run, op.prerequisite)
      ensures out.Success? && BootKeyTaken(old(db.Snapshot()), caller, key) ==>
                out.value in old(db.boots.Values) && out.value.caller == caller && out.value.key == key
      ensures MayAdmitBoot(old(db.Snapshot()), run, caller, key, op) ==> id in db.boots && out == Success(db.boots[id])
      ensures out.Success? && !BootKeyTaken(old(db.Snapshot()), caller, key) ==> id in db.boots
      ensures id in db.boots ==>
                forall b :: b in old(db.boots) && old(db.boots)[b].run == run && old(db.boots)[b].operation == op.id ==>
                  old(db.boots)[b].version != op.version
      ensures id in db.boots ==>
                && run in old(db.runs) && HasPassed(old(db.batches), run, op.prerequisite)
                && db.boots[id] == BootRow(run, caller, key, op.id, op.version, op.authority, at, ADMITTED, NOT_STARTED, None, None, false)
                && db.Snapshot() == old(db.Snapshot()).(
                     boots := old(db.boots)[id := db.boots[id]],
                     events := old(db.events) + [Event(run, Some(id), BootstrapAdmitted(op.id, op.version, op.authority))])
      ensures id !in db.boots ==> db.Snapshot() == old(db.Snapshot())
    {
      BootKeyDecides(db.Snapshot(), run, caller, key, op);
      hide BootKeyMisused, Bootstraps.BootsInv;
      if run !in db.runs { return Failure(RunNotFound); }
      if exists b :: b in db.boots && db.boots[b].caller == caller && db.boots[b].key == key {
        var b :| b in db.boots && db.boots[b].caller == caller && db.boots[b].key == key;
        var prior := db.boots[b];
        if (prior.run, prior.operation, prior.version, prior.authority) != (run, op.id, op.version, op.authority) {
          return Failure(KeyReused);
        }
        return Success(prior);
      }
      if exists b :: b in db.boots && db.boots[b].run == run && db.boots[b].operation == op.id && db.boots[b].version == op.version {
        return Failure(AlreadyAdmitted);
      }
      if !exists e :: e in db.batches && PassedRow(db.batches[e], run, op.prerequisite) {
        return Failure(PrerequisiteIncomplete);
      }
      db.boots := db.boots[id := NewBootRow(run, caller, key, op, at)];
      db.WriteEvent(Event(run, Some(id), BootstrapAdmitted(op.id, op.version, op.authority)));
      return Success(db.boots[id]);
    }

    method QueueBootstrap(b: nat) returns (out: Result<BootRow, LedgerError>)
      modifies db
      ensures db.Snapshot() == QueueBoot(old(db.Snapshot()), b)
      ensures out.Success? <==> b in old(db.boots) && old(db.boots)[b].status == ADMITTED
      ensures out.Success? ==> db.Snapshot() == old(db.Snapshot()).(boots := old(db.boots)[b := old(db.boots)[b].(status := QUEUED)])
      ensures out.Failure? ==> db.Snapshot() == old(db.Snapshot())
    {
      if b !in db.boots || db.boots[b].status != ADMITTED { return Failure(InvalidTransition); }
      db.boots := db.boots[b := db.boots[b].(status := QUEUED)];
      return Success(db.boots[b]);
    }
  }
}
