/** `PostgresDurableQueue`: claims, leases and terminal states of batch executions and bootstraps. */
module QueueStore {
  import opened Wrappers
  import opened ControlPlane
  import opened Database

  datatype QueueError = LeaseLost | TerminalStatusRequired | NotFound | BranchConflict | NoReconciliation

  /** The order in which rows are served: by acceptance, then by identity. */
  predicate Precedes(at: int, e: nat, bt: int, f: nat) {
    at < bt || (at == bt && e <= f)
  }

  predicate NextInLine(batches: map<nat, BatchRow>, e: nat) {
    && e in batches && Claimable(batches[e])
    && forall f :: f in batches && Claimable(batches[f]) ==> Precedes(batches[e].acceptedAt, e, batches[f].acceptedAt, f)
  }

  /** A queued row without a cancel request that no other such row precedes in (accepted_at, id). */
  predicate FirstQueued(batches: map<nat, BatchRow>, e: nat) {
    && e in batches && batches[e].status == QUEUED && !batches[e].cancelRequested
    && forall f :: f in batches && f != e && batches[f].status == QUEUED && !batches[f].cancelRequested ==>
         batches[e].acceptedAt < batches[f].acceptedAt || (batches[e].acceptedAt == batches[f].acceptedAt && e < f)
  }

  predicate NextBootInLine(boots: map<nat, BootRow>, b: nat) {
    && b in boots && ClaimableBoot(boots[b])
    && forall f :: f in boots && ClaimableBoot(boots[f]) ==> boots[b].acceptedAt <= boots[f].acceptedAt
  }

  ghost predicate First(at: map<nat, int>, waiting: set<nat>, e: nat)
    requires waiting <= at.Keys
  {
    e in waiting && forall f :: f in waiting ==> Precedes(at[e], e, at[f], f)
  }

  /** Among finitely many waiting rows one is first. */
  lemma {:induction false} FirstExists(at: map<nat, int>, waiting: set<nat>)
    requires waiting != {} && waiting <= at.Keys
    ensures exists e :: First(at, waiting, e)
    decreases |waiting|
  {
    var x :| x in waiting;
    if waiting == {x} {
      assert First(at, waiting, x);
    } else {
      var rest := waiting - {x};
      FirstExists(at, rest);
      var y :| First(at, rest, y);
      var e := if Precedes(at[x], x, at[y], y) then x else y;
      assert First(at, waiting, e);
    }
  }

  lemma NextExists(batches: map<nat, BatchRow>)
    requires exists e :: e in batches && Claimable(batches[e])
    ensures exists e :: NextInLine(batches, e)
  {
    var waiting := set e | e in batches && Claimable(batches[e]);
    var at := map e | e in batches :: batches[e].acceptedAt;
    var x :| x in batches && Claimable(batches[x]);
    assert x in waiting;
    FirstExists(at, waiting);
    var e :| First(at, waiting, e);
    forall f | f in batches && Claimable(batches[f])
      ensures Precedes(batches[e].acceptedAt, e, batches[f].acceptedAt, f)
    {
      assert f in waiting;
    }
    assert NextInLine(batches, e);
  }

  lemma NextBootExists(boots: map<nat, BootRow>)
    requires exists b :: b in boots && ClaimableBoot(boots[b])
    ensures exists b :: NextBootInLine(boots, b)
  {
    var waiting := set b | b in boots && ClaimableBoot(boots[b]);
    var at := map b | b in boots :: boots[b].acceptedAt;
    var x :| x in boots && ClaimableBoot(boots[x]);
    assert x in waiting;
    FirstExists(at, waiting);
    var b :| First(at, waiting, b);
    forall f | f in boots && ClaimableBoot(boots[f])
      ensures boots[b].acceptedAt <= boots[f].acceptedAt
    {
      assert f in waiting;
      assert Precedes(at[b], b, at[f], f);
    }
    assert NextBootInLine(boots, b);
  }

  /** The lease columns name this worker and token. */
  predicate LeasedTo(lease: Option<Lease>, worker: string, token: nat) {
    lease.Some? && lease.value.owner == worker && lease.value.token == token
  }

  /** Exactly the rows of `ids` ended ORPHANED with their lease gone. */
  ghost predicate RowsOrphaned(s: State, t: State, ids: seq<nat>) {
    && t.batches.Keys == s.batches.Keys
    && forall e :: e in s.batches ==>
         t.batches[e] == if e in ids then s.batches[e].(status := ORPHANED, lease := None,
                                                        failure := Some("WORKER_LEASE_EXPIRED_REQUIRES_RECONCILIATION"))
                         else s.batches[e]
  }

  predicate RunHit(s: State, ids: seq<nat>, r: nat) {
    exists e :: e in ids && e in s.batches && s.batches[e].run == r
  }

  /** Exactly the open runs of these rows ended ORPHANED with them. */
  ghost predicate RunsOrphaned(s: State, t: State, ids: seq<nat>) {
    && t.runs.Keys == s.runs.Keys
    && forall r :: r in s.runs ==>
         t.runs[r] == if RunHit(s, ids, r) && s.runs[r].status !in {SUCCEEDED, FAILED, CANCELLED, ORPHANED}
                      then s.runs[r].(status := ORPHANED) else s.runs[r]
  }

  /** Each of these ends is in the new part of the journal. */
  ghost predicate OrphansJournaled(s: State, t: State, ids: seq<nat>) {
    && s.events <= t.events
    && forall e :: e in ids && e in s.batches ==>
         Event(s.batches[e].run, Some(e), Entered(ORPHANED, Some("WORKER_LEASE_EXPIRED_REQUIRES_RECONCILIATION"))) in t.events[|s.events|..]
  }

  lemma {:induction false} ReconcileEffect(s: State, ids: seq<nat>)
    requires forall i :: 0 <= i < |ids| ==> Expired(s, ids[i])
    requires forall i, j :: 0 <= i < j < |ids| ==> ids[i] != ids[j]
    ensures RowsOrphaned(s, Reconcile(s, ids), ids) && Reconcile(s, ids).clock == s.clock
    ensures RunsOrphaned(s, Reconcile(s, ids), ids)
    ensures OrphansJournaled(s, Reconcile(s, ids), ids)
  {
    if ids != [] {
      var front, e := ids[..|ids| - 1], ids[|ids| - 1];
      assert forall i :: 0 <= i < |front| ==> front[i] == ids[i];
      ReconcileEffect(s, front);
      var mid := Reconcile(s, front);
      assert ids == front + [e];
      assert e !in front;
      assert mid.batches[e] == s.batches[e] && Expired(mid, e) && mid.clock == s.clock;
      assert Reconcile(s, ids) == Orphan(mid, e, EXPIRED_CLASS);
      hide *;
      MoreRows(s, mid, front, e);
      MoreRuns(s, mid, front, e);
      MoreJournal(s, mid, front, e);
    }
  }

  lemma MoreRows(s: State, mid: State, front: seq<nat>, e: nat)
    requires e in s.batches && e in mid.batches && e !in front && RowsOrphaned(s, mid, front)
    ensures RowsOrphaned(s, Orphan(mid, e, EXPIRED_CLASS), front + [e])
    ensures Orphan(mid, e, EXPIRED_CLASS).clock == mid.clock
  {
  }

  lemma HitMore(s: State, front: seq<nat>, e: nat, r: nat)
    requires e in s.batches
    ensures RunHit(s, front + [e], r) <==> RunHit(s, front, r) || r == s.batches[e].run
  {
    assert e in front + [e];
    if RunHit(s, front, r) {
      var f :| f in front && f in s.batches && s.batches[f].run == r;
      assert f in front + [e];
    }
  }

  lemma MoreRuns(s: State, mid: State, front: seq<nat>, e: nat)
    requires e in s.batches && e in mid.batches && mid.batches[e] == s.batches[e] && RunsOrphaned(s, mid, front)
    ensures RunsOrphaned(s, Orphan(mid, e, EXPIRED_CLASS), front + [e])
  {
    var t := Orphan(mid, e, EXPIRED_CLASS);
    forall r | r in s.runs
      ensures RunHit(s, front + [e], r) <==> RunHit(s, front, r) || r == s.batches[e].run
    {
      HitMore(s, front, e, r);
    }
    hide RunHit;
  }

  lemma MoreJournal(s: State, mid: State, front: seq<nat>, e: nat)
    requires e in s.batches && e in mid.batches && mid.batches[e] == s.batches[e] && OrphansJournaled(s, mid, front)
    ensures OrphansJournaled(s, Orphan(mid, e, EXPIRED_CLASS), front + [e])
  {
    var t := Orphan(mid, e, EXPIRED_CLASS);
    var ev := Event(s.batches[e].run, Some(e), Entered(ORPHANED, Some(EXPIRED_CLASS)));
    assert t.events[|mid.events|] == ev;
    assert ev == t.events[|s.events|..][|mid.events| - |s.events|];
    assert mid.events[|s.events|..] <= t.events[|s.events|..];
    forall f | f in front + [e] && f in s.batches
      ensures Event(s.batches[f].run, Some(f), Entered(ORPHANED, Some(EXPIRED_CLASS))) in t.events[|s.events|..]
    {
      if f != e { assert f in front; }
    }
  }

  /** Exactly the bootstraps of `ids` ended ORPHANED, without a lease and in need of reconciliation. */
  ghost predicate BootsOrphaned(before: map<nat, BootRow>, after: map<nat, BootRow>, ids: seq<nat>) {
    && after.Keys == before.Keys
    && forall b :: b in before ==>
         after[b] == if b in ids then before[b].(status := ORPHANED, publication := RECONCILIATION_REQUIRED, lease := None,
                                                 failure := Some("WORKER_LEASE_EXPIRED_REQUIRES_RECONCILIATION"))
                     else before[b]
  }

  lemma {:induction false} ReconciledRow(s: State, rows: seq<nat>, b: nat)
    requires b in s.boots
    ensures b in ReconcileBoots(s, rows).boots
    ensures ReconcileBoots(s, rows).boots[b] == if b in rows && ExpiredBoot(s, b) then OrphanBoot(s, b).boots[b] else s.boots[b]
    ensures ReconcileBoots(s, rows).clock == s.clock
  {
    if rows != [] {
      var front := rows[..|rows| - 1];
      assert rows == front + [rows[|rows| - 1]];
      ReconciledRow(s, front, b);
    }
  }

  lemma BootsEffect(s: State, ids: seq<nat>)
    requires forall b :: b in ids ==> ExpiredBoot(s, b)
    ensures BootsOrphaned(s.boots, ReconcileBoots(s, ids).boots, ids)
  {
    hide ReconcileBoots;
    BootKeys(s, ids);
    forall b | b in s.boots
      ensures b in ReconcileBoots(s, ids).boots
      ensures ReconcileBoots(s, ids).boots[b] == if b in ids then OrphanBoot(s, b).boots[b] else s.boots[b]
    {
      ReconciledRow(s, ids, b);
    }
  }

  lemma {:induction false} BootKeys(s: State, ids: seq<nat>)
    ensures ReconcileBoots(s, ids).boots.Keys == s.boots.Keys
  {
    if ids != [] { BootKeys(s, ids[..|ids| - 1]); }
  }

  class DurableQueue {
    const db: Tables

    constructor (db: Tables)
      ensures this.db == db
    {
      this.db := db;
    }

    method Claim(worker: string, token: nat, lease: int) returns (out: Option<nat>)
      requires token !in db.issued
      modifies db
      ensures out.None? <==> !exists e :: e in old(db.batches) && Claimable(old(db.batches)[e])
      ensures out.None? ==> db.Snapshot() == old(db.Snapshot())
      ensures out.Some? ==> NextInLine(old(db.batches), out.value)
      ensures out.Some? ==> db.Snapshot() == ControlPlane.Claim(old(db.Snapshot()), out.value, worker, token, lease)
      ensures out.Some? ==> Owns(db.Snapshot(), out.value, worker, token)
      ensures out.None? <==> forall e :: e in old(db.batches) ==> old(db.batches)[e].status != QUEUED || old(db.batches)[e].cancelRequested
      ensures out.Some? ==> FirstQueued(old(db.batches), out.value)
      ensures out.Some? ==>
                var row := old(db.batches)[out.value];
                db.Snapshot() == old(db.Snapshot()).(
                  batches := old(db.batches)[out.value := row.(status := RUNNING, lease := Some(Lease(worker, token, old(db.clock) + lease)))],
                  events := old(db.events) + [Event(row.run, Some(out.value), Claimed(worker, token))],
                  issued := old(db.issued) + {token})
    {
      if !exists e :: e in db.batches && Claimable(db.batches[e]) {
        return None;
      }
      NextExists(db.batches);
      var e :| NextInLine(db.batches, e);
      var run := db.batches[e].run;
      db.issued := db.issued + {token};
      db.batches := db.batches[e := db.batches[e].(status := RUNNING, lease := Some(Lease(worker, token, db.clock + lease)))];
      db.WriteEvent(Event(run, Some(e), Claimed(worker, token)));
      return Some(e);
    }

    method Heartbeat(e: nat, worker: string, token: nat, lease: int) returns (renewed: bool)
      modifies db`batches
      ensures db.Snapshot() == ControlPlane.Heartbeat(old(db.Snapshot()), e, worker, token, lease)
      ensures renewed <==> Holds(old(db.Snapshot()), e, worker, token)
      ensures renewed <==>
                && e in old(db.batches) && old(db.batches)[e].status in {RUNNING, TESTING}
                && LeasedTo(old(db.batches)[e].lease, worker, token) && old(db.clock) <= old(db.batches)[e].lease.value.expires
      ensures renewed ==>
                db.batches == old(db.batches)[e := old(db.batches)[e].(lease := Some(Lease(worker, token, old(db.clock) + lease)))]
      ensures !renewed ==> db.batches == old(db.batches)
    {
      if e !in db.batches { return false; }
      var row := db.batches[e];
      if row.lease.None? || row.lease.value.owner != worker || row.lease.value.token != token || !Active(row.status) { return false; }
      if row.lease.value.expires < db.clock { return false; }
      db.batches := db.batches[e := row.(lease := Some(row.lease.value.(expires := db.clock + lease)))];
      return true;
    }

    method RecordBranch(e: nat, worker: string, token: nat, branch: string) returns (out: Result<string, QueueError>)
      modifies db`batches
      ensures db.Snapshot() == ControlPlane.RecordBranch(old(db.Snapshot()), e, worker, token, branch)
      ensures out.Success? <==> Holds(old(db.Snapshot()), e, worker, token) && BranchFits(old(db.batches)[e], branch)
      ensures out.Success? ==> out.value == branch
      ensures out.Success? ==>
                && (old(db.batches)[e].branch.None? || old(db.batches)[e].branch == Some(branch))
                && db.batches == old(db.batches)[e := old(db.batches)[e].(branch := Some(branch))]
      ensures out.Failure? ==> db.batches == old(db.batches)
      ensures out == Failure(BranchConflict) <==>
                && Owns(old(db.Snapshot()), e, worker, token)
                && old(db.batches)[e].branch.Some? && old(db.batches)[e].branch.value != branch
      ensures out.Failure? ==> out.error == BranchConflict || out.error == LeaseLost
    {
      if e !in db.batches { return Failure(LeaseLost); }
      var row := db.batches[e];
      if row.lease.None? || row.lease.value.owner != worker || row.lease.value.token != token || !Active(row.status) { return Failure(LeaseLost); }
      if row.branch.Some? && row.branch.value != branch { return Failure(BranchConflict); }
      if row.lease.value.expires < db.clock { return Failure(LeaseLost); }
      db.batches := db.batches[e := row.(branch := Some(branch))];
      return Success(branch);
    }

    method CancelRequestedFor(e: nat, worker: string, token: nat) returns (out: Result<bool, QueueError>)
      ensures out == if Owns(db.Snapshot(), e, worker, token) then Success(db.batches[e].cancelRequested) else Failure(LeaseLost)
      ensures out.Success? <==>
                e in db.batches && db.batches[e].status in {RUNNING, TESTING} && LeasedTo(db.batches[e].lease, worker, token)
    {
      if e !in db.batches { return Failure(LeaseLost); }
      var row := db.batches[e];
      if row.lease.None? || row.lease.value.owner != worker || row.lease.value.token != token || !Active(row.status) { return Failure(LeaseLost); }
      return Success(row.cancelRequested);
    }

    method RequestCancel(e: nat) returns (out: Result<BatchRow, QueueError>)
      modifies db
      ensures db.Snapshot() == ControlPlane.RequestCancel(old(db.Snapshot()), e)
      ensures out.Success? <==> e in old(db.batches)
      ensures out.Success? ==> e in db.batches && out.value == db.batches[e]
      ensures out.Failure? ==> out.error == NotFound && db.Snapshot() == old(db.Snapshot())
      ensures out.Success? && old(db.batches)[e].status in {SUCCEEDED, FAILED, CANCELLED, ORPHANED} ==> db.Snapshot() == old(db.Snapshot())
      ensures out.Success? && old(db.batches)[e].status in {ADMITTED, QUEUED} ==>
                RowEnds(old(db.Snapshot()), db.Snapshot(), e,
                        old(db.batches)[e].(cancelRequested := true, status := CANCELLED, lease := None, failure := Some("OPERATOR_CANCELLED")),
                        None, Some("OPERATOR_CANCELLED"))
      ensures out.Success? && old(db.batches)[e].status in {RUNNING, TESTING} ==>
                db.Snapshot() == old(db.Snapshot()).(
                  batches := old(db.batches)[e := old(db.batches)[e].(cancelRequested := true)],
                  events := old(db.events) + [Event(old(db.batches)[e].run, Some(e), CancelRequested)])
    {
      if e !in db.batches { return Failure(NotFound); }
      var row := db.batches[e];
      if Terminal(row.status) { return Success(row); }
      if row.status == ADMITTED || row.status == QUEUED {
        db.batches := db.batches[e := row.(cancelRequested := true, status := CANCELLED, lease := None, failure := Some("OPERATOR_CANCELLED"))];
        db.WriteEvent(Event(row.run, Some(e), Entered(CANCELLED, None)));
        db.TerminalizeParent(row.run, e, CANCELLED, Some("OPERATOR_CANCELLED"));
        return Success(db.batches[e]);
      }
      db.batches := db.batches[e := row.(cancelRequested := true)];
      db.WriteEvent(Event(row.run, Some(e), CancelRequested));
      return Success(db.batches[e]);
    }

    method Finish(e: nat, worker: string, token: nat, status: Status, test: Option<TestStatus>, failure: Option<string>)
      returns (out: Result<BatchRow, QueueError>)
      modifies db
      ensures db.Snapshot() == ControlPlane.Finish(old(db.Snapshot()), e, worker, token, status, test, failure)
      ensures out.Success? <==> Terminal(status) && Holds(old(db.Snapshot()), e, worker, token)
      ensures out.Success? ==> e in db.batches && out.value == db.batches[e]
      ensures out.Success? ==> status in {SUCCEEDED, FAILED, CANCELLED, ORPHANED}
      ensures out.Success? ==>
                RowEnds(old(db.Snapshot()), db.Snapshot(), e,
                        old(db.batches)[e].(status := status, test := test, failure := failure, lease := None), failure, failure)
      ensures out.Failure? ==> db.Snapshot() == old(db.Snapshot())
      ensures out == Failure(TerminalStatusRequired) <==> status !in {SUCCEEDED, FAILED, CANCELLED, ORPHANED}
      ensures out.Failure? ==> out.error == TerminalStatusRequired || out.error == LeaseLost
    {
      if !Terminal(status) { return Failure(TerminalStatusRequired); }
      if e !in db.batches { return Failure(LeaseLost); }
      var row := db.batches[e];
      if row.lease.None? || row.lease.value.owner != worker || row.lease.value.token != token || !Active(row.status) { return Failure(LeaseLost); }
      if row.lease.value.expires < db.clock { return Failure(LeaseLost); }
      db.batches := db.batches[e := row.(status := status, test := test, failure := failure, lease := None)];
      db.WriteEvent(Event(row.run, Some(e), Entered(status, failure)));
      db.TerminalizeParent(row.run, e, status, failure);
      return Success(db.batches[e]);
    }

    method OrphanIfOwned(e: nat, worker: string, token: nat, reason: string) returns (done: bool)
      modifies db
      ensures db.Snapshot() == ControlPlane.OrphanIfOwned(old(db.Snapshot()), e, worker, token, reason)
      ensures done <==> Owns(old(db.Snapshot()), e, worker, token)
      ensures done <==>
                e in old(db.batches) && old(db.batches)[e].status in {RUNNING, TESTING} && LeasedTo(old(db.batches)[e].lease, worker, token)
      ensures done ==>
                RowEnds(old(db.Snapshot()), db.Snapshot(), e,
                        old(db.batches)[e].(status := ORPHANED, failure := Some(reason), lease := None), Some(reason), Some(reason))
      ensures !done ==> db.Snapshot() == old(db.Snapshot())
    {
      if e !in db.batches { return false; }
      var row := db.batches[e];
      if row.lease.None? || row.lease.value.owner != worker || row.lease.value.token != token || !Active(row.status) { return false; }
      db.batches := db.batches[e := row.(status := ORPHANED, lease := None, failure := Some(reason))];
      db.WriteEvent(Event(row.run, Some(e), Entered(ORPHANED, Some(reason))));
      db.TerminalizeParent(row.run, e, ORPHANED, Some(reason));
      return true;
    }

    method RejectPrerequisiteIfOwned(e: nat, worker: string, token: nat, reason: string) returns (done: bool)
      modifies db
      ensures db.Snapshot() == RejectPrerequisite(old(db.Snapshot()), e, worker, token, reason)
      ensures done <==> Owns(old(db.Snapshot()), e, worker, token)
      ensures done ==>
                var row := old(db.batches)[e].(status := ORPHANED, failure := Some(reason), lease := None);
                db.Snapshot() == old(db.Snapshot()).(
                  batches := old(db.batches)[e := row],
                  events := old(db.events) + [Event(row.run, Some(e), Entered(ORPHANED, Some(reason)))])
      ensures !done ==> db.Snapshot() == old(db.Snapshot())
    {
      if e !in db.batches { return false; }
      var row := db.batches[e];
      if row.lease.None? || row.lease.value.owner != worker || row.lease.value.token != token || !Active(row.status) { return false; }
      db.batches := db.batches[e := row.(status := ORPHANED, lease := None, failure := Some(reason))];
      db.WriteEvent(Event(row.run, Some(e), Entered(ORPHANED, Some(reason))));
      return true;
    }

    /** All expired rows are orphaned, each once, in the order `ids`; none is left expired. */
    method ReconcileExpired() returns (ids: seq<nat>)
      modifies db`batches, db`runs, db`events
      ensures db.Snapshot() == Reconcile(old(db.Snapshot()), ids)
      ensures forall e :: e in ids <==> Expired(old(db.Snapshot()), e)
      ensures forall i, j :: 0 <= i < j < |ids| ==> ids[i] != ids[j]
      ensures forall e :: !Expired(db.Snapshot(), e)
      ensures forall e :: e in ids <==>
                && e in old(db.batches) && old(db.batches)[e].status in {RUNNING, TESTING}
                && old(db.batches)[e].lease.Some? && old(db.batches)[e].lease.value.expires < old(db.clock)
      ensures RowsOrphaned(old(db.Snapshot()), db.Snapshot(), ids)
      ensures RunsOrphaned(old(db.Snapshot()), db.Snapshot(), ids)
      ensures OrphansJournaled(old(db.Snapshot()), db.Snapshot(), ids)
    {
      hide RowsOrphaned, RunsOrphaned, OrphansJournaled, RunHit;
      ids := [];
      var rows := set e | e in db.batches && Expired(db.Snapshot(), e);
      while rows != {}
        invariant db.Snapshot() == Reconcile(old(db.Snapshot()), ids)
        invariant forall e :: e in rows <==> Expired(db.Snapshot(), e)
        invariant forall e :: Expired(old(db.Snapshot()), e) <==> (e in rows || e in ids)
        invariant forall e :: e in ids ==> e !in rows
        invariant forall i, j :: 0 <= i < j < |ids| ==> ids[i] != ids[j]
        decreases rows
      {
        var e :| e in rows;
        var row := db.batches[e];
        db.batches := db.batches[e := row.(status := ORPHANED, lease := None, failure := Some(EXPIRED_CLASS))];
        db.WriteEvent(Event(row.run, Some(e), Entered(ORPHANED, Some(EXPIRED_CLASS))));
        db.TerminalizeParent(row.run, e, ORPHANED, Some(EXPIRED_CLASS));
        assert (ids + [e])[..|ids|] == ids;
        ids, rows := ids + [e], rows - {e};
      }
      ReconcileEffect(old(db.Snapshot()), ids);
    }

    // -------------------------------------------------------------- protected bootstraps

    method ClaimBootstrap(worker: string, token: nat, lease: int) returns (out: Option<(nat, bool)>)
      requires token !in db.issued
      modifies db
      ensures out.None? <==> !exists b :: b in old(db.boots) && ClaimableBoot(old(db.boots)[b])
      ensures out.None? ==> db.Snapshot() == old(db.Snapshot())
      ensures out.Some? ==> NextBootInLine(old(db.boots), out.value.0)
      ensures out.Some? ==> (out.value.1 <==> old(db.boots)[out.value.0].status == RECONCILE_QUEUED)
      ensures out.Some? ==> db.Snapshot() == ClaimBoot(old(db.Snapshot()), out.value.0, worker, token, lease)
      ensures out.None? <==>
                forall b :: b in old(db.boots) ==> old(db.boots)[b].status !in {QUEUED, RECONCILE_QUEUED} || old(db.boots)[b].cancelRequested
      ensures out.Some? ==>
                var row := old(db.boots)[out.value.0];
                && row.status in {QUEUED, RECONCILE_QUEUED} && !row.cancelRequested
                && db.Snapshot() == old(db.Snapshot()).(
                     boots := old(db.boots)[out.value.0 := row.(
                       status := RUNNING, publication := if out.value.1 then RECONCILING else BUILDING_STAGING,
                       lease := Some(Lease(worker, token, old(db.clock) + lease)))],
                     issued := old(db.issued) + {token})
    {
      if !exists b :: b in db.boots && ClaimableBoot(db.boots[b]) {
        return None;
      }
      NextBootExists(db.boots);
      var b :| NextBootInLine(db.boots, b);
      var row := db.boots[b];
      var reconciliationOnly := row.status == RECONCILE_QUEUED;
      db.issued := db.issued + {token};
      db.boots := db.boots[b := row.(status := RUNNING,
                                     publication := if reconciliationOnly then RECONCILING else BUILDING_STAGING,
                                     lease := Some(Lease(worker, token, db.clock + lease)))];
      return Some((b, reconciliationOnly));
    }

    method HeartbeatBootstrap(b: nat, worker: string, token: nat, lease: int) returns (renewed: bool)
      modifies db`boots
      ensures db.Snapshot() == HeartbeatBoot(old(db.Snapshot()), b, worker, token, lease)
      ensures renewed <==> OwnsBoot(old(db.Snapshot()), b, worker, token) && old(db.clock) <= old(db.boots)[b].lease.value.expires
      ensures renewed <==>
                && b in old(db.boots) && old(db.boots)[b].status == RUNNING
                && LeasedTo(old(db.boots)[b].lease, worker, token) && old(db.clock) <= old(db.boots)[b].lease.value.expires
      ensures renewed ==> db.boots == old(db.boots)[b := old(db.boots)[b].(lease := Some(Lease(worker, token, old(db.clock) + lease)))]
      ensures !renewed ==> db.boots == old(db.boots)
    {
      if b !in db.boots { return false; }
      var row := db.boots[b];
      if row.lease.None? || row.lease.value.owner != worker || row.lease.value.token != token || row.status != RUNNING { return false; }
      if row.lease.value.expires < db.clock { return false; }
      db.boots := db.boots[b := row.(lease := Some(row.lease.value.(expires := db.clock + lease)))];
      return true;
    }

    method CancelRequestedForBootstrap(b: nat, worker: string, token: nat) returns (out: Result<bool, QueueError>)
      ensures out == if OwnsBoot(db.Snapshot(), b, worker, token) then Success(db.boots[b].cancelRequested) else Failure(LeaseLost)
    {
      if b !in db.boots { return Failure(LeaseLost); }
      var row := db.boots[b];
      if row.lease.None? || row.lease.value.owner != worker || row.lease.value.token != token || row.status != RUNNING {
        return Failure(LeaseLost);
      }
      return Success(row.cancelRequested);
    }

    method RequestCancelBootstrap(b: nat) returns (out: Result<BootRow, QueueError>)
      modifies db`boots
      ensures db.Snapshot() == RequestCancelBoot(old(db.Snapshot()), b)
      ensures out.Success? <==> b in old(db.boots)
      ensures out.Success? ==> b in db.boots && out.value == db.boots[b]
      ensures out.Failure? ==> db.boots == old(db.boots)
      ensures out.Success? && old(db.boots)[b].status in {SUCCEEDED, FAILED, CANCELLED, ORPHANED} ==> db.boots == old(db.boots)
      ensures out.Success? && old(db.boots)[b].status in {ADMITTED, QUEUED} ==>
                db.boots == old(db.boots)[b := old(db.boots)[b].(cancelRequested := true, status := CANCELLED,
                                                                 publication := NOT_STARTED, failure := Some("OPERATOR_CANCELLED"))]
      ensures out.Success? && old(db.boots)[b].status in {RUNNING, TESTING, RECONCILE_QUEUED} ==>
                db.boots == old(db.boots)[b := old(db.boots)[b].(cancelRequested := true, publication := RECONCILIATION_REQUIRED)]
    {
      if b !in db.boots { return Failure(NotFound); }
      var row := db.boots[b];
      if Terminal(row.status) { return Success(row); }
      if row.status == ADMITTED || row.status == QUEUED {
        db.boots := db.boots[b := row.(cancelRequested := true, status := CANCELLED, publication := NOT_STARTED,
                                       failure := Some("OPERATOR_CANCELLED"))];
      } else {
        db.boots := db.boots[b := row.(cancelRequested := true, publication := RECONCILIATION_REQUIRED)];
      }
      return Success(db.boots[b]);
    }

    method RequestReconcileBootstrap(b: nat) returns (out: Result<BootRow, QueueError>)
      modifies db`boots
      ensures db.Snapshot() == RequestReconcileBoot(old(db.Snapshot()), b)
      ensures out.Success? <==> b in old(db.boots) && Reconcilable(old(db.boots)[b])
      ensures out.Success? <==>
                b in old(db.boots) && old(db.boots)[b].status in {ORPHANED, FAILED} && old(db.boots)[b].publication == RECONCILIATION_REQUIRED
      ensures out.Success? ==>
                && db.boots == old(db.boots)[b := old(db.boots)[b].(status := RECONCILE_QUEUED, cancelRequested := false, failure := None)]
                && out.value == db.boots[b]
      ensures out.Failure? ==> db.boots == old(db.boots) && out.error == (if b in old(db.boots) then NoReconciliation else NotFound)
    {
      if b !in db.boots { return Failure(NotFound); }
      var row := db.boots[b];
      if (row.status != ORPHANED && row.status != FAILED) || row.publication != RECONCILIATION_REQUIRED {
        return Failure(NoReconciliation);
      }
      db.boots := db.boots[b := row.(status := RECONCILE_QUEUED, cancelRequested := false, failure := None)];
      return Success(db.boots[b]);
    }

    method FinishBootstrap(b: nat, worker: string, token: nat, status: Status, publication: Publication, failure: Option<string>)
      returns (out: Result<BootRow, QueueError>)
      modifies db`boots
      ensures db.Snapshot() == FinishBoot(old(db.Snapshot()), b, worker, token, status, publication, failure)
      ensures out.Success? <==> Terminal(status) && OwnsBoot(old(db.Snapshot()), b, worker, token)
      ensures out.Success? <==>
                && status in {SUCCEEDED, FAILED, CANCELLED, ORPHANED}
                && b in old(db.boots) && old(db.boots)[b].status == RUNNING && LeasedTo(old(db.boots)[b].lease, worker, token)
      ensures out.Success? ==>
                && db.boots == old(db.boots)[b := old(db.boots)[b].(status := status, publication := publication, failure := failure, lease := None)]
                && out.value == db.boots[b]
      ensures out.Failure? ==> db.boots == old(db.boots)
    {
      if !Terminal(status) { return Failure(TerminalStatusRequired); }
      if b !in db.boots { return Failure(LeaseLost); }
      var row := db.boots[b];
      if row.lease.None? || row.lease.value.owner != worker || row.lease.value.token != token || row.status != RUNNING {
        return Failure(LeaseLost);
      }
      ghost var before := db.Snapshot();
      assert FinishBoot(before, b, worker, token, status, publication, failure)
          == AmendBoot(before, b, row.(status := status, publication := publication, failure := failure, lease := None));
      hide OwnsBoot, FinishBoot;
      db.boots := db.boots[b := row.(status := status, publication := publication, failure := failure, lease := None)];
      return Success(db.boots[b]);
    }

    method ReconcileExpiredBootstraps() returns (ids: seq<nat>)
      modifies db`boots
      ensures db.Snapshot() == ReconcileBoots(old(db.Snapshot()), ids)
      ensures forall b :: b in ids <==> ExpiredBoot(old(db.Snapshot()), b)
      ensures forall i, j :: 0 <= i < j < |ids| ==> ids[i] != ids[j]
      ensures forall b :: !ExpiredBoot(db.Snapshot(), b)
      ensures forall b :: b in ids <==>
                && b in old(db.boots) && old(db.boots)[b].status == RUNNING
                && old(db.boots)[b].lease.Some? && old(db.boots)[b].lease.value.expires < old(db.clock)
      ensures BootsOrphaned(old(db.boots), db.boots, ids)
    {
      hide BootsOrphaned;
      ids := [];
      var rows := set b | b in db.boots && ExpiredBoot(db.Snapshot(), b);
      while rows != {}
        invariant db.Snapshot() == ReconcileBoots(old(db.Snapshot()), ids)
        invariant forall b :: b in rows <==> ExpiredBoot(db.Snapshot(), b)
        invariant forall b :: ExpiredBoot(old(db.Snapshot()), b) <==> (b in rows || b in ids)
        invariant forall b :: b in ids ==> b !in rows
        invariant forall i, j :: 0 <= i < j < |ids| ==> ids[i] != ids[j]
        decreases rows
      {
        var b :| b in rows;
        db.boots := db.boots[b := db.boots[b].(status := ORPHANED, publication := RECONCILIATION_REQUIRED, lease := None,
                                               failure := Some(EXPIRED_CLASS))];
        assert (ids + [b])[..|ids|] == ids;
        ids, rows := ids + [b], rows - {b};
      }
      BootsEffect(old(db.Snapshot()), ids);
    }
  }
}
