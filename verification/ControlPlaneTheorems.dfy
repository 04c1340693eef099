/**
  What holds over whole behaviours of the control plane: any number of API callers,
  workers and reconcilers, interleaved transaction by transaction.
*/
module ControlPlaneTheorems {
  import opened Wrappers
  import opened ControlPlane
  import opened ControlPlaneInvariants

  // ---------------------------------------------------------------- what only grows

  /** `t` comes after `s`: the journal is extended, identities are kept, ended rows are frozen. */
  ghost predicate Later(s: State, t: State) {
    && t.catalog == s.catalog && s.clock <= t.clock && s.issued <= t.issued && s.events <= t.events
    && (forall r :: r in s.runs ==> r in t.runs && (Terminal(s.runs[r].status) ==> t.runs[r] == s.runs[r]))
    && (forall e :: e in s.batches ==>
          && e in t.batches && SameIdentity(s.batches[e], t.batches[e])
          && (Terminal(s.batches[e].status) ==> t.batches[e] == s.batches[e]))
  }

  lemma LaterTransitive(s: State, t: State, u: State)
    requires Later(s, t) && Later(t, u)
    ensures Later(s, u)
  {
  }

  lemma AdvanceLater(s: State, e: nat, row: BatchRow, kind: Kind)
    requires e in s.batches && !Terminal(s.batches[e].status) && SameIdentity(s.batches[e], row)
    ensures Later(s, Advance(s, e, row, kind))
  {
  }

  lemma EndParentLater(s: State, run: nat, status: Status, cause: nat, failure: Option<string>)
    ensures Later(s, EndParent(s, run, status, cause, failure))
  {
  }

  lemma {:induction false} ReconcileLater(s: State, rows: seq<nat>)
    ensures Later(s, Reconcile(s, rows))
  {
    if rows != [] {
      ReconcileLater(s, rows[..|rows| - 1]);
      var s1 := Reconcile(s, rows[..|rows| - 1]);
      var e := rows[|rows| - 1];
      if Expired(s1, e) {
        OrphanLater(s1, e, EXPIRED_CLASS);
        LaterTransitive(s, s1, Orphan(s1, e, EXPIRED_CLASS)) by { hide *; }
      }
    }
  }

  lemma OrphanLater(s: State, e: nat, failure: string)
    requires e in s.batches && !Terminal(s.batches[e].status)
    ensures Later(s, Orphan(s, e, failure))
  {
    hide Later;
    var s1 := Close(s, e, ORPHANED, s.batches[e].test, Some(failure));
    AdvanceLater(s, e, Ended(s.batches[e], ORPHANED, s.batches[e].test, Some(failure)), Entered(ORPHANED, Some(failure)));
    EndParentLater(s1, s.batches[e].run, ORPHANED, e, Some(failure));
    LaterTransitive(s, s1, Orphan(s, e, failure));
  }

  lemma AmendLater(s: State, e: nat, row: BatchRow)
    requires e in s.batches && !Terminal(s.batches[e].status) && SameIdentity(s.batches[e], row)
    ensures Later(s, Amend(s, e, row))
  {
  }

  lemma AddLater(s: State, t: State)
    requires t.catalog == s.catalog && t.clock == s.clock && t.issued == s.issued && s.events <= t.events
    requires forall r :: r in s.runs ==> r in t.runs && t.runs[r] == s.runs[r]
    requires forall e :: e in s.batches ==> e in t.batches && t.batches[e] == s.batches[e]
    ensures Later(s, t)
  {
  }

  lemma ClaimLater(s: State, e: nat, worker: string, token: nat, lease: int)
    ensures Later(s, Claim(s, e, worker, token, lease))
  {
  }

  lemma RequestCancelLater(s: State, e: nat)
    ensures Later(s, RequestCancel(s, e))
  {
    hide Later;
    LaterReflexive(s);
    if e in s.batches && !Terminal(s.batches[e].status) {
      var row := s.batches[e].(cancelRequested := true);
      if s.batches[e].status in {ADMITTED, QUEUED} {
        AdvanceThenEnd(s, e, Ended(row, CANCELLED, row.test, Some("OPERATOR_CANCELLED")), Entered(CANCELLED, None),
                       CANCELLED, Some("OPERATOR_CANCELLED"));
      } else {
        AmendLater(s, e, row);
        AddLater(Amend(s, e, row), RequestCancel(s, e));
        LaterTransitive(s, Amend(s, e, row), RequestCancel(s, e));
      }
    }
  }

  lemma BootLater(s: State, action: BootAction)
    ensures Later(s, ApplyBoot(s, action))
  {
    if action.DoReconcileBoots? {
      ReconcileBootsFrame(s, action.rows);
    }
  }

  lemma StepLater(s: State, step: Step)
    requires Enabled(s, step)
    ensures Later(s, Apply(s, step))
  {
    hide Later;
    LaterReflexive(s);
    match step {
      case Tick(now) => TickLater(s, now);
      case DoCreateRun(r, caller, key, terms) =>
        if !RunKeyTaken(s, caller, key) && !SomeRunOpen(s) { AddLater(s, AddRun(s, r, caller, key, terms)); }
      case DoSubmitBatch(e, run, caller, key, batch, fingerprint, at) =>
        if MayAdmit(s, run, caller, key, batch) { AddLater(s, AddBatch(s, e, run, caller, key, batch, fingerprint, at)); }
      case DoTransition(e, to, test, failure) =>
        if e in s.batches && Allowed(s.batches[e].status, to) {
          var row := s.batches[e].(status := to, test := test, failure := failure);
          AdvanceThenEnd(s, e, row, Entered(to, failure), to, failure);
        }
      case DoClaim(e, worker, token, lease) => ClaimLater(s, e, worker, token, lease);
      case DoHeartbeat(e, worker, token, lease) =>
        if Holds(s, e, worker, token) { AmendLater(s, e, s.batches[e].(lease := Some(Lease(worker, token, s.clock + lease)))); }
      case DoRecordBranch(e, worker, token, branch) =>
        if Holds(s, e, worker, token) && BranchFits(s.batches[e], branch) { AmendLater(s, e, s.batches[e].(branch := Some(branch))); }
      case DoRequestCancel(e) => RequestCancelLater(s, e);
      case DoFinish(e, worker, token, status, test, failure) =>
        if Terminal(status) && Holds(s, e, worker, token) {
          AdvanceThenEnd(s, e, Ended(s.batches[e], status, test, failure), Entered(status, failure), status, failure);
        }
      case DoOrphan(e, worker, token, reason) =>
        if Owns(s, e, worker, token) { OrphanLater(s, e, reason); }
      case DoReject(e, worker, token, reason) =>
        if Owns(s, e, worker, token) {
          AdvanceLater(s, e, Ended(s.batches[e], ORPHANED, s.batches[e].test, Some(reason)), Entered(ORPHANED, Some(reason)));
        }
      case DoReconcile(rows) => ReconcileLater(s, rows);
      case BootStep(action) => BootLater(s, action);
    }
  }

  lemma TickLater(s: State, now: int)
    requires s.clock <= now
    ensures Later(s, s.(clock := now))
  {
  }

  lemma AdvanceThenEnd(s: State, e: nat, row: BatchRow, kind: Kind, status: Status, failure: Option<string>)
    requires e in s.batches && !Terminal(s.batches[e].status) && SameIdentity(s.batches[e], row)
    ensures Later(s, EndParent(Advance(s, e, row, kind), row.run, status, e, failure))
  {
    hide Later;
    AdvanceLater(s, e, row, kind);
    EndParentLater(Advance(s, e, row, kind), row.run, status, e, failure);
    LaterTransitive(s, Advance(s, e, row, kind), EndParent(Advance(s, e, row, kind), row.run, status, e, failure));
  }

  lemma {:induction false} TraceLater(tr: Trace, m: nat, n: nat)
    requires Valid(tr) && m <= n < |tr.states|
    ensures Later(tr.states[m], tr.states[n])
  {
    if m < n {
      hide Later;
      TraceLater(tr, m, n - 1);
      StepLater(tr.states[n - 1], tr.steps[n - 1]);
      LaterTransitive(tr.states[m], tr.states[n - 1], tr.states[n]);
    } else {
      LaterReflexive(tr.states[n]);
    }
  }

  lemma LaterReflexive(s: State)
    ensures Later(s, s)
  {
  }

  // ---------------------------------------------------------------- journal refinement

  /** Folding the journal gives the current status of every run and every batch execution, and of nothing else. */
  lemma JournalRefinement(tr: Trace, n: nat)
    requires Valid(tr) && n < |tr.states|
    ensures forall e: nat :: BatchStatus(tr.states[n].events, e) ==
              if e in tr.states[n].batches then Some(tr.states[n].batches[e].status) else None
    ensures forall r: nat :: RunStatus(tr.states[n].events, r) ==
              if r in tr.states[n].runs then Some(tr.states[n].runs[r].status) else None
  {
    TraceKeeps(tr, n);
    JournalOf(tr.states[n]);
  }

  lemma JournalOf(s: State)
    requires Inv(s)
    ensures JournalAgrees(s)
  {
    hide References, UniqueRuns, UniqueBatches, JournalAgrees, ClaimsOnce, EndsOnce, RunsEndOnce, Leases, AdmissionsFollowPasses, ExecutionsAdmitted;
  }

  // ---------------------------------------------------------------- claimed once, ended once, frozen for ever

  /** Each batch execution is claimed at most once and ends at most once, and no token serves two claims. */
  lemma ClaimedAndEndedAtMostOnce(tr: Trace, n: nat, i: nat, j: nat)
    requires Valid(tr) && n < |tr.states| && i < j < |tr.states[n].events|
    ensures var a, b := tr.states[n].events[i], tr.states[n].events[j];
      && (a.kind.Claimed? && b.kind.Claimed? ==> a.exec != b.exec && a.kind.token != b.kind.token)
      && (IsEnd(a) && IsEnd(b) ==> a.exec != b.exec)
      && (a.kind.RunEnded? && b.kind.RunEnded? ==> a.run != b.run)
  {
    TraceKeeps(tr, n);
    EventsOnce(tr.states[n]);
  }

  lemma EventsOnce(s: State)
    requires Inv(s)
    ensures ClaimsOnce(s) && EndsOnce(s) && RunsEndOnce(s)
  {
    hide References, UniqueRuns, UniqueBatches, JournalAgrees, ClaimsOnce, EndsOnce, RunsEndOnce, Leases, AdmissionsFollowPasses, ExecutionsAdmitted;
  }

  /** A batch execution is ended exactly when the journal holds its terminal event, which names its status. */
  lemma EndedExactlyWhenJournaled(tr: Trace, n: nat, e: nat)
    requires Valid(tr) && n < |tr.states| && e in tr.states[n].batches
    ensures var s := tr.states[n];
      Terminal(s.batches[e].status) <==> exists k :: 0 <= k < |s.events| && EndOf(s.events[k], e, s.batches[e].status)
  {
    var s := tr.states[n];
    TraceKeeps(tr, n);
    JournalOf(s);
    EventsOnce(s);
    if Terminal(s.batches[e].status) {
      EndHasEvent(s, e);
    }
  }

  lemma EndHasEvent(s: State, e: nat)
    requires JournalAgrees(s) && e in s.batches && Terminal(s.batches[e].status)
    ensures exists k :: 0 <= k < |s.events| && EndOf(s.events[k], e, s.batches[e].status)
  {
    assert BatchStatus(s.events, e) == Some(s.batches[e].status);
    StatusHasEvent(s.events, e);
    var k :| 0 <= k < |s.events| && s.events[k].exec == Some(e) && Announces(s.events[k].kind) == Some(s.batches[e].status);
    assert EndOf(s.events[k], e, s.batches[e].status);
  }

  /** Once ended, the whole row of a batch execution stays as it is, whoever calls whatever. */
  lemma EndedForEver(tr: Trace, m: nat, n: nat, e: nat)
    requires Valid(tr) && m <= n < |tr.states|
    requires e in tr.states[m].batches && Terminal(tr.states[m].batches[e].status)
    ensures e in tr.states[n].batches && tr.states[n].batches[e] == tr.states[m].batches[e]
  {
    TraceLater(tr, m, n);
  }

  // ---------------------------------------------------------------- leases

  /** One row under reconciliation: untouched, or orphaned because its lease had expired. */
  lemma {:induction false} ReconcileRow(s: State, rows: seq<nat>, e: nat)
    ensures var t := Reconcile(s, rows);
      && t.clock == s.clock && t.batches.Keys == s.batches.Keys && t.runs.Keys == s.runs.Keys
      && (e in s.batches ==>
            || t.batches[e] == s.batches[e]
            || (Expired(s, e) && t.batches[e] == Ended(s.batches[e], ORPHANED, s.batches[e].test, Some(EXPIRED_CLASS))))
  {
    if rows != [] {
      ReconcileRow(s, rows[..|rows| - 1], e);
    }
  }

  lemma HeldBeforeBoot(s: State, action: BootAction, e: nat, worker: string, token: nat)
    requires Holds(ApplyBoot(s, action), e, worker, token)
    ensures Holds(s, e, worker, token)
  {
    if action.DoReconcileBoots? {
      ReconcileBootsFrame(s, action.rows);
    }
  }

  lemma HeldBeforeTransition(s: State, x: nat, to: Status, test: Option<TestStatus>, failure: Option<string>,
                             e: nat, worker: string, token: nat)
    requires Leases(s) && Holds(Transition(s, x, to, test, failure), e, worker, token)
    ensures Holds(s, e, worker, token)
  {
  }

  lemma HeldBeforeCancel(s: State, x: nat, e: nat, worker: string, token: nat)
    requires Holds(RequestCancel(s, x), e, worker, token)
    ensures Holds(s, e, worker, token)
  {
  }

  /** Whoever holds an unexpired lease after a step held it, unexpired, before the step, or took it by claiming. */
  lemma HeldBefore(s: State, step: Step, e: nat, worker: string, token: nat)
    requires Leases(s) && Enabled(s, step) && Holds(Apply(s, step), e, worker, token)
    ensures Holds(s, e, worker, token) || ClaimsBy(s, step, e, worker, token)
  {
    hide Leases, Transition, RequestCancel, Reconcile, ApplyBoot;
    match step {
      case DoTransition(x, to, test, failure) => HeldBeforeTransition(s, x, to, test, failure, e, worker, token);
      case DoRequestCancel(x) => HeldBeforeCancel(s, x, e, worker, token);
      case DoReconcile(rows) => ReconcileRow(s, rows, e);
      case BootStep(action) => HeldBeforeBoot(s, action, e, worker, token);
      case _ =>
    }
  }

  predicate ClaimsBy(s: State, step: Step, e: nat, worker: string, token: nat) {
    && step.DoClaim? && step.e == e && step.worker == worker && step.token == token
    && e in s.batches && Claimable(s.batches[e])
  }

  ghost predicate ClaimedAt(tr: Trace, c: int, e: nat, worker: string, token: nat) {
    0 <= c < |tr.steps| && c < |tr.states| && ClaimsBy(tr.states[c], tr.steps[c], e, worker, token)
  }

  lemma LeasesOf(s: State)
    requires Inv(s)
    ensures Leases(s)
  {
    hide References, UniqueRuns, UniqueBatches, JournalAgrees, ClaimsOnce, EndsOnce, RunsEndOnce, Leases, AdmissionsFollowPasses, ExecutionsAdmitted;
  }

  /**
    Lease continuity: a lease that is live now was taken by one claim, and was live in every
    state in between: no heartbeat ever revived it after it had expired.
  */
  lemma {:induction false} LeaseContinuity(tr: Trace, n: nat, e: nat, worker: string, token: nat)
    requires Valid(tr) && n < |tr.states| && Holds(tr.states[n], e, worker, token)
    ensures exists c :: c < n && ClaimedAt(tr, c, e, worker, token)
              && forall j :: c < j <= n ==> Holds(tr.states[j], e, worker, token)
  {
    if n == 0 {
      assert false;
    } else {
      TraceKeeps(tr, n - 1);
      LeasesOf(tr.states[n - 1]);
      HeldStep(tr, n - 1, e, worker, token);
      if ClaimedAt(tr, n - 1, e, worker, token) {
      } else {
        LeaseContinuity(tr, n - 1, e, worker, token);
        var c :| c < n - 1 && ClaimedAt(tr, c, e, worker, token)
                 && forall j :: c < j <= n - 1 ==> Holds(tr.states[j], e, worker, token);
        assert forall j :: c < j <= n ==> Holds(tr.states[j], e, worker, token);
      }
    }
  }

  lemma HeldStep(tr: Trace, k: nat, e: nat, worker: string, token: nat)
    requires Valid(tr) && k < |tr.steps| && Leases(tr.states[k]) && Holds(tr.states[k + 1], e, worker, token)
    ensures Holds(tr.states[k], e, worker, token) || ClaimedAt(tr, k, e, worker, token)
  {
    hide Leases;
    HeldBefore(tr.states[k], tr.steps[k], e, worker, token);
  }

  /** No batch execution is claimed by two steps of a behaviour. */
  lemma OneClaim(tr: Trace, c: nat, d: nat, e: nat, w1: string, t1: nat, w2: string, t2: nat)
    requires Valid(tr) && ClaimedAt(tr, c, e, w1, t1) && ClaimedAt(tr, d, e, w2, t2)
    ensures c == d
  {
    if c < d {
      NotClaimableAfterClaim(tr, c, d, e, w1, t1);
    } else if d < c {
      NotClaimableAfterClaim(tr, d, c, e, w2, t2);
    }
  }

  lemma NotClaimableAfterClaim(tr: Trace, c: nat, d: nat, e: nat, worker: string, token: nat)
    requires Valid(tr) && ClaimedAt(tr, c, e, worker, token) && c < d < |tr.states|
    ensures e in tr.states[d].batches && !Unclaimed(tr.states[d].batches[e].status)
  {
    var s, t := tr.states[c + 1], tr.states[d];
    var k := |tr.states[c].events|;
    assert s == Apply(tr.states[c], tr.steps[c]);
    assert s.events[k] == Event(s.batches[e].run, Some(e), Claimed(worker, token));
    TraceLater(tr, c + 1, d);
    assert t.events[k] == s.events[k];
    TraceKeeps(tr, d);
    EventsOnce(t) by { hide Inv, ClaimsOnce, EndsOnce, RunsEndOnce; }
  }

  /**
    Fencing: a `finish` that changes anything presents the token of the only claim its batch
    execution ever had, and the lease of that claim was live from the claim to the finish.
  */
  lemma FinishIsFenced(tr: Trace, n: nat)
    requires Valid(tr) && n < |tr.steps| && tr.steps[n].DoFinish? && tr.states[n + 1] != tr.states[n]
    ensures var step := tr.steps[n];
      exists c :: c < n && ClaimedAt(tr, c, step.e, step.worker, step.token)
        && (forall j :: c < j <= n ==> Holds(tr.states[j], step.e, step.worker, step.token))
        && (forall d, w, t :: ClaimedAt(tr, d, step.e, w, t) ==> d == c)
  {
    var step := tr.steps[n];
    FinishNeedsLease(tr, n);
    LeaseContinuity(tr, n, step.e, step.worker, step.token);
    var c :| c < n && ClaimedAt(tr, c, step.e, step.worker, step.token)
             && forall j :: c < j <= n ==> Holds(tr.states[j], step.e, step.worker, step.token);
    forall d, w, t | ClaimedAt(tr, d, step.e, w, t)
      ensures d == c
    {
      OneClaim(tr, c, d, step.e, step.worker, step.token, w, t);
    }
  }

  lemma FinishNeedsLease(tr: Trace, n: nat)
    requires Valid(tr) && n < |tr.steps| && tr.steps[n].DoFinish? && tr.states[n + 1] != tr.states[n]
    ensures Holds(tr.states[n], tr.steps[n].e, tr.steps[n].worker, tr.steps[n].token)
  {
  }

  /** The steps of a worker that present a lease. */
  predicate Presents(step: Step, e: nat, worker: string, token: nat) {
    || (step.DoHeartbeat? && step.e == e && step.worker == worker && step.token == token)
    || (step.DoRecordBranch? && step.e == e && step.worker == worker && step.token == token)
    || (step.DoFinish? && step.e == e && step.worker == worker && step.token == token)
    || (step.DoOrphan? && step.e == e && step.worker == worker && step.token == token)
    || (step.DoReject? && step.e == e && step.worker == worker && step.token == token)
  }

  /** Any worker call that presents something else than the journaled claim of the execution changes nothing. */
  lemma StaleCallsChangeNothing(tr: Trace, n: nat, e: nat, worker: string, token: nat)
    requires Valid(tr) && n < |tr.steps| && Presents(tr.steps[n], e, worker, token)
    requires forall i :: 0 <= i < |tr.states[n].events| ==> !ClaimEvent(tr.states[n].events[i], e, worker, token)
    ensures tr.states[n + 1] == tr.states[n]
  {
    TraceKeeps(tr, n);
    LeasesOf(tr.states[n]);
    assert !Owns(tr.states[n], e, worker, token);
  }
}
