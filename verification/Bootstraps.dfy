/**
  Protected bootstrap executions: created once, re-claimed only to reconcile.

  A bootstrap row may be claimed several times. The theorems say that the first claim is
  the only one in create mode, that tokens of earlier claims are dead, that success is
  final, and exactly which rows can never be claimed again.
*/
module Bootstraps {
  import opened Wrappers
  import opened ControlPlane
  import opened ControlPlaneInvariants

  ghost predicate BootsInv(s: State) {
    && (forall b :: b in s.boots ==> RowInv(s, s.boots[b]))
    && (forall a, b :: a in s.boots && b in s.boots && a != b ==> Distinct(s.boots[a], s.boots[b]))
  }

  predicate RowInv(s: State, row: BootRow) {
    && row.status != TESTING
    && (row.lease.Some? <==> row.status == RUNNING)
    && (row.lease.Some? ==> row.lease.value.token in s.issued)
    && (Unclaimed(row.status) ==> !row.cancelRequested)
  }

  predicate Distinct(a: BootRow, b: BootRow) {
    && (a.caller != b.caller || a.key != b.key)
    && (a.run != b.run || a.operation != b.operation || a.version != b.version)
  }

  predicate SameBoot(a: BootRow, b: BootRow) {
    && a.run == b.run && a.caller == b.caller && a.key == b.key
    && a.operation == b.operation && a.version == b.version && a.authority == b.authority && a.acceptedAt == b.acceptedAt
  }

  /** ADMITTED, then QUEUED, then everything after the first claim or the cancellation. */
  function Stage(status: Status): nat {
    match status
    case ADMITTED => 0
    case QUEUED => 1
    case _ => 2
  }

  /** Rows that no sequence of transactions makes claimable again; `DeadExactly` proves it. */
  predicate Dead(row: BootRow) {
    || row.status == SUCCEEDED || row.status == CANCELLED
    || ((row.status == FAILED || row.status == ORPHANED) && row.publication != RECONCILIATION_REQUIRED)
    || (row.status == RECONCILE_QUEUED && row.cancelRequested)
  }

  /** How one row may change in one step: forward in stage, with the same token or a fresh one. */
  predicate RowMoves(s: State, a: BootRow, b: BootRow) {
    && SameBoot(a, b) && Stage(a.status) <= Stage(b.status)
    && (a.status == SUCCEEDED || a.status == CANCELLED ==> b == a)
    && (Dead(a) ==> Dead(b))
    && (b.lease.Some? && (a.lease.None? || b.lease.value.token != a.lease.value.token) ==> b.lease.value.token !in s.issued)
  }

  ghost predicate BootsMove(s: State, t: State) {
    s.issued <= t.issued && forall b :: b in s.boots ==> b in t.boots && RowMoves(s, s.boots[b], t.boots[b])
  }

  // ---------------------------------------------------------------- steps

  lemma {:induction false} ReconcileBootsRow(s: State, rows: seq<nat>, b: nat)
    ensures var t := ReconcileBoots(s, rows);
      && t.clock == s.clock && t.issued == s.issued && t.boots.Keys == s.boots.Keys
      && (b in s.boots ==>
            || t.boots[b] == s.boots[b]
            || (ExpiredBoot(s, b) && t.boots[b] == OrphanBoot(s, b).boots[b]))
  {
    if rows != [] {
      ReconcileBootsRow(s, rows[..|rows| - 1], b);
    }
  }

  lemma {:induction false} ReconcileFrame(s: State, rows: seq<nat>)
    ensures Reconcile(s, rows).boots == s.boots && Reconcile(s, rows).issued == s.issued
  {
    if rows != [] {
      ReconcileFrame(s, rows[..|rows| - 1]);
    }
  }

  /** Steps on runs and batch executions do not touch bootstrap rows. */
  lemma OtherStepFrame(s: State, step: Step)
    requires !step.BootStep?
    ensures Apply(s, step).boots == s.boots && s.issued <= Apply(s, step).issued
  {
    if step.DoReconcile? {
      ReconcileFrame(s, step.rows);
    }
  }

  /** Rewriting one row in a legal way keeps the table's invariant. */
  lemma RowWrite(s: State, t: State, b: nat, row: BootRow)
    requires BootsInv(s) && b in s.boots && s.issued <= t.issued && t.boots == s.boots[b := row]
    requires RowMoves(s, s.boots[b], row) && RowInv(t, row)
    ensures BootsInv(t) && BootsMove(s, t)
  {
  }

  lemma NoWrite(s: State)
    requires BootsInv(s)
    ensures BootsMove(s, s)
  {
  }

  lemma SubmitBootKeeps(s: State, b: nat, run: nat, caller: string, key: string, op: Operation, at: int)
    requires BootsInv(s) && b !in s.boots
    ensures BootsInv(SubmitBoot(s, b, run, caller, key, op, at)) && BootsMove(s, SubmitBoot(s, b, run, caller, key, op, at))
  {
    hide Passed;
  }

  lemma ReconcileBootsKeeps(s: State, rows: seq<nat>)
    requires BootsInv(s)
    ensures BootsInv(ReconcileBoots(s, rows)) && BootsMove(s, ReconcileBoots(s, rows))
  {
    hide ReconcileBoots;
    var t := ReconcileBoots(s, rows);
    ReconcileBootsRow(s, rows, 0);
    forall b | b in s.boots
      ensures RowMoves(s, s.boots[b], t.boots[b]) && RowInv(t, t.boots[b])
    {
      ReconcileBootsRow(s, rows, b);
    }
  }

  /** Every bootstrap action keeps the invariant and moves rows forward only. */
  lemma ActionKeeps(s: State, action: BootAction)
    requires BootsInv(s) && Enabled(s, BootStep(action))
    ensures BootsInv(ApplyBoot(s, action)) && BootsMove(s, ApplyBoot(s, action))
  {
    match action {
      case DoSubmitBoot(b, run, caller, key, op, at) =>
        hide BootsInv, BootsMove;
        SubmitBootKeeps(s, b, run, caller, key, op, at);
      case DoReconcileBoots(rows) =>
        hide BootsInv, BootsMove;
        ReconcileBootsKeeps(s, rows);
      case _ => OneRowKeeps(s, action);
    }
  }

  /** The remaining actions rewrite at most the row they name. */
  lemma OneRowMoves(s: State, action: BootAction)
    requires Enabled(s, BootStep(action)) && !action.DoSubmitBoot? && !action.DoReconcileBoots?
    requires action.b in s.boots ==> RowInv(s, s.boots[action.b])
    ensures var t := ApplyBoot(s, action);
      t == s || (action.b in s.boots && s.issued <= t.issued && action.b in t.boots && t.boots == s.boots[action.b := t.boots[action.b]]
                 && RowMoves(s, s.boots[action.b], t.boots[action.b]) && RowInv(t, t.boots[action.b]))
  {
  }

  lemma OneRowKeeps(s: State, action: BootAction)
    requires BootsInv(s) && Enabled(s, BootStep(action)) && !action.DoSubmitBoot? && !action.DoReconcileBoots?
    ensures BootsInv(ApplyBoot(s, action)) && BootsMove(s, ApplyBoot(s, action))
  {
    hide ApplyBoot, BootsMove, RowInv, RowMoves;
    var t := ApplyBoot(s, action);
    NoWrite(s);
    OneRowMoves(s, action);
    hide BootsInv;
    if t != s {
      RowWrite(s, t, action.b, t.boots[action.b]);
    }
  }

  lemma BootStepKeeps(s: State, step: Step)
    requires BootsInv(s) && Enabled(s, step)
    ensures BootsInv(Apply(s, step)) && BootsMove(s, Apply(s, step))
  {
    if step.BootStep? {
      hide BootsInv, BootsMove;
      ActionKeeps(s, step.boot);
    } else {
      OtherStepFrame(s, step);
    }
  }

  lemma {:induction false} TraceBoots(tr: Trace, n: nat)
    requires Valid(tr) && n < |tr.states|
    ensures BootsInv(tr.states[n])
  {
    if n > 0 {
      hide BootsInv;
      TraceBoots(tr, n - 1);
      BootStepKeeps(tr.states[n - 1], tr.steps[n - 1]);
    }
  }

  lemma TraceStep(tr: Trace, n: nat)
    requires Valid(tr) && n < |tr.steps|
    ensures BootsMove(tr.states[n], tr.states[n + 1])
  {
    hide BootsInv, BootsMove;
    TraceBoots(tr, n);
    BootStepKeeps(tr.states[n], tr.steps[n]);
  }

  // ---------------------------------------------------------------- theorems

  ghost predicate BootClaimedAt(tr: Trace, c: int, b: nat, token: nat) {
    && 0 <= c < |tr.steps| && c + 1 < |tr.states|
    && tr.steps[c].BootStep? && tr.steps[c].boot.DoClaimBoot? && tr.steps[c].boot.b == b && tr.steps[c].boot.token == token
    && b in tr.states[c].boots && ClaimableBoot(tr.states[c].boots[b])
  }

  /** `reconciliation_only` of the claim's result. */
  ghost predicate ReconciliationOnly(tr: Trace, c: int, b: nat)
    requires 0 <= c < |tr.states| && b in tr.states[c].boots
  {
    tr.states[c].boots[b].status == RECONCILE_QUEUED
  }

  /** The stage of a bootstrap never goes back, and a dead row stays dead. */
  lemma {:induction false} StageGrows(tr: Trace, m: nat, n: nat, b: nat)
    requires Valid(tr) && m <= n < |tr.states| && b in tr.states[m].boots
    ensures b in tr.states[n].boots && SameBoot(tr.states[m].boots[b], tr.states[n].boots[b])
    ensures Stage(tr.states[m].boots[b].status) <= Stage(tr.states[n].boots[b].status)
    ensures Dead(tr.states[m].boots[b]) ==> Dead(tr.states[n].boots[b])
    ensures tr.states[m].boots[b].status == SUCCEEDED ==> tr.states[n].boots[b] == tr.states[m].boots[b]
  {
    if m < n {
      StageGrows(tr, m, n - 1, b);
      TraceStep(tr, n - 1);
    }
  }

  /**
    Once-only creation: of two claims for the same (run, operation, version), on whatever
    rows, the later one is a reconciliation.
  */
  lemma LaterClaimsReconcile(tr: Trace, c: nat, d: nat, b1: nat, t1: nat, b2: nat, t2: nat)
    requires Valid(tr) && c < d && BootClaimedAt(tr, c, b1, t1) && BootClaimedAt(tr, d, b2, t2)
    requires !Distinct(tr.states[c].boots[b1], tr.states[d].boots[b2])
    ensures b1 == b2 && ReconciliationOnly(tr, d, b2)
  {
    StageGrows(tr, c, d, b1);
    TraceBoots(tr, d);
    var row := tr.states[c + 1].boots[b1];
    assert row.status == RUNNING;
    StageGrows(tr, c + 1, d, b1);
  }

  /** The token of a claim that was followed by another claim of the row never comes back. */
  lemma {:induction false} OldTokenIsGone(tr: Trace, c: nat, d: nat, n: nat, b: nat, t1: nat, t2: nat)
    requires Valid(tr) && c < d < n < |tr.states| && BootClaimedAt(tr, c, b, t1) && BootClaimedAt(tr, d, b, t2)
    ensures t1 in tr.states[n].issued && b in tr.states[n].boots
    ensures tr.states[n].boots[b].lease.Some? ==> tr.states[n].boots[b].lease.value.token != t1
  {
    if n == d + 1 {
      IssuedAfterClaim(tr, c, b, t1);
      IssuedGrows(tr, c + 1, d);
    } else {
      OldTokenIsGone(tr, c, d, n - 1, b, t1, t2);
      TraceStep(tr, n - 1);
    }
  }

  lemma IssuedAfterClaim(tr: Trace, c: nat, b: nat, token: nat)
    requires Valid(tr) && BootClaimedAt(tr, c, b, token)
    ensures token in tr.states[c + 1].issued
  {
  }

  lemma {:induction false} IssuedGrows(tr: Trace, m: nat, n: nat)
    requires Valid(tr) && m <= n < |tr.states|
    ensures tr.states[m].issued <= tr.states[n].issued
  {
    if m < n {
      IssuedGrows(tr, m, n - 1);
      TraceStep(tr, n - 1);
    }
  }

  /** After a re-claim, a finish or a heartbeat with the earlier claim's token is rejected without effect. */
  lemma StaleFinishRejected(tr: Trace, c: nat, d: nat, n: nat, b: nat, t1: nat, t2: nat)
    requires Valid(tr) && c < d < n < |tr.steps| && BootClaimedAt(tr, c, b, t1) && BootClaimedAt(tr, d, b, t2)
    requires tr.steps[n].BootStep?
    requires var action := tr.steps[n].boot;
      || (action.DoFinishBoot? && action.b == b && action.token == t1)
      || (action.DoHeartbeatBoot? && action.b == b && action.token == t1)
    ensures tr.states[n + 1] == tr.states[n]
  {
    OldTokenIsGone(tr, c, d, n, b, t1, t2);
  }

  /** A published bootstrap is published for ever. */
  lemma PublishedForEver(tr: Trace, m: nat, n: nat, b: nat)
    requires Valid(tr) && m <= n < |tr.states| && b in tr.states[m].boots
    requires tr.states[m].boots[b].status == SUCCEEDED && tr.states[m].boots[b].publication == PUBLISHED
    ensures b in tr.states[n].boots && tr.states[n].boots[b] == tr.states[m].boots[b]
  {
    StageGrows(tr, m, n, b);
  }

  // ---------------------------------------------------------------- which rows can be claimed again

  ghost function Follow(s: State, actions: seq<BootAction>): State
    decreases |actions|
  {
    if actions == [] then s else Follow(ApplyBoot(s, actions[0]), actions[1..])
  }

  ghost predicate AllEnabled(s: State, actions: seq<BootAction>)
    decreases |actions|
  {
    actions == [] || (Enabled(s, BootStep(actions[0])) && AllEnabled(ApplyBoot(s, actions[0]), actions[1..]))
  }

  /** Some sequence of bootstrap transactions leads to a state in which a worker may claim the row. */
  ghost predicate CanBeClaimed(s: State, b: nat) {
    exists actions :: AllEnabled(s, actions) && b in Follow(s, actions).boots && ClaimableBoot(Follow(s, actions).boots[b])
  }

  lemma {:induction false} DeadStays(s: State, actions: seq<BootAction>, b: nat)
    requires BootsInv(s) && b in s.boots && Dead(s.boots[b]) && AllEnabled(s, actions)
    ensures b in Follow(s, actions).boots && Dead(Follow(s, actions).boots[b])
    decreases |actions|
  {
    if actions != [] {
      ActionKeeps(s, actions[0]);
      DeadStays(ApplyBoot(s, actions[0]), actions[1..], b) by { hide BootsInv; }
    }
  }

  lemma FollowOne(s: State, a: BootAction)
    ensures Follow(s, [a]) == ApplyBoot(s, a)
    ensures AllEnabled(s, [a]) <==> Enabled(s, BootStep(a))
  {
    assert [a][1..] == [];
  }

  lemma FollowTwo(s: State, a: BootAction, b: BootAction)
    ensures Follow(s, [a, b]) == ApplyBoot(ApplyBoot(s, a), b)
    ensures AllEnabled(s, [a, b]) <==> Enabled(s, BootStep(a)) && Enabled(ApplyBoot(s, a), BootStep(b))
  {
    assert [a, b][1..] == [b];
    FollowOne(ApplyBoot(s, a), b);
  }

  /** What operators and the owning worker do to have a live row offered to a worker. */
  function Revive(s: State, b: nat): seq<BootAction>
    requires b in s.boots
  {
    var row := s.boots[b];
    match row.status
    case ADMITTED => [DoQueueBoot(b)]
    case FAILED => [DoRequestReconcileBoot(b)]
    case ORPHANED => [DoRequestReconcileBoot(b)]
    case RUNNING =>
      if row.lease.None? then []
      else [DoFinishBoot(b, row.lease.value.owner, row.lease.value.token, ORPHANED, RECONCILIATION_REQUIRED, None),
            DoRequestReconcileBoot(b)]
    case _ => []
  }

  lemma ReviveWorks(s: State, b: nat)
    requires BootsInv(s) && b in s.boots && !Dead(s.boots[b])
    ensures AllEnabled(s, Revive(s, b)) && b in Follow(s, Revive(s, b)).boots && ClaimableBoot(Follow(s, Revive(s, b)).boots[b])
  {
    var row := s.boots[b];
    assert RowInv(s, row);
    hide BootsInv;
    if row.status == ADMITTED {
      FollowOne(s, DoQueueBoot(b));
    } else if row.status == FAILED || row.status == ORPHANED {
      FollowOne(s, DoRequestReconcileBoot(b));
    } else if row.status == RUNNING {
      FollowTwo(s, Revive(s, b)[0], DoRequestReconcileBoot(b));
    }
  }

  /**
    A bootstrap row can be claimed in some continuation exactly when it is not `Dead`. In
    particular a RECONCILE_QUEUED row that is then cancelled is never claimed again.
  */
  lemma DeadExactly(s: State, b: nat)
    requires BootsInv(s) && b in s.boots
    ensures CanBeClaimed(s, b) <==> !Dead(s.boots[b])
  {
    if Dead(s.boots[b]) {
      forall actions | AllEnabled(s, actions)
        ensures b in Follow(s, actions).boots && Dead(Follow(s, actions).boots[b])
      {
        DeadStays(s, actions, b);
      }
    } else {
      ReviveWorks(s, b);
    }
  }

  /** Cancelling a bootstrap that waits for reconciliation kills it, although its status is not terminal. */
  lemma CancelledReconciliationIsDead(s: State, b: nat)
    requires BootsInv(s) && b in s.boots && s.boots[b].status == RECONCILE_QUEUED
    ensures var t := RequestCancelBoot(s, b); !Terminal(t.boots[b].status) && !CanBeClaimed(t, b)
  {
    var t := RequestCancelBoot(s, b);
    assert Dead(t.boots[b]) && !Terminal(t.boots[b].status);
    assert Enabled(s, BootStep(DoRequestCancelBoot(b))) && ApplyBoot(s, DoRequestCancelBoot(b)) == t;
    hide RequestCancelBoot, BootsInv, CanBeClaimed, Dead, ApplyBoot;
    ActionKeeps(s, DoRequestCancelBoot(b));
    DeadExactly(t, b);
  }
}
