/**
  How long a lease lasts: what a claim or a renewal at clock `t` for `lease` seconds is worth,
  and how the worker's heartbeat timing meets the row of the queue.
*/
module LeaseTime {
  import opened Wrappers
  import opened ControlPlane
  import opened ControlPlaneInvariants
  import opened ControlPlaneTheorems
  import HeartbeatTiming

  /** The step gives the worker the lease, or gives it more time: a claim, or a heartbeat under a live lease. */
  predicate Grants(s: State, step: Step, e: nat, worker: string, token: nat, lease: int) {
    || (step == DoClaim(e, worker, token, lease) && e in s.batches && s.batches[e].status == QUEUED && !s.batches[e].cancelRequested)
    || (step == DoHeartbeat(e, worker, token, lease) && Holds(s, e, worker, token))
  }

  /** After a claim or a renewal at clock `t` the row is the worker's until `t + lease`. */
  lemma GrantsUntil(s: State, step: Step, e: nat, worker: string, token: nat, lease: int)
    requires Grants(s, step, e, worker, token, lease)
    ensures var t := Apply(s, step);
      e in t.batches && Active(t.batches[e].status) && t.batches[e].lease == Some(Lease(worker, token, s.clock + lease))
  {
  }

  /** The row is the worker's at least until `limit`, or it has ended. */
  predicate Lasts(s: State, e: nat, worker: string, token: nat, limit: int) {
    e in s.batches &&
    ((Active(s.batches[e].status) && s.batches[e].lease.Some?
      && s.batches[e].lease.value.owner == worker && s.batches[e].lease.value.token == token
      && limit <= s.batches[e].lease.value.expires)
     || Terminal(s.batches[e].status))
  }

  /** The worker does not itself ask for less time than it has. */
  predicate AsksEnough(s: State, step: Step, e: nat, worker: string, token: nat, limit: int) {
    IsBeatOf(step, e, worker, token) ==> limit <= s.clock + step.lease
  }

  lemma TransitionLasts(s: State, x: nat, to: Status, test: Option<TestStatus>, failure: Option<string>,
                        e: nat, worker: string, token: nat, limit: int)
    requires Lasts(s, e, worker, token, limit)
    ensures Lasts(Transition(s, x, to, test, failure), e, worker, token, limit)
  {
  }

  lemma CancelLasts(s: State, x: nat, e: nat, worker: string, token: nat, limit: int)
    requires Lasts(s, e, worker, token, limit)
    ensures Lasts(RequestCancel(s, x), e, worker, token, limit)
  {
  }

  lemma BootLasts(s: State, action: BootAction, e: nat, worker: string, token: nat, limit: int)
    requires Lasts(s, e, worker, token, limit)
    ensures Lasts(ApplyBoot(s, action), e, worker, token, limit)
  {
    if action.DoReconcileBoots? {
      ReconcileBootsFrame(s, action.rows);
    }
  }

  /** Until the limit no step takes the row away: it stays the worker's or ends. */
  lemma LastsStep(s: State, step: Step, e: nat, worker: string, token: nat, limit: int)
    requires Lasts(s, e, worker, token, limit) && Enabled(s, step) && s.clock <= limit
    requires AsksEnough(s, step, e, worker, token, limit)
    ensures Lasts(Apply(s, step), e, worker, token, limit)
  {
    hide Reconcile, ApplyBoot, Transition, RequestCancel;
    match step {
      case DoTransition(x, to, test, failure) => TransitionLasts(s, x, to, test, failure, e, worker, token, limit);
      case DoRequestCancel(x) => CancelLasts(s, x, e, worker, token, limit);
      case DoReconcile(rows) => ReconcileRow(s, rows, e);
      case BootStep(action) => BootLasts(s, action, e, worker, token, limit);
      case _ =>
    }
  }

  /** Between states `m` and `n` the worker never asks for less. */
  ghost predicate Steady(tr: Trace, m: nat, n: nat, e: nat, worker: string, token: nat, limit: int) {
    forall k :: m <= k < n && k < |tr.steps| && k < |tr.states| ==> AsksEnough(tr.states[k], tr.steps[k], e, worker, token, limit)
  }

  lemma {:induction false} LastsThrough(tr: Trace, m: nat, n: nat, e: nat, worker: string, token: nat, limit: int)
    requires Valid(tr) && m <= n < |tr.states| && Lasts(tr.states[m], e, worker, token, limit)
    requires tr.states[n].clock <= limit && Steady(tr, m, n, e, worker, token, limit)
    ensures Lasts(tr.states[n], e, worker, token, limit)
  {
    if m < n {
      TraceLater(tr, n - 1, n);
      hide Later, Lasts, Apply;
      LastsThrough(tr, m, n - 1, e, worker, token, limit);
      LastsStep(tr.states[n - 1], tr.steps[n - 1], e, worker, token, limit);
    }
  }

  /**
    A claim or renewal at clock `t` holds for `lease` seconds: in every later state whose clock is
    at most `t + lease` the worker still holds the row, unless a step has ended it.
  */
  lemma LeaseLasts(tr: Trace, m: nat, n: nat, e: nat, worker: string, token: nat, lease: int)
    requires Valid(tr) && m < n < |tr.states| && Grants(tr.states[m], tr.steps[m], e, worker, token, lease)
    requires tr.states[n].clock <= tr.states[m].clock + lease
    requires Steady(tr, m + 1, n, e, worker, token, tr.states[m].clock + lease)
    ensures e in tr.states[n].batches
    ensures Holds(tr.states[n], e, worker, token) || Terminal(tr.states[n].batches[e].status)
  {
    GrantsUntil(tr.states[m], tr.steps[m], e, worker, token, lease);
    hide Apply, Enabled, Grants;
    LastsThrough(tr, m + 1, n, e, worker, token, tr.states[m].clock + lease);
  }

  /** No reconciliation within those seconds touches the row. */
  lemma NotReconciledInTime(tr: Trace, m: nat, n: nat, e: nat, worker: string, token: nat, lease: int)
    requires Valid(tr) && m < n < |tr.steps| && Grants(tr.states[m], tr.steps[m], e, worker, token, lease)
    requires tr.states[n].clock <= tr.states[m].clock + lease && tr.steps[n].DoReconcile?
    requires Steady(tr, m + 1, n, e, worker, token, tr.states[m].clock + lease)
    ensures e in tr.states[n].batches && e in tr.states[n + 1].batches
    ensures tr.states[n + 1].batches[e] == tr.states[n].batches[e]
  {
    LeaseLasts(tr, m, n, e, worker, token, lease);
    ReconcileRow(tr.states[n], tr.steps[n].rows, e);
    hide Reconcile, Grants, Steady;
  }

  // ---------------------------------------------------------------- heartbeats in a row

  /** A claim and then heartbeats, each at most `lease` seconds of database time after the one before. */
  ghost predicate Beats(tr: Trace, at: seq<nat>, e: nat, worker: string, token: nat, lease: int) {
    && at != [] && (forall k :: 0 <= k < |at| ==> at[k] < |tr.steps| && at[k] < |tr.states|)
    && Grants(tr.states[at[0]], tr.steps[at[0]], e, worker, token, lease)
    && (forall k :: 1 <= k < |at| ==> at[k - 1] < at[k] && InTime(tr, at[k - 1], at[k], e, worker, token, lease))
  }

  /** Step `j` is a heartbeat of the claim, at most `lease` seconds after step `i`. */
  ghost predicate InTime(tr: Trace, i: nat, j: nat, e: nat, worker: string, token: nat, lease: int)
    requires i < |tr.states| && j < |tr.states| && j < |tr.steps|
  {
    tr.steps[j] == DoHeartbeat(e, worker, token, lease) && tr.states[j].clock <= tr.states[i].clock + lease
  }

  predicate IsBeatOf(step: Step, e: nat, worker: string, token: nat) {
    step.DoHeartbeat? && step.e == e && step.worker == worker && step.token == token
  }

  /** Every heartbeat of the claim asks for `lease` seconds. */
  ghost predicate OneSetting(tr: Trace, e: nat, worker: string, token: nat, lease: int) {
    forall step :: step in tr.steps && IsBeatOf(step, e, worker, token) ==> step.lease == lease
  }

  lemma SettingIsSteady(tr: Trace, m: nat, n: nat, e: nat, worker: string, token: nat, lease: int)
    requires Valid(tr) && m < n < |tr.states| && OneSetting(tr, e, worker, token, lease)
    ensures Steady(tr, m + 1, n, e, worker, token, tr.states[m].clock + lease)
  {
    forall k | m + 1 <= k < n
      ensures AsksEnough(tr.states[k], tr.steps[k], e, worker, token, tr.states[m].clock + lease)
    {
      TraceLater(tr, m, k);
    }
  }

  /**
    A worker whose heartbeats follow each other within the lease holds its row in every state from
    the claim until `lease` seconds after the last heartbeat, unless a step has ended the row.
  */
  lemma {:induction false} HeldThroughBeats(tr: Trace, at: seq<nat>, n: nat, e: nat, worker: string, token: nat, lease: int)
    requires Valid(tr) && Beats(tr, at, e, worker, token, lease) && OneSetting(tr, e, worker, token, lease)
    requires at[|at| - 1] < n < |tr.states| && tr.states[n].clock <= tr.states[at[|at| - 1]].clock + lease
    ensures e in tr.states[n].batches
    ensures Holds(tr.states[n], e, worker, token) || Terminal(tr.states[n].batches[e].status)
    decreases |at|
  {
    var last := at[|at| - 1];
    SettingIsSteady(tr, last, n, e, worker, token, lease);
    if |at| == 1 {
      LeaseLasts(tr, last, n, e, worker, token, lease);
    } else {
      var before := at[..|at| - 1];
      assert Beats(tr, before, e, worker, token, lease) by { hide Grants; }
      HeldThroughBeats(tr, before, last, e, worker, token, lease);
      if Holds(tr.states[last], e, worker, token) {
        LeaseLasts(tr, last, n, e, worker, token, lease);
      } else {
        EndedForEver(tr, last, n, e);
      }
    }
  }

  // ---------------------------------------------------------------- the worker's clock and the row

  /** The monitor's expiry cell is the expiry column of the row. */
  predicate Mirrors(m: HeartbeatTiming.Monitor, s: State, e: nat) {
    e in s.batches && s.batches[e].lease.Some? && m.expires == s.batches[e].lease.value.expires as real
  }

  /**
    One due poll against the queue: the monitor finds the lease lost exactly when the row is no
    longer held, and otherwise its expiry cell follows the row.
  */
  lemma BeatIsHeartbeat(m: HeartbeatTiming.Monitor, s: State, p: HeartbeatTiming.Poll, e: nat, worker: string, token: nat, lease: int)
    requires !m.lost && Owns(s, e, worker, token) && Mirrors(m, s, e) && p.beat == s.clock as real
    requires HeartbeatTiming.Due(m, lease, p)
    ensures var n, t := HeartbeatTiming.Beat(m, lease, p), Apply(s, DoHeartbeat(e, worker, token, lease));
      && (n.lost <==> !Holds(s, e, worker, token))
      && (n.lost ==> t == s)
      && (!n.lost ==> Mirrors(n, t, e) && n.expires == p.beat + lease as real && n.last == p.after)
  {
  }

  /** Other steps within the lease leave the mirrored expiry alone, or end the row. */
  lemma MirrorStays(m: HeartbeatTiming.Monitor, s: State, step: Step, e: nat, worker: string, token: nat)
    requires Holds(s, e, worker, token) && Mirrors(m, s, e) && Enabled(s, step)
    requires !IsBeatOf(step, e, worker, token)
    ensures var t := Apply(s, step);
      e in t.batches && (Mirrors(m, t, e) || Terminal(t.batches[e].status))
  {
    hide Reconcile, ApplyBoot, RequestCancel;
    match step {
      case DoReconcile(rows) => ReconcileRow(s, rows, e);
      case DoRequestCancel(x) => CancelMirrors(m, s, x, e, worker, token);
      case BootStep(action) => BootMirrors(m, s, action, e);
      case _ =>
    }
  }

  lemma CancelMirrors(m: HeartbeatTiming.Monitor, s: State, x: nat, e: nat, worker: string, token: nat)
    requires Holds(s, e, worker, token) && Mirrors(m, s, e)
    ensures Mirrors(m, RequestCancel(s, x), e)
  {
  }

  lemma BootMirrors(m: HeartbeatTiming.Monitor, s: State, action: BootAction, e: nat)
    requires Mirrors(m, s, e)
    ensures Mirrors(m, ApplyBoot(s, action), e)
  {
    if action.DoReconcileBoots? {
      ReconcileBootsFrame(s, action.rows);
    }
  }
}
