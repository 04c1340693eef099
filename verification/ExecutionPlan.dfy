/** The governed execution plan, an instance of the prerequisite graph of the control plane. */
module ExecutionPlan {
  import opened ControlPlane
  import opened ControlPlaneInvariants
  import opened ControlPlaneRuns

  const ML_01: string := "C4_ML_01"
  const RAW_02: string := "C4_RAW_02"
  const RID_03: string := "C4_RID_FOUNDATION_03"
  const ORD_04: string := "C4_ORD_FOUNDATION_04"
  const BRIDGE_05: string := "C4_ORD_BRIDGE_05"
  const PRE_ALERT_06: string := "C4_ORD_PRE_ALERT_06"
  const ALERTS_07: string := "C4_RID_ALERTS_07"
  const PRE_SIGNAL_08: string := "C4_ORD_PRE_SIGNAL_08"
  const SIGNALS_09: string := "C4_RID_SIGNALS_09"
  const DOWNSTREAM_10: string := "C4_ORD_DOWNSTREAM_10"

  const ORDINARY: string := "ordinary_transform"
  const RESTRICTED: string := "restricted_identity_transform"
  const PREDICTION: string := "ml_prediction_transform"

  const EXECUTION_BATCHES: map<string, Batch> := map[
    ML_01 := Batch(ML_01, PREDICTION, {}),
    RAW_02 := Batch(RAW_02, ORDINARY, {}),
    RID_03 := Batch(RID_03, RESTRICTED, {RAW_02}),
    ORD_04 := Batch(ORD_04, ORDINARY, {RAW_02}),
    BRIDGE_05 := Batch(BRIDGE_05, ORDINARY, {ML_01, RAW_02, RID_03, ORD_04}),
    PRE_ALERT_06 := Batch(PRE_ALERT_06, ORDINARY, {ORD_04, BRIDGE_05}),
    ALERTS_07 := Batch(ALERTS_07, RESTRICTED, {RID_03, ORD_04, BRIDGE_05}),
    PRE_SIGNAL_08 := Batch(PRE_SIGNAL_08, ORDINARY, {ORD_04, BRIDGE_05, PRE_ALERT_06}),
    SIGNALS_09 := Batch(SIGNALS_09, RESTRICTED, {ALERTS_07}),
    DOWNSTREAM_10 := Batch(DOWNSTREAM_10, ORDINARY, {ORD_04, BRIDGE_05, PRE_ALERT_06, PRE_SIGNAL_08, SIGNALS_09})
  ]

  /** The number in the name of a batch. */
  function Rank(batch: string): nat {
    if batch == ML_01 then 1 else if batch == RAW_02 then 2 else if batch == RID_03 then 3 else if batch == ORD_04 then 4
    else if batch == BRIDGE_05 then 5 else if batch == PRE_ALERT_06 then 6 else if batch == ALERTS_07 then 7
    else if batch == PRE_SIGNAL_08 then 8 else if batch == SIGNALS_09 then 9 else 10
  }

  predicate Numbered(batches: set<string>, numbers: set<nat>) {
    (forall p :: p in batches ==> p in EXECUTION_BATCHES && Rank(p) in numbers)
    && forall n :: n in numbers ==> exists p :: p in batches && Rank(p) == n
  }

  /** The entry of a batch, its direct prerequisites given by number. */
  predicate Entry(n: nat, batch: string, authority: string, prerequisites: set<nat>) {
    && batch in EXECUTION_BATCHES && Rank(batch) == n && EXECUTION_BATCHES[batch].id == batch
    && EXECUTION_BATCHES[batch].authority == authority && Numbered(EXECUTION_BATCHES[batch].prerequisites, prerequisites)
  }

  lemma FoundationEntries()
    ensures Entry(1, "C4_ML_01", "ml_prediction_transform", {})
    ensures Entry(2, "C4_RAW_02", "ordinary_transform", {})
    ensures Entry(3, "C4_RID_FOUNDATION_03", "restricted_identity_transform", {2})
    ensures Entry(4, "C4_ORD_FOUNDATION_04", "ordinary_transform", {2})
  {
  }

  lemma AlertEntries()
    ensures Entry(5, "C4_ORD_BRIDGE_05", "ordinary_transform", {1, 2, 3, 4})
    ensures Entry(6, "C4_ORD_PRE_ALERT_06", "ordinary_transform", {4, 5})
    ensures Entry(7, "C4_RID_ALERTS_07", "restricted_identity_transform", {3, 4, 5})
  {
  }

  lemma SignalEntries()
    ensures Entry(8, "C4_ORD_PRE_SIGNAL_08", "ordinary_transform", {4, 5, 6})
    ensures Entry(9, "C4_RID_SIGNALS_09", "restricted_identity_transform", {7})
    ensures Entry(10, "C4_ORD_DOWNSTREAM_10", "ordinary_transform", {4, 5, 6, 8, 9})
  {
  }

  /** The direct prerequisites of a batch, by number. */
  function Direct(n: nat): set<nat> {
    if n == 3 || n == 4 then {2} else if n == 5 then {1, 2, 3, 4} else if n == 6 then {4, 5} else if n == 7 then {3, 4, 5}
    else if n == 8 then {4, 5, 6} else if n == 9 then {7} else if n == 10 then {4, 5, 6, 8, 9} else {}
  }

  /** The plan, batch by batch. */
  lemma PlanTable(batch: string)
    requires batch in EXECUTION_BATCHES
    ensures 1 <= Rank(batch) <= 10 && Numbered(EXECUTION_BATCHES[batch].prerequisites, Direct(Rank(batch)))
    ensures forall other :: other in EXECUTION_BATCHES && Rank(other) == Rank(batch) ==> other == batch
  {
    FoundationEntries();
    AlertEntries();
    SignalEntries();
    hide Numbered;
  }

  /** What a batch needs, directly or not, by number: 3 and 4 need 2 alone, and from 5 on all before it with four exceptions. */
  predicate Needs(n: nat, m: nat) {
    if n <= 2 then false
    else if n <= 4 then m == 2
    else 1 <= m < n && !(n == 7 && m == 6) && !(n == 8 && m == 7) && !(n == 9 && (m == 6 || m == 8))
  }

  lemma DirectIsNeeded(n: nat, q: nat, m: nat)
    requires q in Direct(n)
    ensures Needs(n, q) && (Needs(q, m) ==> Needs(n, m))
  {
  }

  lemma NeededThrough(n: nat, m: nat) returns (q: nat)
    requires n <= 10 && Needs(n, m)
    ensures q in Direct(n) && q < n && (q == m || Needs(q, m))
  {
    q := if m in Direct(n) then m else if n == 9 then 7 else if n == 10 && m == 7 then 9 else 5;
  }

  /** A walk along prerequisites from one batch to the other. */
  ghost predicate Leads(batch: string, other: string, path: seq<string>) {
    |path| >= 2 && Walk(EXECUTION_BATCHES, path) && path[0] == batch && path[|path| - 1] == other
  }

  lemma NeedsStep(batch: string, p: string, other: string)
    requires batch in EXECUTION_BATCHES && p in EXECUTION_BATCHES[batch].prerequisites && other in EXECUTION_BATCHES
    ensures p in EXECUTION_BATCHES && Needs(Rank(batch), Rank(p))
    ensures Needs(Rank(p), Rank(other)) ==> Needs(Rank(batch), Rank(other))
  {
    PlanTable(batch);
    hide Rank, Needs, Direct;
    DirectIsNeeded(Rank(batch), Rank(p), Rank(other));
  }

  /** Every walk of the plan ends in a batch that is needed. */
  lemma {:induction false} WalkNeeds(path: seq<string>)
    requires |path| >= 2 && Walk(EXECUTION_BATCHES, path)
    ensures path[0] in EXECUTION_BATCHES && path[|path| - 1] in EXECUTION_BATCHES && Needs(Rank(path[0]), Rank(path[|path| - 1]))
    decreases |path|
  {
    if |path| > 2 {
      WalkRest(EXECUTION_BATCHES, path);
      WalkNeeds(path[1..]);
    }
    assert path[0] in EXECUTION_BATCHES && path[1] in EXECUTION_BATCHES[path[0]].prerequisites;
    hide Walk;
    NeedsStep(path[0], path[1], path[1]) by { PrerequisitesRankLower(path[0], path[1]); }
    if |path| > 2 {
      NeedsStep(path[0], path[1], path[|path| - 1]);
    }
  }

  /** A batch that is needed is a prerequisite, or needed by one. */
  lemma NeedsThrough(batch: string, other: string) returns (p: string)
    requires batch in EXECUTION_BATCHES && other in EXECUTION_BATCHES && Needs(Rank(batch), Rank(other))
    ensures p in EXECUTION_BATCHES[batch].prerequisites && p in EXECUTION_BATCHES && Rank(p) < Rank(batch)
    ensures p == other || Needs(Rank(p), Rank(other))
  {
    PlanTable(batch);
    PlanTable(other);
    hide Rank, Needs, Direct;
    var q := NeededThrough(Rank(batch), Rank(other));
    p :| p in EXECUTION_BATCHES[batch].prerequisites && Rank(p) == q;
  }

  lemma {:induction false} WayDown(batch: string, other: string) returns (path: seq<string>)
    requires batch in EXECUTION_BATCHES && other in EXECUTION_BATCHES && Needs(Rank(batch), Rank(other))
    ensures Leads(batch, other, path)
    decreases Rank(batch)
  {
    hide Needs, Rank;
    var p := NeedsThrough(batch, other);
    if p == other {
      path := [batch, other];
    } else {
      var rest := WayDown(p, other);
      path := [batch] + rest;
      assert path[1..] == rest;
      assert forall i :: 0 <= i < |path| - 1 ==> path[i] in EXECUTION_BATCHES && path[i + 1] in EXECUTION_BATCHES[path[i]].prerequisites by {
        assert path[0] == batch && path[1] == p;
        assert forall i :: 1 <= i < |path| - 1 ==> path[i] == rest[i - 1] && path[i + 1] == rest[i];
      }
    }
  }

  /** The closure of the plan, exactly: a walk leads from one batch to another if and only if it needs it. */
  lemma NeedsExactly(batch: string, other: string)
    requires batch in EXECUTION_BATCHES && other in EXECUTION_BATCHES
    ensures (exists path :: Leads(batch, other, path)) <==> Needs(Rank(batch), Rank(other))
  {
    hide Needs, Rank;
    if path :| Leads(batch, other, path) {
      WalkNeeds(path);
    }
    if Needs(Rank(batch), Rank(other)) {
      var path := WayDown(batch, other);
    }
  }

  /** A batch of the plan is admitted only after everything it needs has succeeded with its tests passed. */
  lemma AdmittedAfterNeeds(tr: Trace, n: nat, e: nat, other: string)
    requires Valid(tr) && n < |tr.states| && tr.states[n].catalog == EXECUTION_BATCHES
    requires e in tr.states[n].batches && tr.states[n].batches[e].batch in EXECUTION_BATCHES && other in EXECUTION_BATCHES
    requires Needs(Rank(tr.states[n].batches[e].batch), Rank(other))
    ensures var s := tr.states[n]; var run := s.batches[e].run;
      exists i :: 0 <= i < |s.events| && Admission(s.events[i], e, run, s.batches[e].batch) && AdmittedAndPassed(s, i, run, other)
  {
    var path := WayDown(tr.states[n].batches[e].batch, other);
    hide Valid, AdmittedAndPassed, Needs, Rank;
    AdmittedAfterPrerequisites(tr, n, e, path);
  }

  /** The last batch of the plan is admitted only after every other batch of the plan has succeeded with its tests passed. */
  lemma LastBatchNeedsAllOthers(tr: Trace, n: nat, e: nat, batch: string)
    requires Valid(tr) && n < |tr.states| && tr.states[n].catalog == EXECUTION_BATCHES
    requires e in tr.states[n].batches && tr.states[n].batches[e].batch == DOWNSTREAM_10
    requires batch in EXECUTION_BATCHES && batch != DOWNSTREAM_10
    ensures var s := tr.states[n]; var run := s.batches[e].run;
      exists i :: 0 <= i < |s.events| && Admission(s.events[i], e, run, DOWNSTREAM_10) && AdmittedAndPassed(s, i, run, batch)
  {
    hide Valid, AdmittedAndPassed;
    assert Needs(Rank(DOWNSTREAM_10), Rank(batch));
    hide *;
    AdmittedAfterNeeds(tr, n, e, batch);
  }

  lemma PrerequisitesRankLower(batch: string, p: string)
    requires batch in EXECUTION_BATCHES && p in EXECUTION_BATCHES[batch].prerequisites
    ensures p in EXECUTION_BATCHES && Rank(p) < Rank(batch)
  {
  }

  /** The plan is acyclic and closed: every walk stays inside it and only goes to lower numbers. */
  lemma {:induction false} PlanIsAcyclic(path: seq<string>)
    requires |path| >= 2 && Walk(EXECUTION_BATCHES, path)
    ensures path[|path| - 1] in EXECUTION_BATCHES && Rank(path[|path| - 1]) < Rank(path[0])
    decreases |path|
  {
    hide Rank;
    PrerequisitesRankLower(path[0], path[1]);
    if |path| > 2 {
      WalkRest(EXECUTION_BATCHES, path);
      hide Walk;
      PlanIsAcyclic(path[1..]);
    }
  }
}
