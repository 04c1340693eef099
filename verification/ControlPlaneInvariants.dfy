/**
  What every transaction of the control plane keeps.

  `Inv` is stated over rows and journal together. The transactions are built from a
  handful of row writes, so each write is shown to keep each part of `Inv`, and each
  transaction is then a short composition of writes.
*/
module ControlPlaneInvariants {
  import opened Wrappers
  import opened ControlPlane

  // ---------------------------------------------------------------- reading the journal

  /** The batch status an event announces: a claim is read as RUNNING, a cancel request as nothing. */
  function Announces(kind: Kind): Option<Status> {
    match kind
    case BatchAdmitted(_, _) => Some(ADMITTED)
    case Claimed(_, _) => Some(RUNNING)
    case Entered(status, _) => Some(status)
    case _ => None
  }

  function AnnouncesRun(kind: Kind): Option<Status> {
    match kind
    case RunAdmitted(_) => Some(ADMITTED)
    case RunEnded(status, _, _) => Some(status)
    case _ => None
  }

  /** The status of a batch execution according to the journal alone. */
  function BatchStatus(events: seq<Event>, e: nat): Option<Status> {
    if events == [] then None
    else
      var last := events[|events| - 1];
      if last.exec == Some(e) && Announces(last.kind).Some? then Announces(last.kind)
      else BatchStatus(events[..|events| - 1], e)
  }

  /** The status of a run according to the journal alone. */
  function RunStatus(events: seq<Event>, r: nat): Option<Status> {
    if events == [] then None
    else
      var last := events[|events| - 1];
      if last.run == r && AnnouncesRun(last.kind).Some? then AnnouncesRun(last.kind)
      else RunStatus(events[..|events| - 1], r)
  }

  lemma StatusAppend(events: seq<Event>, ev: Event)
    ensures forall e: nat :: BatchStatus(events + [ev], e) ==
                        if ev.exec == Some(e) && Announces(ev.kind).Some? then Announces(ev.kind) else BatchStatus(events, e)
    ensures forall r: nat :: RunStatus(events + [ev], r) ==
                        if ev.run == r && AnnouncesRun(ev.kind).Some? then AnnouncesRun(ev.kind) else RunStatus(events, r)
  {
    assert (events + [ev])[..|events|] == events;
  }

  // ---------------------------------------------------------------- the invariant

  ghost predicate References(s: State) {
    forall e :: e in s.batches ==> s.batches[e].run in s.runs
  }

  ghost predicate UniqueRuns(s: State) {
    forall r, q :: r in s.runs && q in s.runs && r != q ==>
      && (Terminal(s.runs[r].status) || Terminal(s.runs[q].status))
      && (s.runs[r].caller != s.runs[q].caller || s.runs[r].key != s.runs[q].key)
  }

  ghost predicate UniqueBatches(s: State) {
    forall e, f :: e in s.batches && f in s.batches && e != f ==>
      && (s.batches[e].caller != s.batches[f].caller || s.batches[e].key != s.batches[f].key)
      && (s.batches[e].run == s.batches[f].run && s.batches[e].batch == s.batches[f].batch ==>
            Terminal(s.batches[e].status) || Terminal(s.batches[f].status))
  }

  ghost predicate JournalAgrees(s: State) {
    && (forall e: nat :: BatchStatus(s.events, e) == if e in s.batches then Some(s.batches[e].status) else None)
    && (forall r: nat :: RunStatus(s.events, r) == if r in s.runs then Some(s.runs[r].status) else None)
  }

  predicate Unclaimed(status: Status) {
    status.ADMITTED? || status.QUEUED?
  }

  ghost predicate ClaimsOnce(s: State) {
    && (forall i :: 0 <= i < |s.events| && s.events[i].kind.Claimed? ==>
          && s.events[i].exec.Some? && s.events[i].exec.value in s.batches
          && !Unclaimed(s.batches[s.events[i].exec.value].status)
          && s.events[i].kind.token in s.issued)
    && (forall i, j :: 0 <= i < j < |s.events| && s.events[i].kind.Claimed? && s.events[j].kind.Claimed? ==>
          s.events[i].exec != s.events[j].exec && s.events[i].kind.token != s.events[j].kind.token)
  }

  predicate EndOf(ev: Event, e: nat, status: Status) {
    ev.exec == Some(e) && ev.kind.Entered? && ev.kind.status == status && Terminal(status)
  }

  predicate IsEnd(ev: Event) {
    ev.kind.Entered? && Terminal(ev.kind.status)
  }

  ghost predicate EndsOnce(s: State) {
    && (forall i :: 0 <= i < |s.events| && IsEnd(s.events[i]) ==>
          && s.events[i].exec.Some? && s.events[i].exec.value in s.batches
          && s.batches[s.events[i].exec.value].status == s.events[i].kind.status)
    && (forall i, j :: 0 <= i < j < |s.events| && IsEnd(s.events[i]) && IsEnd(s.events[j]) ==>
          s.events[i].exec != s.events[j].exec)
  }

  ghost predicate RunsEndOnce(s: State) {
    && (forall r :: r in s.runs ==> s.runs[r].status == ADMITTED || Failing(s.runs[r].status))
    && (forall i :: 0 <= i < |s.events| && s.events[i].kind.RunEnded? ==>
          && s.events[i].run in s.runs && Failing(s.events[i].kind.status)
          && s.runs[s.events[i].run].status == s.events[i].kind.status)
    && (forall i, j :: 0 <= i < j < |s.events| && s.events[i].kind.RunEnded? && s.events[j].kind.RunEnded? ==>
          s.events[i].run != s.events[j].run)
  }

  predicate ClaimEvent(ev: Event, e: nat, worker: string, token: nat) {
    ev.exec == Some(e) && ev.kind == Claimed(worker, token)
  }

  ghost predicate Leases(s: State) {
    forall e :: e in s.batches ==>
      && (Unclaimed(s.batches[e].status) ==> s.batches[e].lease.None?)
      && (s.batches[e].lease.Some? ==>
            exists i :: 0 <= i < |s.events| && ClaimEvent(s.events[i], e, s.batches[e].lease.value.owner, s.batches[e].lease.value.token))
  }

  predicate Admission(ev: Event, e: nat, run: nat, batch: string) {
    ev.run == run && ev.exec == Some(e) && ev.kind.BatchAdmitted? && ev.kind.batch == batch
  }

  /** Event `k` is the SUCCEEDED event of an execution of `batch` in `run` whose tests passed. */
  ghost predicate PassEvent(s: State, k: int, run: nat, batch: string) {
    && 0 <= k < |s.events| && s.events[k].exec.Some? && s.events[k].exec.value in s.batches
    && EndOf(s.events[k], s.events[k].exec.value, SUCCEEDED)
    && PassedRow(s.batches[s.events[k].exec.value], run, batch)
  }

  /** `ev` admits a batch that names `p` as a prerequisite. */
  predicate Requires(s: State, ev: Event, p: string) {
    ev.kind.BatchAdmitted? && ev.kind.batch in s.catalog && p in s.catalog[ev.kind.batch].prerequisites
  }

  ghost predicate AdmissionsFollowPasses(s: State) {
    && (forall i :: 0 <= i < |s.events| && s.events[i].kind.BatchAdmitted? ==>
          && s.events[i].exec.Some? && s.events[i].exec.value in s.batches
          && s.batches[s.events[i].exec.value].batch == s.events[i].kind.batch
          && s.batches[s.events[i].exec.value].run == s.events[i].run
          && s.events[i].kind.batch in s.catalog)
    && (forall i, p | 0 <= i < |s.events| && Requires(s, s.events[i], p) ::
          exists k :: k < i && PassEvent(s, k, s.events[i].run, p))
  }

  ghost predicate ExecutionsAdmitted(s: State) {
    && (forall e :: e in s.batches ==>
          exists i :: 0 <= i < |s.events| && Admission(s.events[i], e, s.batches[e].run, s.batches[e].batch))
    && (forall k :: 0 <= k < |s.events| && s.events[k].kind.Entered? && s.events[k].exec.Some? ==>
          && s.events[k].exec.value in s.batches
          && exists i :: 0 <= i < k && Admission(s.events[i], s.events[k].exec.value,
                                                 s.batches[s.events[k].exec.value].run, s.batches[s.events[k].exec.value].batch))
  }

  ghost predicate Inv(s: State) {
    && References(s) && UniqueRuns(s) && UniqueBatches(s) && JournalAgrees(s)
    && ClaimsOnce(s) && EndsOnce(s) && RunsEndOnce(s) && Leases(s)
    && AdmissionsFollowPasses(s) && ExecutionsAdmitted(s)
  }

  // ---------------------------------------------------------------- writing a batch row with its event

  predicate SameIdentity(a: BatchRow, b: BatchRow) {
    && a.run == b.run && a.caller == b.caller && a.key == b.key && a.batch == b.batch
    && a.authority == b.authority && a.fingerprint == b.fingerprint && a.acceptedAt == b.acceptedAt
  }

  /** An open row moves to a later status announced by `kind`; a claim uses a token no claim used. */
  ghost predicate LegalAdvance(s: State, e: nat, row: BatchRow, kind: Kind) {
    && e in s.batches && SameIdentity(s.batches[e], row) && !Terminal(s.batches[e].status)
    && Announces(kind) == Some(row.status) && row.status != ADMITTED && (kind.Entered? || kind.Claimed?)
    && (row.status == QUEUED ==> s.batches[e].status == ADMITTED)
    && (row.lease.Some? ==> row.lease == s.batches[e].lease || kind == Claimed(row.lease.value.owner, row.lease.value.token))
    && (kind.Claimed? ==>
          && s.batches[e].status == QUEUED && kind.token in s.issued
          && forall i :: 0 <= i < |s.events| && s.events[i].kind.Claimed? ==> s.events[i].kind.token != kind.token)
  }

  lemma AdvanceKeepsJournal(s: State, e: nat, row: BatchRow, kind: Kind)
    requires JournalAgrees(s) && LegalAdvance(s, e, row, kind)
    ensures JournalAgrees(Advance(s, e, row, kind))
  {
    StatusAppend(s.events, Event(row.run, Some(e), kind));
  }

  lemma AdvanceKeepsUnique(s: State, e: nat, row: BatchRow, kind: Kind)
    requires References(s) && UniqueRuns(s) && UniqueBatches(s) && LegalAdvance(s, e, row, kind)
    ensures var t := Advance(s, e, row, kind); References(t) && UniqueRuns(t) && UniqueBatches(t)
  {
  }

  lemma AdvanceKeepsClaims(s: State, e: nat, row: BatchRow, kind: Kind)
    requires ClaimsOnce(s) && LegalAdvance(s, e, row, kind)
    ensures ClaimsOnce(Advance(s, e, row, kind))
  {
    var t := Advance(s, e, row, kind);
    assert forall i :: 0 <= i < |s.events| ==> t.events[i] == s.events[i];
  }

  lemma AdvanceKeepsLeases(s: State, e: nat, row: BatchRow, kind: Kind)
    requires Leases(s) && LegalAdvance(s, e, row, kind)
    ensures Leases(Advance(s, e, row, kind))
  {
    var t := Advance(s, e, row, kind);
    forall f | f in t.batches && t.batches[f].lease.Some?
      ensures exists i :: 0 <= i < |t.events| && ClaimEvent(t.events[i], f, t.batches[f].lease.value.owner, t.batches[f].lease.value.token)
    {
      if f == e && kind == Claimed(row.lease.value.owner, row.lease.value.token) {
        assert ClaimEvent(t.events[|s.events|], f, row.lease.value.owner, row.lease.value.token);
      } else {
        var i :| 0 <= i < |s.events| && ClaimEvent(s.events[i], f, s.batches[f].lease.value.owner, s.batches[f].lease.value.token);
        assert t.events[i] == s.events[i];
      }
    }
  }

  lemma AdvanceKeepsEnds(s: State, e: nat, row: BatchRow, kind: Kind)
    requires EndsOnce(s) && LegalAdvance(s, e, row, kind)
    ensures EndsOnce(Advance(s, e, row, kind))
  {
    var t := Advance(s, e, row, kind);
    assert forall i :: 0 <= i < |s.events| ==> t.events[i] == s.events[i];
  }

  lemma AdvanceKeepsRunEnds(s: State, e: nat, row: BatchRow, kind: Kind)
    requires RunsEndOnce(s) && LegalAdvance(s, e, row, kind)
    ensures RunsEndOnce(Advance(s, e, row, kind))
  {
    var t := Advance(s, e, row, kind);
    assert forall i :: 0 <= i < |s.events| ==> t.events[i] == s.events[i];
  }

  /** Journals only grow and ended rows are frozen, so a pass stays a pass. */
  lemma PassEventStays(s: State, t: State, k: int, run: nat, batch: string)
    requires s.events <= t.events
    requires forall e :: e in s.batches && Terminal(s.batches[e].status) ==> e in t.batches && t.batches[e] == s.batches[e]
    requires PassEvent(s, k, run, batch)
    ensures PassEvent(t, k, run, batch)
  {
    assert t.events[k] == s.events[k];
  }

  /** The part of `AdmissionsFollowPasses` about old events carries over to a later state. */
  lemma PassesStay(s: State, t: State, i: int, p: string)
    requires AdmissionsFollowPasses(s) && s.events <= t.events && t.catalog == s.catalog
    requires forall e :: e in s.batches && Terminal(s.batches[e].status) ==> e in t.batches && t.batches[e] == s.batches[e]
    requires 0 <= i < |s.events| && Requires(s, s.events[i], p)
    ensures exists k :: k < i && PassEvent(t, k, t.events[i].run, p)
  {
    var k :| k < i && PassEvent(s, k, s.events[i].run, p);
    PassEventStays(s, t, k, s.events[i].run, p);
    assert t.events[i] == s.events[i];
  }

  lemma AdvanceKeepsAdmissions(s: State, e: nat, row: BatchRow, kind: Kind)
    requires AdmissionsFollowPasses(s) && LegalAdvance(s, e, row, kind)
    ensures AdmissionsFollowPasses(Advance(s, e, row, kind))
  {
    var t := Advance(s, e, row, kind);
    forall i, p | 0 <= i < |t.events| && Requires(t, t.events[i], p)
      ensures exists k :: k < i && PassEvent(t, k, t.events[i].run, p)
    {
      assert t.events[i] == s.events[i];
      PassesStay(s, t, i, p);
    }
  }

  lemma AdvanceKeepsExecutions(s: State, e: nat, row: BatchRow, kind: Kind)
    requires ExecutionsAdmitted(s) && LegalAdvance(s, e, row, kind)
    ensures ExecutionsAdmitted(Advance(s, e, row, kind))
  {
    var t := Advance(s, e, row, kind);
    assert forall i :: 0 <= i < |s.events| ==> t.events[i] == s.events[i];
    forall f | f in t.batches
      ensures exists i :: 0 <= i < |t.events| && Admission(t.events[i], f, t.batches[f].run, t.batches[f].batch)
    {
      var i :| 0 <= i < |s.events| && Admission(s.events[i], f, s.batches[f].run, s.batches[f].batch);
      assert Admission(t.events[i], f, t.batches[f].run, t.batches[f].batch);
    }
    forall k | 0 <= k < |t.events| && t.events[k].kind.Entered? && t.events[k].exec.Some?
      ensures t.events[k].exec.value in t.batches
      ensures exists i :: 0 <= i < k && Admission(t.events[i], t.events[k].exec.value,
                                                  t.batches[t.events[k].exec.value].run, t.batches[t.events[k].exec.value].batch)
    {
      var f := t.events[k].exec.value;
      var i :| 0 <= i < |s.events| && i < k && Admission(s.events[i], f, s.batches[f].run, s.batches[f].batch);
      assert Admission(t.events[i], f, t.batches[f].run, t.batches[f].batch);
    }
  }

  lemma AdvanceKeeps(s: State, e: nat, row: BatchRow, kind: Kind)
    requires Inv(s) && LegalAdvance(s, e, row, kind)
    ensures Inv(Advance(s, e, row, kind))
  {
    hide References, UniqueRuns, UniqueBatches, JournalAgrees, ClaimsOnce, EndsOnce, RunsEndOnce, Leases, AdmissionsFollowPasses, ExecutionsAdmitted;
    AdvanceKeepsJournal(s, e, row, kind);
    AdvanceKeepsUnique(s, e, row, kind);
    AdvanceKeepsClaims(s, e, row, kind);
    AdvanceKeepsLeases(s, e, row, kind);
    AdvanceKeepsEnds(s, e, row, kind);
    AdvanceKeepsRunEnds(s, e, row, kind);
    AdvanceKeepsAdmissions(s, e, row, kind);
    AdvanceKeepsExecutions(s, e, row, kind);
  }

  // ---------------------------------------------------------------- writing a batch row alone

  ghost predicate LegalAmend(s: State, e: nat, row: BatchRow) {
    && e in s.batches && SameIdentity(s.batches[e], row) && !Terminal(s.batches[e].status)
    && row.status == s.batches[e].status && row.test == s.batches[e].test
    && (row.lease.Some? ==>
          && s.batches[e].lease.Some?
          && row.lease.value.owner == s.batches[e].lease.value.owner && row.lease.value.token == s.batches[e].lease.value.token)
  }

  lemma AmendKeepsRows(s: State, e: nat, row: BatchRow)
    requires References(s) && UniqueBatches(s) && JournalAgrees(s) && LegalAmend(s, e, row)
    ensures var t := Amend(s, e, row); References(t) && UniqueBatches(t) && JournalAgrees(t)
  {
  }

  lemma AmendKeepsEvents(s: State, e: nat, row: BatchRow)
    requires ClaimsOnce(s) && EndsOnce(s) && RunsEndOnce(s) && LegalAmend(s, e, row)
    ensures var t := Amend(s, e, row); ClaimsOnce(t) && EndsOnce(t) && RunsEndOnce(t)
  {
  }

  lemma AmendKeepsLeases(s: State, e: nat, row: BatchRow)
    requires Leases(s) && LegalAmend(s, e, row)
    ensures Leases(Amend(s, e, row))
  {
  }

  lemma AmendKeepsAdmissions(s: State, e: nat, row: BatchRow)
    requires AdmissionsFollowPasses(s) && LegalAmend(s, e, row)
    ensures AdmissionsFollowPasses(Amend(s, e, row))
  {
    var t := Amend(s, e, row);
    forall i, p | 0 <= i < |t.events| && Requires(t, t.events[i], p)
      ensures exists k :: k < i && PassEvent(t, k, t.events[i].run, p)
    {
      PassesStay(s, t, i, p);
    }
  }

  lemma AmendKeepsExecutions(s: State, e: nat, row: BatchRow)
    requires ExecutionsAdmitted(s) && LegalAmend(s, e, row)
    ensures ExecutionsAdmitted(Amend(s, e, row))
  {
  }

  lemma AmendKeeps(s: State, e: nat, row: BatchRow)
    requires Inv(s) && LegalAmend(s, e, row)
    ensures Inv(Amend(s, e, row))
  {
    hide References, UniqueBatches, JournalAgrees, ClaimsOnce, EndsOnce, RunsEndOnce, Leases, AdmissionsFollowPasses, ExecutionsAdmitted;
    AmendKeepsRows(s, e, row);
    AmendKeepsEvents(s, e, row);
    AmendKeepsLeases(s, e, row);
    AmendKeepsAdmissions(s, e, row);
    AmendKeepsExecutions(s, e, row);
  }

  // ---------------------------------------------------------------- journal entries of the other kinds

  /** An entry that is about no batch row: it admits a run, ends a run, or is a remark. */
  predicate Aside(kind: Kind) {
    kind.RunAdmitted? || kind.RunEnded? || kind.CancelRequested? || kind.BootstrapAdmitted?
  }

  lemma AsideKeepsClaims(s: State, t: State, ev: Event)
    requires ClaimsOnce(s) && EndsOnce(s) && Aside(ev.kind)
    requires t.events == s.events + [ev] && t.batches == s.batches && t.issued == s.issued
    ensures ClaimsOnce(t) && EndsOnce(t)
  {
  }

  lemma AsideKeepsLeases(s: State, t: State, ev: Event)
    requires Leases(s) && Aside(ev.kind)
    requires t.events == s.events + [ev] && t.batches == s.batches
    ensures Leases(t)
  {
    forall f | f in t.batches && t.batches[f].lease.Some?
      ensures exists i :: 0 <= i < |t.events| && ClaimEvent(t.events[i], f, t.batches[f].lease.value.owner, t.batches[f].lease.value.token)
    {
      var i :| 0 <= i < |s.events| && ClaimEvent(s.events[i], f, s.batches[f].lease.value.owner, s.batches[f].lease.value.token);
      assert t.events[i] == s.events[i];
    }
  }

  lemma AsideKeepsAdmissions(s: State, t: State, ev: Event)
    requires AdmissionsFollowPasses(s) && Aside(ev.kind)
    requires t.events == s.events + [ev] && t.batches == s.batches && t.catalog == s.catalog
    ensures AdmissionsFollowPasses(t)
  {
    forall i, p | 0 <= i < |t.events| && Requires(t, t.events[i], p)
      ensures exists k :: k < i && PassEvent(t, k, t.events[i].run, p)
    {
      assert t.events[i] == s.events[i];
      PassesStay(s, t, i, p);
    }
  }

  lemma AsideKeepsExecutions(s: State, t: State, ev: Event)
    requires ExecutionsAdmitted(s) && Aside(ev.kind)
    requires t.events == s.events + [ev] && t.batches == s.batches
    ensures ExecutionsAdmitted(t)
  {
    assert forall i :: 0 <= i < |s.events| ==> t.events[i] == s.events[i];
    forall f | f in t.batches
      ensures exists i :: 0 <= i < |t.events| && Admission(t.events[i], f, t.batches[f].run, t.batches[f].batch)
    {
      var i :| 0 <= i < |s.events| && Admission(s.events[i], f, s.batches[f].run, s.batches[f].batch);
      assert Admission(t.events[i], f, t.batches[f].run, t.batches[f].batch);
    }
    forall k | 0 <= k < |t.events| && t.events[k].kind.Entered? && t.events[k].exec.Some?
      ensures t.events[k].exec.value in t.batches
      ensures exists i :: 0 <= i < k && Admission(t.events[i], t.events[k].exec.value,
                                                  t.batches[t.events[k].exec.value].run, t.batches[t.events[k].exec.value].batch)
    {
      var f := t.events[k].exec.value;
      var i :| 0 <= i < |s.events| && i < k && Admission(s.events[i], f, s.batches[f].run, s.batches[f].batch);
      assert Admission(t.events[i], f, t.batches[f].run, t.batches[f].batch);
    }
  }

  lemma AsideKeeps(s: State, t: State, ev: Event)
    requires Inv(s) && Aside(ev.kind)
    requires t.events == s.events + [ev] && t.batches == s.batches && t.catalog == s.catalog && t.issued == s.issued
    ensures ClaimsOnce(t) && EndsOnce(t) && Leases(t) && AdmissionsFollowPasses(t) && ExecutionsAdmitted(t)
  {
    hide References, UniqueRuns, UniqueBatches, JournalAgrees, ClaimsOnce, EndsOnce, RunsEndOnce, Leases, AdmissionsFollowPasses, ExecutionsAdmitted;
    AsideKeepsClaims(s, t, ev);
    AsideKeepsLeases(s, t, ev);
    AsideKeepsAdmissions(s, t, ev);
    AsideKeepsExecutions(s, t, ev);
  }

  lemma RemarkKeeps(s: State, ev: Event)
    requires Inv(s) && (ev.kind.CancelRequested? || ev.kind.BootstrapAdmitted?)
    ensures Inv(Remark(s, ev))
  {
    hide References, UniqueRuns, UniqueBatches, ClaimsOnce, EndsOnce, Leases, AdmissionsFollowPasses, ExecutionsAdmitted;
    var t := Remark(s, ev);
    AsideKeeps(s, t, ev);
    StatusAppend(s.events, ev);
    assert References(t) && UniqueRuns(t) && UniqueBatches(t) by {
      FrameKeepsRows(s, t);
    }
  }

  lemma FrameKeepsRows(s: State, t: State)
    requires References(s) && UniqueRuns(s) && UniqueBatches(s) && t.runs == s.runs && t.batches == s.batches
    ensures References(t) && UniqueRuns(t) && UniqueBatches(t)
  {
  }

  // ---------------------------------------------------------------- ending and admitting runs

  lemma SameBatchesUnique(s: State, t: State)
    requires UniqueBatches(s) && t.batches == s.batches
    ensures UniqueBatches(t)
  {
  }

  lemma EndParentKeepsRuns(s: State, run: nat, status: Status, cause: nat, failure: Option<string>)
    requires References(s) && UniqueRuns(s) && RunsEndOnce(s)
    ensures var t := EndParent(s, run, status, cause, failure); References(t) && UniqueRuns(t) && RunsEndOnce(t)
  {
  }

  lemma EndParentKeepsJournal(s: State, run: nat, status: Status, cause: nat, failure: Option<string>)
    requires JournalAgrees(s)
    ensures JournalAgrees(EndParent(s, run, status, cause, failure))
  {
    StatusAppend(s.events, Event(run, None, RunEnded(status, cause, failure)));
  }

  lemma EndParentKeeps(s: State, run: nat, status: Status, cause: nat, failure: Option<string>)
    requires Inv(s)
    ensures Inv(EndParent(s, run, status, cause, failure))
  {
    hide References, UniqueRuns, UniqueBatches, JournalAgrees, ClaimsOnce, EndsOnce, RunsEndOnce, Leases, AdmissionsFollowPasses, ExecutionsAdmitted;
    var t := EndParent(s, run, status, cause, failure);
    EndParentKeepsRuns(s, run, status, cause, failure);
    EndParentKeepsJournal(s, run, status, cause, failure);
    if t != s {
      AsideKeeps(s, t, Event(run, None, RunEnded(status, cause, failure)));
      SameBatchesUnique(s, t);
    }
  }

  lemma AddRunKeepsRuns(s: State, r: nat, caller: string, key: string, terms: Terms)
    requires References(s) && UniqueRuns(s) && RunsEndOnce(s)
    requires r !in s.runs && !RunKeyTaken(s, caller, key) && !SomeRunOpen(s)
    ensures var t := AddRun(s, r, caller, key, terms); References(t) && UniqueRuns(t) && RunsEndOnce(t)
  {
  }

  lemma AddRunKeepsJournal(s: State, r: nat, caller: string, key: string, terms: Terms)
    requires JournalAgrees(s) && r !in s.runs
    ensures JournalAgrees(AddRun(s, r, caller, key, terms))
  {
    StatusAppend(s.events, Event(r, None, RunAdmitted(caller)));
  }

  lemma AddRunKeeps(s: State, r: nat, caller: string, key: string, terms: Terms)
    requires Inv(s) && r !in s.runs && !RunKeyTaken(s, caller, key) && !SomeRunOpen(s)
    ensures Inv(AddRun(s, r, caller, key, terms))
  {
    hide References, UniqueRuns, UniqueBatches, JournalAgrees, ClaimsOnce, EndsOnce, RunsEndOnce, Leases, AdmissionsFollowPasses, ExecutionsAdmitted;
    var t := AddRun(s, r, caller, key, terms);
    AddRunKeepsRuns(s, r, caller, key, terms);
    AddRunKeepsJournal(s, r, caller, key, terms);
    AsideKeeps(s, t, Event(r, None, RunAdmitted(caller)));
    SameBatchesUnique(s, t);
  }

  // ---------------------------------------------------------------- admitting batches

  lemma AddBatchKeepsRows(s: State, e: nat, run: nat, caller: string, key: string, batch: Batch, fingerprint: string, at: int)
    requires References(s) && UniqueRuns(s) && UniqueBatches(s) && e !in s.batches && MayAdmit(s, run, caller, key, batch)
    ensures var t := AddBatch(s, e, run, caller, key, batch, fingerprint, at); References(t) && UniqueRuns(t) && UniqueBatches(t)
  {
  }

  lemma AddBatchKeepsJournal(s: State, e: nat, run: nat, caller: string, key: string, batch: Batch, fingerprint: string, at: int)
    requires JournalAgrees(s) && e !in s.batches
    ensures JournalAgrees(AddBatch(s, e, run, caller, key, batch, fingerprint, at))
  {
    StatusAppend(s.events, Event(run, Some(e), BatchAdmitted(batch.id, batch.authority)));
  }

  lemma AddBatchKeepsClaims(s: State, e: nat, run: nat, caller: string, key: string, batch: Batch, fingerprint: string, at: int)
    requires ClaimsOnce(s) && e !in s.batches
    ensures ClaimsOnce(AddBatch(s, e, run, caller, key, batch, fingerprint, at))
  {
    var t := AddBatch(s, e, run, caller, key, batch, fingerprint, at);
    assert forall i :: 0 <= i < |s.events| ==> t.events[i] == s.events[i];
  }

  lemma AddBatchKeepsEnds(s: State, e: nat, run: nat, caller: string, key: string, batch: Batch, fingerprint: string, at: int)
    requires EndsOnce(s) && RunsEndOnce(s) && e !in s.batches
    ensures var t := AddBatch(s, e, run, caller, key, batch, fingerprint, at); EndsOnce(t) && RunsEndOnce(t)
  {
    var t := AddBatch(s, e, run, caller, key, batch, fingerprint, at);
    assert forall i :: 0 <= i < |s.events| ==> t.events[i] == s.events[i];
  }

  lemma AddBatchKeepsLeases(s: State, e: nat, run: nat, caller: string, key: string, batch: Batch, fingerprint: string, at: int)
    requires Leases(s) && e !in s.batches
    ensures Leases(AddBatch(s, e, run, caller, key, batch, fingerprint, at))
  {
    var t := AddBatch(s, e, run, caller, key, batch, fingerprint, at);
    forall f | f in t.batches && t.batches[f].lease.Some?
      ensures exists i :: 0 <= i < |t.events| && ClaimEvent(t.events[i], f, t.batches[f].lease.value.owner, t.batches[f].lease.value.token)
    {
      var i :| 0 <= i < |s.events| && ClaimEvent(s.events[i], f, s.batches[f].lease.value.owner, s.batches[f].lease.value.token);
      assert t.events[i] == s.events[i];
    }
  }

  /** The journal says SUCCEEDED only if some entry of the execution said so last. */
  lemma {:induction false} StatusHasEvent(events: seq<Event>, e: nat)
    requires BatchStatus(events, e).Some?
    ensures exists k :: 0 <= k < |events| && events[k].exec == Some(e) && Announces(events[k].kind) == BatchStatus(events, e)
  {
    var n := |events| - 1;
    if events[n].exec == Some(e) && Announces(events[n].kind).Some? {
    } else {
      StatusHasEvent(events[..n], e);
      var k :| 0 <= k < n && events[..n][k].exec == Some(e) && Announces(events[..n][k].kind) == BatchStatus(events, e);
      assert events[k] == events[..n][k];
    }
  }

  /** A batch that counts as passed has its SUCCEEDED event in the journal already. */
  lemma PassedHasEvent(s: State, run: nat, batch: string)
    requires JournalAgrees(s) && Passed(s, run, batch)
    ensures exists k :: k < |s.events| && PassEvent(s, k, run, batch)
  {
    var e :| e in s.batches && PassedRow(s.batches[e], run, batch);
    assert BatchStatus(s.events, e) == Some(SUCCEEDED);
    StatusHasEvent(s.events, e);
    var k :| 0 <= k < |s.events| && s.events[k].exec == Some(e) && Announces(s.events[k].kind) == Some(SUCCEEDED);
    assert PassEvent(s, k, run, batch);
  }

  lemma AddBatchKeepsAdmissions(s: State, e: nat, run: nat, caller: string, key: string, batch: Batch, fingerprint: string, at: int)
    requires AdmissionsFollowPasses(s) && JournalAgrees(s) && e !in s.batches
    requires MayAdmit(s, run, caller, key, batch) && batch.id in s.catalog && s.catalog[batch.id] == batch
    ensures AdmissionsFollowPasses(AddBatch(s, e, run, caller, key, batch, fingerprint, at))
  {
    hide JournalAgrees;
    var t := AddBatch(s, e, run, caller, key, batch, fingerprint, at);
    forall i, p | 0 <= i < |t.events| && Requires(t, t.events[i], p)
      ensures exists k :: k < i && PassEvent(t, k, t.events[i].run, p)
    {
      if i < |s.events| {
        assert t.events[i] == s.events[i];
        PassesStay(s, t, i, p);
      } else {
        PassedHasEvent(s, run, p);
        var k :| k < |s.events| && PassEvent(s, k, run, p);
        PassEventStays(s, t, k, run, p);
      }
    }
    assert forall i :: 0 <= i < |s.events| ==> t.events[i] == s.events[i];
  }

  lemma AddBatchKeepsExecutions(s: State, e: nat, run: nat, caller: string, key: string, batch: Batch, fingerprint: string, at: int)
    requires ExecutionsAdmitted(s) && e !in s.batches
    ensures ExecutionsAdmitted(AddBatch(s, e, run, caller, key, batch, fingerprint, at))
  {
    var t := AddBatch(s, e, run, caller, key, batch, fingerprint, at);
    assert forall i :: 0 <= i < |s.events| ==> t.events[i] == s.events[i];
    assert Admission(t.events[|s.events|], e, run, batch.id);
    forall f | f in s.batches
      ensures exists i :: 0 <= i < |t.events| && Admission(t.events[i], f, t.batches[f].run, t.batches[f].batch)
    {
      var i :| 0 <= i < |s.events| && Admission(s.events[i], f, s.batches[f].run, s.batches[f].batch);
      assert Admission(t.events[i], f, t.batches[f].run, t.batches[f].batch);
    }
    forall k | 0 <= k < |t.events| && t.events[k].kind.Entered? && t.events[k].exec.Some?
      ensures t.events[k].exec.value in t.batches
      ensures exists i :: 0 <= i < k && Admission(t.events[i], t.events[k].exec.value,
                                                  t.batches[t.events[k].exec.value].run, t.batches[t.events[k].exec.value].batch)
    {
      var f := t.events[k].exec.value;
      var i :| 0 <= i < |s.events| && i < k && Admission(s.events[i], f, s.batches[f].run, s.batches[f].batch);
      assert Admission(t.events[i], f, t.batches[f].run, t.batches[f].batch);
    }
  }

  lemma AddBatchKeeps(s: State, e: nat, run: nat, caller: string, key: string, batch: Batch, fingerprint: string, at: int)
    requires Inv(s) && e !in s.batches
    requires MayAdmit(s, run, caller, key, batch) && batch.id in s.catalog && s.catalog[batch.id] == batch
    ensures Inv(AddBatch(s, e, run, caller, key, batch, fingerprint, at))
  {
    hide MayAdmit, References, UniqueRuns, UniqueBatches, JournalAgrees, ClaimsOnce, EndsOnce, RunsEndOnce, Leases, AdmissionsFollowPasses, ExecutionsAdmitted;
    AddBatchKeepsRows(s, e, run, caller, key, batch, fingerprint, at);
    AddBatchKeepsJournal(s, e, run, caller, key, batch, fingerprint, at);
    AddBatchKeepsClaims(s, e, run, caller, key, batch, fingerprint, at);
    AddBatchKeepsEnds(s, e, run, caller, key, batch, fingerprint, at);
    AddBatchKeepsLeases(s, e, run, caller, key, batch, fingerprint, at);
    AddBatchKeepsAdmissions(s, e, run, caller, key, batch, fingerprint, at);
    AddBatchKeepsExecutions(s, e, run, caller, key, batch, fingerprint, at);
  }

  // ---------------------------------------------------------------- transactions

  /** What the clock, the token source and the bootstrap table do leaves the invariant alone. */
  lemma FrameKeeps(s: State, t: State)
    requires Inv(s) && t.catalog == s.catalog && t.runs == s.runs && t.batches == s.batches && t.events == s.events
    requires s.issued <= t.issued
    ensures Inv(t)
  {
    hide JournalAgrees, ExecutionsAdmitted, AdmissionsFollowPasses;
    FrameKeepsJournal(s, t);
    FrameKeepsAdmissions(s, t);
  }

  lemma FrameKeepsJournal(s: State, t: State)
    requires JournalAgrees(s) && t.runs == s.runs && t.batches == s.batches && t.events == s.events
    ensures JournalAgrees(t)
  {
  }

  lemma FrameKeepsAdmissions(s: State, t: State)
    requires ExecutionsAdmitted(s) && AdmissionsFollowPasses(s)
    requires t.catalog == s.catalog && t.runs == s.runs && t.batches == s.batches && t.events == s.events
    ensures ExecutionsAdmitted(t) && AdmissionsFollowPasses(t)
  {
    forall i, p | 0 <= i < |t.events| && Requires(t, t.events[i], p)
      ensures exists k :: k < i && PassEvent(t, k, t.events[i].run, p)
    {
      PassesStay(s, t, i, p);
    }
  }

  lemma TransitionKeeps(s: State, e: nat, to: Status, test: Option<TestStatus>, failure: Option<string>)
    requires Inv(s)
    ensures Inv(Transition(s, e, to, test, failure))
  {
    hide Inv;
    if e in s.batches && Allowed(s.batches[e].status, to) {
      var row := s.batches[e].(status := to, test := test, failure := failure);
      AdvanceKeeps(s, e, row, Entered(to, failure));
      EndParentKeeps(Advance(s, e, row, Entered(to, failure)), row.run, to, e, failure);
    }
  }

  lemma ClaimKeeps(s: State, e: nat, worker: string, token: nat, lease: int)
    requires Inv(s) && token !in s.issued
    ensures Inv(Claim(s, e, worker, token, lease))
  {
    hide Inv;
    if e in s.batches && Claimable(s.batches[e]) {
      var s1 := s.(issued := s.issued + {token});
      var row := s.batches[e].(status := RUNNING, lease := Some(Lease(worker, token, s.clock + lease)));
      NoClaimHasToken(s, token);
      FrameKeeps(s, s1);
      AdvanceKeeps(s1, e, row, Claimed(worker, token));
    }
  }

  lemma NoClaimHasToken(s: State, token: nat)
    requires Inv(s) && token !in s.issued
    ensures forall i :: 0 <= i < |s.events| && s.events[i].kind.Claimed? ==> s.events[i].kind.token != token
  {
    hide References, UniqueRuns, UniqueBatches, JournalAgrees, EndsOnce, RunsEndOnce, Leases, AdmissionsFollowPasses, ExecutionsAdmitted;
    assert ClaimsOnce(s);
  }

  lemma OrphanKeeps(s: State, e: nat, failure: string)
    requires Inv(s) && e in s.batches && Active(s.batches[e].status)
    ensures Inv(Orphan(s, e, failure))
  {
    hide Inv;
    var row := Ended(s.batches[e], ORPHANED, s.batches[e].test, Some(failure));
    AdvanceKeeps(s, e, row, Entered(ORPHANED, Some(failure)));
    EndParentKeeps(Close(s, e, ORPHANED, s.batches[e].test, Some(failure)), s.batches[e].run, ORPHANED, e, Some(failure));
  }

  lemma FinishKeeps(s: State, e: nat, worker: string, token: nat, status: Status, test: Option<TestStatus>, failure: Option<string>)
    requires Inv(s)
    ensures Inv(Finish(s, e, worker, token, status, test, failure))
  {
    hide Inv;
    if Terminal(status) && Holds(s, e, worker, token) {
      AdvanceKeeps(s, e, Ended(s.batches[e], status, test, failure), Entered(status, failure));
      EndParentKeeps(Close(s, e, status, test, failure), s.batches[e].run, status, e, failure);
    }
  }

  lemma RequestCancelKeeps(s: State, e: nat)
    requires Inv(s)
    ensures Inv(RequestCancel(s, e))
  {
    hide Inv;
    if e in s.batches && !Terminal(s.batches[e].status) {
      var row := s.batches[e].(cancelRequested := true);
      if s.batches[e].status in {ADMITTED, QUEUED} {
        var ended := Ended(row, CANCELLED, row.test, Some("OPERATOR_CANCELLED"));
        AdvanceKeeps(s, e, ended, Entered(CANCELLED, None));
        EndParentKeeps(Advance(s, e, ended, Entered(CANCELLED, None)), row.run, CANCELLED, e, Some("OPERATOR_CANCELLED"));
      } else {
        AmendKeeps(s, e, row);
        RemarkKeeps(Amend(s, e, row), Event(s.batches[e].run, Some(e), CancelRequested));
      }
    }
  }

  lemma {:induction false} ReconcileKeeps(s: State, rows: seq<nat>)
    requires Inv(s)
    ensures Inv(Reconcile(s, rows))
  {
    hide Inv;
    if rows != [] {
      var s1 := Reconcile(s, rows[..|rows| - 1]);
      ReconcileKeeps(s, rows[..|rows| - 1]);
      var e := rows[|rows| - 1];
      if Expired(s1, e) {
        OrphanKeeps(s1, e, EXPIRED_CLASS);
      }
    }
  }

  /** Reconciling bootstraps touches the bootstrap table only. */
  lemma {:induction false} ReconcileBootsFrame(s: State, rows: seq<nat>)
    ensures var t := ReconcileBoots(s, rows);
      t == s.(boots := t.boots) && t.boots.Keys == s.boots.Keys
  {
    if rows != [] {
      ReconcileBootsFrame(s, rows[..|rows| - 1]);
    }
  }

  lemma BootKeeps(s: State, action: BootAction)
    requires Inv(s) && Enabled(s, BootStep(action))
    ensures Inv(ApplyBoot(s, action))
  {
    hide Inv;
    var t := ApplyBoot(s, action);
    match action {
      case DoSubmitBoot(b, run, caller, key, op, at) =>
        if MayAdmitBoot(s, run, caller, key, op) {
          var s1 := AmendBoot(s, b, NewBootRow(run, caller, key, op, at));
          FrameKeeps(s, s1);
          RemarkKeeps(s1, Event(run, Some(b), BootstrapAdmitted(op.id, op.version, op.authority)));
        }
      case DoReconcileBoots(rows) =>
        ReconcileBootsFrame(s, rows);
        FrameKeeps(s, t);
      case _ =>
        FrameKeeps(s, t);
    }
  }

  /** Every enabled transaction keeps the invariant. */
  lemma StepKeeps(s: State, step: Step)
    requires Inv(s) && Enabled(s, step)
    ensures Inv(Apply(s, step))
  {
    hide Inv;
    match step {
      case Tick(now) =>
        FrameKeeps(s, s.(clock := now));
      case DoCreateRun(r, caller, key, terms) =>
        if !RunKeyTaken(s, caller, key) && !SomeRunOpen(s) { AddRunKeeps(s, r, caller, key, terms); }
      case DoSubmitBatch(e, run, caller, key, batch, fingerprint, at) =>
        if MayAdmit(s, run, caller, key, batch) { AddBatchKeeps(s, e, run, caller, key, batch, fingerprint, at); }
      case DoTransition(e, to, test, failure) => TransitionKeeps(s, e, to, test, failure);
      case DoClaim(e, worker, token, lease) => ClaimKeeps(s, e, worker, token, lease);
      case DoHeartbeat(e, worker, token, lease) =>
        if Holds(s, e, worker, token) {
          AmendKeeps(s, e, s.batches[e].(lease := Some(Lease(worker, token, s.clock + lease))));
        }
      case DoRecordBranch(e, worker, token, branch) =>
        if Holds(s, e, worker, token) && BranchFits(s.batches[e], branch) {
          AmendKeeps(s, e, s.batches[e].(branch := Some(branch)));
        }
      case DoRequestCancel(e) => RequestCancelKeeps(s, e);
      case DoFinish(e, worker, token, status, test, failure) => FinishKeeps(s, e, worker, token, status, test, failure);
      case DoOrphan(e, worker, token, reason) =>
        if Owns(s, e, worker, token) { OrphanKeeps(s, e, reason); }
      case DoReject(e, worker, token, reason) =>
        if Owns(s, e, worker, token) {
          AdvanceKeeps(s, e, Ended(s.batches[e], ORPHANED, s.batches[e].test, Some(reason)), Entered(ORPHANED, Some(reason)));
        }
      case DoReconcile(rows) => ReconcileKeeps(s, rows);
      case BootStep(action) => BootKeeps(s, action);
    }
  }

  /** The invariant holds in every state of every behaviour. */
  lemma {:induction false} TraceKeeps(tr: Trace, n: nat)
    requires Valid(tr) && n < |tr.states|
    ensures Inv(tr.states[n])
  {
    hide Inv;
    if n == 0 {
      EmptyKeeps(tr.states[0].catalog);
    } else {
      TraceKeeps(tr, n - 1);
      StepKeeps(tr.states[n - 1], tr.steps[n - 1]);
    }
  }

  lemma EmptyKeeps(catalog: map<string, Batch>)
    ensures Inv(Empty(catalog))
  {
  }
}
