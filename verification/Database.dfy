/** The tables of the control plane as mutable state. */
module Database {
  import opened Wrappers
  import opened ControlPlane

  /**
    How the parent run follows an execution that entered `status`: an open run takes a failing
    status and the journal gets one more event; otherwise nothing happens.
  */
  predicate RunFollows(s: State, t: State, run: nat, status: Status, e: nat, failure: Option<string>) {
    if status in {FAILED, CANCELLED, ORPHANED} && run in s.runs && s.runs[run].status !in {SUCCEEDED, FAILED, CANCELLED, ORPHANED} then
      t == s.(runs := s.runs[run := s.runs[run].(status := status)],
              events := s.events + [Event(run, None, RunEnded(status, e, failure))])
    else
      t == s
  }

  /** The row of `e` becomes `row`, the journal notes the entered status, and the run follows. */
  ghost predicate RowEnds(s: State, t: State, e: nat, row: BatchRow, noted: Option<string>, failure: Option<string>) {
    RunFollows(s.(batches := s.batches[e := row], events := s.events + [Event(row.run, Some(e), Entered(row.status, noted))]), t,
               row.run, row.status, e, failure)
  }

  class Tables {
    var runs: map<nat, RunRow>
    var batches: map<nat, BatchRow>
    var boots: map<nat, BootRow>
    var events: seq<Event>
    var clock: int
    var issued: set<nat>
    const catalog: map<string, Batch>

    constructor (catalog: map<string, Batch>)
      ensures this.catalog == catalog && Snapshot() == Empty(catalog)
    {
      this.catalog := catalog;
      runs, batches, boots, events, clock, issued := map[], map[], map[], [], 0, {};
    }

    /** The step-system state these tables stand for. */
    function Snapshot(): State
      reads this
    {
      State(catalog, runs, batches, boots, events, clock, issued)
    }

    /** `_event` */
    method WriteEvent(ev: Event)
      modifies this`events
      ensures Snapshot() == Remark(old(Snapshot()), ev)
      ensures Snapshot() == old(Snapshot()).(events := old(events) + [ev])
    {
      events := events + [ev];
    }

    /** `_terminalize_parent_failure` */
    method TerminalizeParent(run: nat, e: nat, status: Status, failure: Option<string>)
      modifies this`runs, this`events
      ensures Snapshot() == EndParent(old(Snapshot()), run, status, e, failure)
      ensures RunFollows(old(Snapshot()), Snapshot(), run, status, e, failure)
    {
      if !Failing(status) { return; }
      if run in runs && !Terminal(runs[run].status) {
        runs := runs[run := runs[run].(status := status)];
        WriteEvent(Event(run, None, RunEnded(status, e, failure)));
      }
    }
  }
}
