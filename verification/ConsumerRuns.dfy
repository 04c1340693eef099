/**
  The consumer over time: records are delivered in order from each partition, the process
  fails, is killed and restarts from the committed offsets.
*/
module ConsumerRuns {
  import opened Coordinates
  import opened KafkaConsumer

  type Log = map<Partition, seq<Record>>

  /** `position` is the consumer's own place in each partition; it is lost in a restart. */
  datatype Node = Node(store: Store, position: map<Partition, nat>, running: bool)

  datatype Step = Deliver(p: Partition, world: World) | Kill | Restart

  const Start: Node := Node(Store(map[], [], [], map[]), map[], true)

  function Position(n: Node, p: Partition): nat {
    if p in n.position then n.position[p] else Committed(n.store, p)
  }

  function At(p: Partition, offset: nat): Coord {
    Coord(p.topic, p.number, offset)
  }

  predicate Enabled(log: Log, n: Node, step: Step) {
    match step
    case Deliver(p, _) => n.running && p in log && Position(n, p) < |log[p]|
    case Kill => n.running
    case Restart => !n.running
  }

  function Apply(log: Log, max: int, n: Node, step: Step): Node
    requires Enabled(log, n, step)
  {
    match step
    case Deliver(p, world) =>
      var o := Position(n, p);
      var done := Process(n.store, At(p, o), log[p][o], max, world);
      Node(done.store, n.position[p := o + 1], done.outcome.Ok? || done.outcome.Dlq? || done.outcome.Skipped?)
    case Kill => n.(running := false)
    case Restart => Node(n.store, map[], true)
  }

  /** The schedules that can happen, and the node they lead to. */
  ghost predicate Feasible(log: Log, max: int, steps: seq<Step>)
    decreases |steps|, 0
  {
    steps == [] ||
    (Feasible(log, max, steps[..|steps| - 1]) && Enabled(log, After(log, max, steps[..|steps| - 1]), steps[|steps| - 1]))
  }

  ghost function After(log: Log, max: int, steps: seq<Step>): Node
    requires Feasible(log, max, steps)
    decreases |steps|, 1
  {
    if steps == [] then Start else Apply(log, max, After(log, max, steps[..|steps| - 1]), steps[|steps| - 1])
  }

  // ---------------------------------------------------------------- one record

  ghost predicate InDlq(st: Store, c: Coord) {
    exists i :: 0 <= i < |st.dlq| && st.dlq[i].coord == c
  }

  /** The record is in Raw or in the DLQ, or in both. */
  ghost predicate Accounted(st: Store, c: Coord) {
    c in st.raw || InDlq(st, c)
  }

  /** Nothing stored or published is ever lost or overwritten. */
  ghost predicate Grows(st: Store, t: Store) {
    && (forall c :: c in st.raw ==> c in t.raw && t.raw[c] == st.raw[c])
    && st.dlq <= t.dlq
  }

  /** The committed offsets are as before, or advanced past record `c` which is accounted for. */
  ghost predicate Commits1(st: Store, t: Store, c: Coord) {
    || t.committed == st.committed
    || (t.committed == st.committed[Home(c) := c.offset + 1] && Accounted(t, c))
  }

  ghost predicate Handles(st: Store, t: Store, c: Coord) {
    Grows(st, t) && Commits1(st, t, c)
  }

  lemma HandlesThen(st: Store, t: Store, u: Store, c: Coord)
    requires Handles(st, t, c) && Handles(t, u, c)
    ensures Handles(st, u, c)
  {
    if InDlq(t, c) {
      var i :| 0 <= i < |t.dlq| && t.dlq[i].coord == c;
      assert u.dlq[i].coord == c;
    }
  }

  lemma PublishedIsInDlq(st: Store, c: Coord, k: int)
    ensures InDlq(Publish(st, c, k), c)
  {
    assert Publish(st, c, k).dlq[|st.dlq|].coord == c;
  }

  lemma ToDlqHandles(st: Store, c: Coord, k: int, world: World)
    ensures var done := ToDlq(st, c, k, world);
      && Handles(st, done.store, c)
      && (done.outcome.Dlq? ==> done.store.committed == st.committed[Home(c) := c.offset + 1])
      && !done.outcome.Ok? && !done.outcome.Skipped?
  {
    PublishedIsInDlq(st, c, k);
    assert forall t: Store :: t == CommitTo(Publish(st, c, k), c) ==> (InDlq(t, c) <==> InDlq(Publish(st, c, k), c));
  }

  /** Every call of `process_message` keeps what is stored, and commits only a record that is accounted for. */
  lemma {:induction false} AttemptsHandle(st: Store, c: Coord, r: Record, max: int, k: nat, world: World)
    ensures var done := Attempts(st, c, r, max, k, world);
      && Handles(st, done.store, c)
      && (done.outcome.Ok? || done.outcome.Dlq? ==> Home(c) in done.store.committed && done.store.committed[Home(c)] == c.offset + 1)
      && (done.outcome.Skipped? ==> k > max && done.store == st)
    decreases max + 1 - k
  {
    if k <= max {
      if !world.decodes {
        ToDlqHandles(st, c, k, world);
      } else {
        var a := world.attempt(k);
        var st1 := Put(st, c, r, a.nonce);
        if a.store.Refused? {
          ToDlqHandles(st, c, k, world);
        } else if a.store.StoreFails? {
          AgainHandles(When(a.store.landed, st1, st), c, r, max, k, world);
          HandlesThen(st, When(a.store.landed, st1, st), Attempts(st, c, r, max, k, world).store, c);
        } else if a.store.Stored? && a.commit.CommitFails? {
          var st2 := When(a.commit.took, CommitTo(st1, c), st1);
          AgainHandles(st2, c, r, max, k, world);
          HandlesThen(st, st2, Attempts(st, c, r, max, k, world).store, c);
        }
      }
    }
  }

  lemma {:induction false} AgainHandles(st: Store, c: Coord, r: Record, max: int, k: nat, world: World)
    requires k <= max
    ensures var done := Again(st, c, r, max, k, world);
      && Handles(st, done.store, c)
      && (done.outcome.Ok? || done.outcome.Dlq? ==> Home(c) in done.store.committed && done.store.committed[Home(c)] == c.offset + 1)
      && !done.outcome.Skipped?
    decreases max + 1 - k, 0
  {
    if k >= max {
      ToDlqHandles(st, c, k, world);
    } else if !world.attempt(k).audit.PublishCrash? {
      var audited := When(world.attempt(k).audit.Acked? || world.attempt(k).audit.landed, Audit(st, c, k + 1), st);
      AttemptsHandle(audited, c, r, max, k + 1, world);
      HandlesThen(st, audited, Attempts(audited, c, r, max, k + 1, world).store, c);
    }
  }

  lemma {:induction false} SkippedOnlyPast(st: Store, c: Coord, r: Record, max: int, k: nat, world: World)
    ensures Attempts(st, c, r, max, k, world).outcome.Skipped? <==> k > max
    decreases max + 1 - k
  {
    AttemptsHandle(st, c, r, max, k, world);
  }

  /** A record is passed over exactly when MAX_PROCESSING_RETRIES is negative, and then nothing is tried, stored or committed. */
  lemma SkippedExactly(st: Store, c: Coord, r: Record, max: int, world: World)
    ensures var done := Process(st, c, r, max, world);
      && (done.outcome.Skipped? <==> max < 0)
      && (max < 0 ==> done.store == st && done.tries == 0)
  {
    SkippedOnlyPast(st, c, r, max, 0, world);
  }

  // ---------------------------------------------------------------- the offset invariant

  /** Every offset below a committed offset is accounted for. */
  ghost predicate OffsetsCovered(st: Store) {
    forall p, o :: 0 <= o < Committed(st, p) ==> Accounted(st, At(p, o))
  }

  ghost predicate InStep(n: Node) {
    forall p :: Position(n, p) == Committed(n.store, p)
  }

  ghost predicate NodeInv(max: int, n: Node) {
    && OffsetsCovered(n.store)
    && (n.running && max >= 0 ==> InStep(n))
    && (max < 0 ==> n.store == Start.store)
  }

  lemma AccountedStays(st: Store, t: Store, c: Coord)
    requires Grows(st, t) && Accounted(st, c)
    ensures Accounted(t, c)
  {
    if InDlq(st, c) {
      var i :| 0 <= i < |st.dlq| && st.dlq[i].coord == c;
      assert t.dlq[i].coord == c;
    }
  }

  lemma DeliverCovers(st: Store, t: Store, p: Partition, o: nat)
    requires OffsetsCovered(st) && Handles(st, t, At(p, o)) && Committed(st, p) == o
    ensures OffsetsCovered(t)
  {
    forall q, x | 0 <= x < Committed(t, q)
      ensures Accounted(t, At(q, x))
    {
      if x < Committed(st, q) {
        AccountedStays(st, t, At(q, x));
      } else {
        assert q == p && x == o;
      }
    }
  }

  lemma StepKeeps(log: Log, max: int, n: Node, step: Step)
    requires NodeInv(max, n) && Enabled(log, n, step)
    ensures NodeInv(max, Apply(log, max, n, step)) && Grows(n.store, Apply(log, max, n, step).store)
  {
    match step {
      case Deliver(p, world) =>
        var o := Position(n, p);
        AttemptsHandle(n.store, At(p, o), log[p][o], max, 0, world);
        if max >= 0 {
          DeliverKeeps(log, max, n, p, world);
        }
      case _ =>
    }
  }

  lemma DeliverKeeps(log: Log, max: int, n: Node, p: Partition, world: World)
    requires NodeInv(max, n) && Enabled(log, n, Deliver(p, world)) && max >= 0
    ensures NodeInv(max, Apply(log, max, n, Deliver(p, world)))
  {
    hide Process, Handles;
    var o := Position(n, p);
    var t := Apply(log, max, n, Deliver(p, world));
    ProcessHandles(n.store, At(p, o), log[p][o], max, world);
    DeliverCovers(n.store, t.store, p, o);
    if t.running {
      DeliverInStep(n, t, p, o);
    }
  }

  lemma ProcessHandles(st: Store, c: Coord, r: Record, max: int, world: World)
    ensures var done := Process(st, c, r, max, world);
      && Handles(st, done.store, c)
      && (done.outcome.Ok? || done.outcome.Dlq? ==> Home(c) in done.store.committed && done.store.committed[Home(c)] == c.offset + 1)
      && (done.outcome.Skipped? ==> max < 0)
  {
    AttemptsHandle(st, c, r, max, 0, world);
  }

  lemma DeliverInStep(n: Node, t: Node, p: Partition, o: nat)
    requires InStep(n) && Handles(n.store, t.store, At(p, o)) && t.position == n.position[p := o + 1]
    requires p in t.store.committed && t.store.committed[p] == o + 1
    ensures InStep(t)
  {
    hide Accounted, Grows;
    forall q
      ensures Position(t, q) == Committed(t.store, q)
    {
      assert Position(n, q) == Committed(n.store, q);
    }
  }

  lemma {:induction false} RunKeeps(log: Log, max: int, steps: seq<Step>)
    requires Feasible(log, max, steps)
    ensures NodeInv(max, After(log, max, steps))
    decreases |steps|
  {
    if steps != [] {
      var front := steps[..|steps| - 1];
      RunKeeps(log, max, front);
      StepKeeps(log, max, After(log, max, front), steps[|steps| - 1]) by { hide NodeInv, Apply; }
    }
  }

  /**
    The offset invariant: in every state that any schedule of deliveries, failures, crashes
    and restarts reaches, for every setting of MAX_PROCESSING_RETRIES, each offset below a
    committed offset has its Raw object or a DLQ envelope.
  */
  lemma OffsetInvariant(log: Log, max: int, steps: seq<Step>, p: Partition, o: nat)
    requires Feasible(log, max, steps) && o < Committed(After(log, max, steps).store, p)
    ensures Accounted(After(log, max, steps).store, At(p, o))
  {
    RunKeeps(log, max, steps);
  }

  lemma GrowsThen(st: Store, t: Store, u: Store)
    requires Grows(st, t) && Grows(t, u)
    ensures Grows(st, u)
  {
  }

  /** Raw objects are never overwritten and DLQ envelopes never withdrawn, in any continuation of a schedule. */
  lemma {:induction false} NothingIsOverwritten(log: Log, max: int, steps: seq<Step>, n: nat)
    requires n <= |steps| && Feasible(log, max, steps)
    ensures Feasible(log, max, steps[..n]) && Grows(After(log, max, steps[..n]).store, After(log, max, steps).store)
    decreases |steps|
  {
    if n == |steps| {
      assert steps[..n] == steps;
    } else {
      var front := steps[..|steps| - 1];
      assert front[..n] == steps[..n];
      NothingIsOverwritten(log, max, front, n);
      RunKeeps(log, max, front);
      StepKeeps(log, max, After(log, max, front), steps[|steps| - 1]) by { hide NodeInv, Apply; }
      GrowsThen(After(log, max, steps[..n]).store, After(log, max, front).store, After(log, max, steps).store);
    }
  }

  /** Everything in the log has been committed. */
  ghost predicate Drained(log: Log, st: Store) {
    forall p :: p in log ==> Committed(st, p) == |log[p]|
  }

  predicate InLog(log: Log, c: Coord) {
    Home(c) in log && c.offset < |log[Home(c)]|
  }

  function RecordAt(log: Log, c: Coord): Record
    requires InLog(log, c)
  {
    log[Home(c)][c.offset]
  }

  /** A drained log lost no record. */
  lemma DrainedLosesNothing(log: Log, max: int, steps: seq<Step>, c: Coord)
    requires Feasible(log, max, steps) && Drained(log, After(log, max, steps).store) && InLog(log, c)
    ensures Accounted(After(log, max, steps).store, c)
  {
    OffsetInvariant(log, max, steps, Home(c), c.offset);
    assert At(Home(c), c.offset) == c;
  }
}
