/**
  Crash confluence. When what becomes of a record is settled by the record itself, and the
  only thing that goes wrong is that the process dies around a write, then all schedules
  that drain the log agree on what was stored and on what was sent to the DLQ.
*/
module ConsumerConfluence {
  import opened Coordinates
  import opened KafkaConsumer
  import opened ConsumerRuns

  /** Every write succeeds or the process crashes around it; deserialising and serialising depend on the record. */
  predicate CrashOnly(r: Record, world: World) {
    var a := world.attempt(0);
    if r.sound then
      && world.decodes
      && (a.store.Stored? || a.store.StoreCrash?)
      && (a.commit.Commits? || a.commit.CommitCrash?)
    else
      && (!world.decodes || a.store.Refused? || a.store == StoreCrash(false))
      && (world.dlq.Acked? || world.dlq.PublishCrash?)
      && (world.dlqCommit.Commits? || world.dlqCommit.CommitCrash?)
  }

  /** No crash either. */
  predicate Clean(r: Record, world: World) {
    CrashOnly(r, world)
    && (if r.sound then world.attempt(0).store.Stored? && world.attempt(0).commit.Commits?
        else (!world.decodes || world.attempt(0).store.Refused?) && world.dlq.Acked? && world.dlqCommit.Commits?)
  }

  predicate StepIs(log: Log, n: Node, step: Step, clean: bool)
    requires Enabled(log, n, step)
  {
    match step
    case Deliver(p, world) =>
      if clean then Clean(log[p][Position(n, p)], world) else CrashOnly(log[p][Position(n, p)], world)
    case _ => !clean
  }

  /** A feasible schedule all of whose steps are crash-only, or all of whose steps are clean. */
  ghost predicate Schedule(log: Log, max: int, steps: seq<Step>, clean: bool)
    decreases |steps|
  {
    Feasible(log, max, steps) &&
    (steps == [] ||
     (Schedule(log, max, steps[..|steps| - 1], clean)
      && StepIs(log, After(log, max, steps[..|steps| - 1]), steps[|steps| - 1], clean)))
  }

  // ---------------------------------------------------------------- what a crash-only schedule can have written

  predicate RawFits(log: Log, st: Store, c: Coord) {
    && c in st.raw && InLog(log, c) && RecordAt(log, c).sound && st.raw[c].body == RecordAt(log, c).body
    && (RecordAt(log, c).eventId.Some? ==> st.raw[c].eventId == RecordAt(log, c).eventId.value)
  }

  ghost predicate WrittenFits(log: Log, st: Store) {
    && (forall c :: c in st.raw ==> RawFits(log, st, c))
    && (forall i :: 0 <= i < |st.dlq| ==> InLog(log, st.dlq[i].coord) && !RecordAt(log, st.dlq[i].coord).sound)
  }

  /** A sound record under crash-only conditions: stored or not, then committed or not. */
  lemma SoundProcess(st: Store, c: Coord, r: Record, max: int, world: World)
    requires max >= 0 && r.sound && CrashOnly(r, world)
    ensures var done := Process(st, c, r, max, world); var put := Put(st, c, r, world.attempt(0).nonce);
      && (done.store == st || done.store == put || done.store == CommitTo(put, c))
      && (Clean(r, world) ==> done.store == CommitTo(put, c) && done.outcome == Ok)
  {
  }

  /** An unsound record: published or not, then committed or not. */
  lemma UnsoundProcess(st: Store, c: Coord, r: Record, max: int, world: World)
    requires max >= 0 && !r.sound && CrashOnly(r, world)
    ensures var done := Process(st, c, r, max, world); var published := Publish(st, c, 0);
      && (done.store == st || done.store == published || done.store == CommitTo(published, c))
      && (Clean(r, world) ==> done.store == CommitTo(published, c) && done.outcome == KafkaConsumer.Dlq)
  {
  }

  lemma DeliveryFits(log: Log, max: int, n: Node, p: Partition, world: World)
    requires max >= 0 && WrittenFits(log, n.store) && Enabled(log, n, Deliver(p, world))
    requires CrashOnly(log[p][Position(n, p)], world)
    ensures WrittenFits(log, Apply(log, max, n, Deliver(p, world)).store)
  {
    var o := Position(n, p);
    var c, r := At(p, o), log[p][o];
    assert InLog(log, c) && RecordAt(log, c) == r;
    if r.sound {
      SoundProcess(n.store, c, r, max, world);
      hide Process;
      PutFits(log, n.store, c, world.attempt(0).nonce);
    } else {
      UnsoundProcess(n.store, c, r, max, world);
    }
  }

  lemma PutFits(log: Log, st: Store, c: Coord, nonce: string)
    requires WrittenFits(log, st) && InLog(log, c) && RecordAt(log, c).sound
    ensures WrittenFits(log, Put(st, c, RecordAt(log, c), nonce))
  {
  }

  lemma {:induction false} ScheduleFits(log: Log, max: int, steps: seq<Step>, clean: bool)
    requires max >= 0 && Schedule(log, max, steps, clean)
    ensures WrittenFits(log, After(log, max, steps).store)
    decreases |steps|
  {
    if steps != [] {
      var front, step := steps[..|steps| - 1], steps[|steps| - 1];
      ScheduleFits(log, max, front, clean);
      hide WrittenFits;
      if step.Deliver? {
        DeliveryFits(log, max, After(log, max, front), step.p, step.world);
      }
    }
  }

  /** A drained crash-only schedule stored exactly the sound records and sent exactly the others to the DLQ. */
  lemma DrainedExactly(log: Log, max: int, steps: seq<Step>, clean: bool, c: Coord)
    requires max >= 0 && Schedule(log, max, steps, clean) && Drained(log, After(log, max, steps).store)
    ensures var st := After(log, max, steps).store;
      && (c in st.raw <==> InLog(log, c) && RecordAt(log, c).sound)
      && (c in st.raw ==> RawFits(log, st, c))
      && (InDlq(st, c) <==> InLog(log, c) && !RecordAt(log, c).sound)
  {
    var st := After(log, max, steps).store;
    ScheduleFits(log, max, steps, clean);
    if InLog(log, c) {
      DrainedLosesNothing(log, max, steps, c);
    }
    if InDlq(st, c) {
      var i :| 0 <= i < |st.dlq| && st.dlq[i].coord == c;
    }
  }

  ghost predicate EventIdsPresent(log: Log) {
    forall c :: InLog(log, c) && RecordAt(log, c).sound ==> RecordAt(log, c).eventId.Some?
  }

  /**
    Crash confluence: two schedules that drain the same log, however they crash and restart,
    store the same keys with the same bodies and send the same failure identities to the
    DLQ; if every record carries its event id, the Raw maps are equal.
  */
  lemma CrashConfluence(log: Log, max: int, steps1: seq<Step>, steps2: seq<Step>)
    requires max >= 0 && Schedule(log, max, steps1, false) && Schedule(log, max, steps2, false)
    requires Drained(log, After(log, max, steps1).store) && Drained(log, After(log, max, steps2).store)
    ensures var s, t := After(log, max, steps1).store, After(log, max, steps2).store;
      && s.raw.Keys == t.raw.Keys
      && (forall c :: c in s.raw ==> s.raw[c].body == t.raw[c].body)
      && (forall c :: InDlq(s, c) <==> InDlq(t, c))
      && (EventIdsPresent(log) ==> s.raw == t.raw)
  {
    var s, t := After(log, max, steps1).store, After(log, max, steps2).store;
    forall c
      ensures c in s.raw <==> c in t.raw
      ensures InDlq(s, c) <==> InDlq(t, c)
      ensures c in s.raw ==> s.raw[c].body == t.raw[c].body && (EventIdsPresent(log) ==> s.raw[c] == t.raw[c])
    {
      DrainedExactly(log, max, steps1, false, c);
      DrainedExactly(log, max, steps2, false, c);
    }
  }

  // ---------------------------------------------------------------- how often an envelope is published

  function Copies(dlq: seq<Envelope>, c: Coord): nat {
    if dlq == [] then 0 else Copies(dlq[..|dlq| - 1], c) + if dlq[|dlq| - 1].coord == c then 1 else 0
  }

  lemma CopiesAppend(dlq: seq<Envelope>, ev: Envelope, c: Coord)
    ensures Copies(dlq + [ev], c) == Copies(dlq, c) + if ev.coord == c then 1 else 0
  {
    assert (dlq + [ev])[..|dlq|] == dlq;
  }

  lemma {:induction false} CopiesPositive(dlq: seq<Envelope>, c: Coord, i: nat)
    requires i < |dlq| && dlq[i].coord == c
    ensures Copies(dlq, c) >= 1
    decreases |dlq|
  {
    if i < |dlq| - 1 {
      CopiesPositive(dlq[..|dlq| - 1], c, i);
    }
  }

  /** Without crashes each unsound record below the committed offset has exactly one envelope. */
  ghost predicate OneCopyEach(log: Log, st: Store) {
    forall c :: Copies(st.dlq, c) ==
      if InLog(log, c) && !RecordAt(log, c).sound && c.offset < Committed(st, Home(c)) then 1 else 0
  }

  lemma CountsAfterSound(log: Log, st: Store, c: Coord, nonce: string)
    requires OneCopyEach(log, st) && InLog(log, c) && RecordAt(log, c).sound && Committed(st, Home(c)) == c.offset
    ensures OneCopyEach(log, CommitTo(Put(st, c, RecordAt(log, c), nonce), c))
  {
    var t := CommitTo(Put(st, c, RecordAt(log, c), nonce), c);
    assert t.dlq == st.dlq;
    forall d
      ensures Copies(t.dlq, d) == if InLog(log, d) && !RecordAt(log, d).sound && d.offset < Committed(t, Home(d)) then 1 else 0
    {
      assert Home(d) == Home(c) && d.offset == c.offset ==> d == c;
    }
  }

  lemma CountsAfterUnsound(log: Log, st: Store, c: Coord)
    requires OneCopyEach(log, st) && InLog(log, c) && !RecordAt(log, c).sound && Committed(st, Home(c)) == c.offset
    ensures OneCopyEach(log, CommitTo(Publish(st, c, 0), c))
  {
    var t := CommitTo(Publish(st, c, 0), c);
    forall d
      ensures Copies(t.dlq, d) == if InLog(log, d) && !RecordAt(log, d).sound && d.offset < Committed(t, Home(d)) then 1 else 0
    {
      CopiesAppend(st.dlq, Envelope(c, 0), d);
      assert Home(d) == Home(c) && d.offset == c.offset ==> d == c;
    }
  }

  lemma CleanDelivery(log: Log, max: int, n: Node, p: Partition, world: World)
    requires max >= 0 && OneCopyEach(log, n.store) && Enabled(log, n, Deliver(p, world)) && InStep(n)
    requires Clean(log[p][Position(n, p)], world)
    ensures OneCopyEach(log, Apply(log, max, n, Deliver(p, world)).store)
  {
    hide OneCopyEach, Process;
    var o := Position(n, p);
    var c, r := At(p, o), log[p][o];
    assert Committed(n.store, p) == o;
    assert InLog(log, c) && RecordAt(log, c) == r;
    if r.sound {
      SoundProcess(n.store, c, r, max, world);
      CountsAfterSound(log, n.store, c, world.attempt(0).nonce);
    } else {
      UnsoundProcess(n.store, c, r, max, world);
      CountsAfterUnsound(log, n.store, c);
    }
  }

  lemma {:induction false} CleanCopies(log: Log, max: int, steps: seq<Step>)
    requires max >= 0 && Schedule(log, max, steps, true)
    ensures OneCopyEach(log, After(log, max, steps).store) && After(log, max, steps).running
    decreases |steps|
  {
    if steps != [] {
      var front, step := steps[..|steps| - 1], steps[|steps| - 1];
      CleanCopies(log, max, front);
      RunKeeps(log, max, front);
      hide OneCopyEach, OffsetsCovered;
      CleanDelivery(log, max, After(log, max, front), step.p, step.world);
      CleanRuns(log, max, After(log, max, front), step.p, step.world);
    }
  }

  lemma CleanRuns(log: Log, max: int, n: Node, p: Partition, world: World)
    requires max >= 0 && Enabled(log, n, Deliver(p, world)) && Clean(log[p][Position(n, p)], world)
    ensures Apply(log, max, n, Deliver(p, world)).running
  {
  }

  /** Crashes only ever add copies: a drained crash-free schedule publishes each envelope once, any other drained one at least once. */
  lemma OnlyMultiplicityGrows(log: Log, max: int, steps: seq<Step>, clean: seq<Step>, c: Coord)
    requires max >= 0 && Schedule(log, max, steps, false) && Schedule(log, max, clean, true)
    requires Drained(log, After(log, max, steps).store) && Drained(log, After(log, max, clean).store)
    ensures var n, m := Copies(After(log, max, clean).store.dlq, c), Copies(After(log, max, steps).store.dlq, c);
      n <= 1 && n <= m && (n == 0 ==> !InDlq(After(log, max, steps).store, c))
  {
    var st := After(log, max, steps).store;
    CleanCopies(log, max, clean);
    DrainedExactly(log, max, steps, false, c);
    if InDlq(st, c) {
      var i :| 0 <= i < |st.dlq| && st.dlq[i].coord == c;
      CopiesPositive(st.dlq, c, i);
    }
  }

  // ---------------------------------------------------------------- every log can be drained

  /** A world in which nothing fails and random event ids come out as `nonce`. */
  function CleanWorld(r: Record, nonce: string): World {
    World(r.sound, _ => Attempt(Stored, Commits, Acked, nonce), Acked, Commits)
  }

  function Pending(log: Log, st: Store): set<Coord> {
    set p, o | p in log && Committed(st, p) <= o < |log[p]| :: At(p, o)
  }

  /** Objects of records without an event id carry `nonce`. */
  ghost predicate Drew(log: Log, st: Store, nonce: string) {
    forall c :: c in st.raw && InLog(log, c) && RecordAt(log, c).eventId.None? ==> st.raw[c].eventId == nonce
  }

  lemma CleanStep(log: Log, max: int, steps: seq<Step>, p: Partition, nonce: string) returns (more: seq<Step>)
    requires max >= 0 && Schedule(log, max, steps, true) && Drew(log, After(log, max, steps).store, nonce)
    requires p in log && Committed(After(log, max, steps).store, p) < |log[p]|
    ensures Schedule(log, max, more, true) && Drew(log, After(log, max, more).store, nonce)
    ensures Pending(log, After(log, max, more).store) < Pending(log, After(log, max, steps).store)
  {
    var n := After(log, max, steps);
    CleanCopies(log, max, steps) by { hide OneCopyEach; }
    RunKeeps(log, max, steps) by { hide OffsetsCovered; }
    var o := Position(n, p);
    var step := Deliver(p, CleanWorld(log[p][o], nonce));
    more := steps + [step];
    assert more[..|more| - 1] == steps;
    CleanDeliveryDraws(log, max, n, p, nonce);
  }

  lemma CleanDeliveryDraws(log: Log, max: int, n: Node, p: Partition, nonce: string)
    requires max >= 0 && n.running && InStep(n) && p in log && Position(n, p) < |log[p]| && Drew(log, n.store, nonce)
    ensures var t := Apply(log, max, n, Deliver(p, CleanWorld(log[p][Position(n, p)], nonce)));
      Drew(log, t.store, nonce) && Pending(log, t.store) < Pending(log, n.store)
  {
    var o := Position(n, p);
    var c, r := At(p, o), log[p][o];
    var world := CleanWorld(r, nonce);
    var t := Apply(log, max, n, Deliver(p, world)).store;
    if r.sound { SoundProcess(n.store, c, r, max, world); } else { UnsoundProcess(n.store, c, r, max, world); }
    hide Process;
    assert Committed(n.store, p) == o;
    PendingShrinks(log, n.store, t, p, o);
  }

  lemma PendingShrinks(log: Log, st: Store, t: Store, p: Partition, o: nat)
    requires p in log && Committed(st, p) == o < |log[p]| && t.committed == st.committed[p := o + 1]
    ensures Pending(log, t) < Pending(log, st)
  {
    assert At(p, o) in Pending(log, st);
    assert At(p, o) !in Pending(log, t);
  }

  /** Every log has a crash-free schedule that drains it. */
  lemma {:induction false} DrainExists(log: Log, max: int, steps: seq<Step>, nonce: string) returns (more: seq<Step>)
    requires max >= 0 && Schedule(log, max, steps, true) && Drew(log, After(log, max, steps).store, nonce)
    ensures Schedule(log, max, more, true) && Drained(log, After(log, max, more).store) && Drew(log, After(log, max, more).store, nonce)
    decreases Pending(log, After(log, max, steps).store)
  {
    hide Drew, Pending;
    var st := After(log, max, steps).store;
    if exists p :: p in log && Committed(st, p) < |log[p]| {
      var p :| p in log && Committed(st, p) < |log[p]|;
      var one := CleanStep(log, max, steps, p, nonce);
      more := DrainExists(log, max, one, nonce);
    } else {
      NeverPastTheEnd(log, max, steps);
      more := steps;
    }
  }

  /** Positions and committed offsets stay within the log. */
  lemma {:induction false} NeverPastTheEnd(log: Log, max: int, steps: seq<Step>)
    requires Feasible(log, max, steps)
    ensures forall p :: p in log ==> Committed(After(log, max, steps).store, p) <= |log[p]|
    decreases |steps|
  {
    if steps != [] {
      var front, step := steps[..|steps| - 1], steps[|steps| - 1];
      NeverPastTheEnd(log, max, front);
      if step.Deliver? {
        var n := After(log, max, front);
        var o := Position(n, step.p);
        ProcessHandles(n.store, At(step.p, o), log[step.p][o], max, step.world);
      }
    }
  }

  /** A delivery in which no write fails. */
  predicate Smooth(step: Step) {
    && step.Deliver? && step.world.dlq.Acked? && step.world.dlqCommit.Commits?
    && step.world.attempt(0).store.Stored? && step.world.attempt(0).commit.Commits?
  }

  /** From place `n` on, nothing fails. */
  predicate SmoothFrom(steps: seq<Step>, n: nat) {
    forall k :: n <= k < |steps| ==> Smooth(steps[k])
  }

  /** One more record delivered without any failure. */
  lemma DeliverOne(log: Log, max: int, steps: seq<Step>, p: Partition) returns (more: seq<Step>)
    requires max >= 0 && Feasible(log, max, steps) && After(log, max, steps).running
    requires p in log && Committed(After(log, max, steps).store, p) < |log[p]|
    ensures steps <= more && SmoothFrom(more, |steps|) && Feasible(log, max, more) && After(log, max, more).running
    ensures Schedule(log, max, steps, false) ==> Schedule(log, max, more, false)
    ensures Pending(log, After(log, max, more).store) < Pending(log, After(log, max, steps).store)
  {
    var n := After(log, max, steps);
    RunKeeps(log, max, steps) by { hide OffsetsCovered; }
    var o := Position(n, p);
    assert o == Committed(n.store, p);
    var r := log[p][o];
    var world := CleanWorld(r, "");
    var step := Deliver(p, world);
    more := steps + [step];
    assert more[..|more| - 1] == steps;
    assert Clean(r, world) && CrashOnly(r, world);
    CleanRuns(log, max, n, p, world);
    var t := Apply(log, max, n, step).store;
    var c := At(p, o);
    if r.sound { SoundProcess(n.store, c, r, max, world); } else { UnsoundProcess(n.store, c, r, max, world); }
    hide Process, Pending;
    PendingShrinks(log, n.store, t, p, o);
  }

  /** A running consumer can take the log to its end. */
  lemma {:induction false} DrainRunning(log: Log, max: int, steps: seq<Step>) returns (more: seq<Step>)
    requires max >= 0 && Feasible(log, max, steps) && After(log, max, steps).running
    ensures steps <= more && SmoothFrom(more, |steps|)
    ensures Feasible(log, max, more) && Drained(log, After(log, max, more).store)
    ensures Schedule(log, max, steps, false) ==> Schedule(log, max, more, false)
    decreases Pending(log, After(log, max, steps).store)
  {
    hide Pending, Feasible, Schedule;
    var st := After(log, max, steps).store;
    if exists p :: p in log && Committed(st, p) < |log[p]| {
      var p :| p in log && Committed(st, p) < |log[p]|;
      var one := DeliverOne(log, max, steps, p);
      more := DrainRunning(log, max, one);
    } else {
      NeverPastTheEnd(log, max, steps);
      more := steps;
    }
  }

  /**
    Whatever failed, crashed or stopped the consumer so far, a restart if it is down and finitely
    many deliveries without failure drain the log; a crash-only schedule remains one.
  */
  lemma DrainAlways(log: Log, max: int, steps: seq<Step>) returns (more: seq<Step>)
    requires max >= 0 && Feasible(log, max, steps)
    ensures steps <= more && (SmoothFrom(more, |steps|) || (steps + [Restart] <= more && SmoothFrom(more, |steps| + 1)))
    ensures Feasible(log, max, more) && Drained(log, After(log, max, more).store)
    ensures Schedule(log, max, steps, false) ==> Schedule(log, max, more, false)
  {
    if After(log, max, steps).running {
      more := DrainRunning(log, max, steps);
    } else {
      var again := steps + [Restart];
      assert again[..|again| - 1] == steps;
      more := DrainRunning(log, max, again);
    }
  }

  lemma CleanIsCrashOnly(log: Log, max: int, steps: seq<Step>)
    requires Schedule(log, max, steps, true)
    ensures Schedule(log, max, steps, false)
    decreases |steps|
  {
    if steps != [] {
      CleanIsCrashOnly(log, max, steps[..|steps| - 1]);
    }
  }

  ghost predicate Confluent(log: Log, max: int) {
    forall s, t :: Schedule(log, max, s, false) && Schedule(log, max, t, false)
      && Drained(log, After(log, max, s).store) && Drained(log, After(log, max, t).store)
      ==> After(log, max, s).store.raw == After(log, max, t).store.raw
  }

  /** The Raw maps of all draining schedules agree exactly when every sound record carries its event id. */
  lemma ConfluentExactlyWithEventIds(log: Log, max: int)
    requires max >= 0
    ensures Confluent(log, max) <==> EventIdsPresent(log)
  {
    if EventIdsPresent(log) {
      forall s, t | Schedule(log, max, s, false) && Schedule(log, max, t, false)
        && Drained(log, After(log, max, s).store) && Drained(log, After(log, max, t).store)
        ensures After(log, max, s).store.raw == After(log, max, t).store.raw
      {
        CrashConfluence(log, max, s, t);
      }
    } else {
      var c :| InLog(log, c) && RecordAt(log, c).sound && RecordAt(log, c).eventId.None?;
      var s, t := TwoDraws(log, max, c);
    }
  }

  /** A record without event id is stored under whatever identity was drawn. */
  lemma TwoDraws(log: Log, max: int, c: Coord) returns (s: seq<Step>, t: seq<Step>)
    requires max >= 0 && InLog(log, c) && RecordAt(log, c).sound && RecordAt(log, c).eventId.None?
    ensures Schedule(log, max, s, false) && Schedule(log, max, t, false)
    ensures Drained(log, After(log, max, s).store) && Drained(log, After(log, max, t).store)
    ensures After(log, max, s).store.raw != After(log, max, t).store.raw
  {
    s := DrainExists(log, max, [], "a");
    t := DrainExists(log, max, [], "b");
    CleanIsCrashOnly(log, max, s);
    CleanIsCrashOnly(log, max, t);
    DrainedExactly(log, max, s, true, c);
    DrainedExactly(log, max, t, true, c);
    assert After(log, max, s).store.raw[c].eventId == "a";
    assert After(log, max, t).store.raw[c].eventId == "b";
  }
}
