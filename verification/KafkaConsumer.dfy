/**
  One source record through the Kafka consumer: `process_message` with store-then-commit,
  bounded retries and DLQ-then-commit.

  The outside world is a parameter: how deserialisation, every storage attempt, every
  publication and every commit ends, including ambiguous failures (an error although the
  write landed) and a crash at any of these points.
*/
module KafkaConsumer {
  import opened Wrappers
  import opened Coordinates

  /** A source record; `sound` says that it deserialises and serialises. */
  datatype Record = Record(body: string, eventId: Option<string>, sound: bool)

  /** A Raw object: the event id is drawn at random when the record has none. */
  datatype Object = Object(body: string, eventId: string)

  datatype Envelope = Envelope(coord: Coord, retryCount: int)

  datatype Partition = Partition(topic: string, number: nat)

  function Home(c: Coord): Partition {
    Partition(c.topic, c.partition)
  }

  /** What survives a restart: Raw objects, the two failure topics, committed offsets. */
  datatype Store = Store(raw: map<Coord, Object>, dlq: seq<Envelope>, audit: seq<Envelope>, committed: map<Partition, nat>)

  /** Next offset to consume after a restart; `earliest` when nothing was committed. */
  function Committed(st: Store, p: Partition): nat {
    if p in st.committed then st.committed[p] else 0
  }

  datatype Storing =
    | Stored                     // head_object found it, or put_object succeeded
    | Refused                    // permanent: the event cannot be serialised
    | StoreFails(landed: bool)   // any other error, perhaps after the object landed
    | StoreCrash(landed: bool)

  datatype Committing = Commits | CommitFails(took: bool) | CommitCrash(took: bool)

  datatype Publishing = Acked | NotAcked(landed: bool) | PublishCrash(landed: bool)

  datatype Attempt = Attempt(store: Storing, commit: Committing, audit: Publishing, nonce: string)

  datatype World = World(decodes: bool, attempt: nat -> Attempt, dlq: Publishing, dlqCommit: Committing)

  datatype Outcome =
    | Ok          // stored and committed
    | Dlq         // published to the DLQ and committed
    | FailStop    // DlqPublishFailedError
    | Crashed     // the process died, or an error escaped the retry loop
    | Skipped     // the retry loop is empty: MAX_PROCESSING_RETRIES is negative

  // ---------------------------------------------------------------- writes

  function ObjectOf(r: Record, nonce: string): Object {
    Object(r.body, if r.eventId.Some? then r.eventId.value else nonce)
  }

  /** The write-once sink: an existing object is kept. */
  function Put(st: Store, c: Coord, r: Record, nonce: string): Store {
    if c in st.raw then st else st.(raw := st.raw[c := ObjectOf(r, nonce)])
  }

  function CommitTo(st: Store, c: Coord): Store {
    st.(committed := st.committed[Home(c) := c.offset + 1])
  }

  function When(cond: bool, yes: Store, no: Store): Store {
    if cond then yes else no
  }

  function Publish(st: Store, c: Coord, count: int): Store {
    st.(dlq := st.dlq + [Envelope(c, count)])
  }

  function Audit(st: Store, c: Coord, count: int): Store {
    st.(audit := st.audit + [Envelope(c, count)])
  }

  // ---------------------------------------------------------------- process_message as a function

  /** The store after the call, how it ended, and how many storage attempts were made from attempt `k` on. */
  datatype Done = Done(store: Store, outcome: Outcome, tries: nat)

  /** `publish_dlq_then_commit`, and the fail-stop when it raises or is not acknowledged. */
  function ToDlq(st: Store, c: Coord, k: int, world: World): Done {
    match world.dlq
    case NotAcked(landed) => Done(When(landed, Publish(st, c, k), st), FailStop, 0)
    case PublishCrash(landed) => Done(When(landed, Publish(st, c, k), st), Crashed, 0)
    case Acked =>
      var published := Publish(st, c, k);
      match world.dlqCommit
      case Commits => Done(CommitTo(published, c), Dlq, 0)
      case CommitFails(took) => Done(When(took, CommitTo(published, c), published), FailStop, 0)
      case CommitCrash(took) => Done(When(took, CommitTo(published, c), published), Crashed, 0)
  }

  /** The attempts `k, k+1, ..` of the retry loop. */
  function Attempts(st: Store, c: Coord, r: Record, max: int, k: nat, world: World): (done: Done)
    decreases max + 1 - k
  {
    if k > max then
      Done(st, Skipped, 0)
    else if !world.decodes then
      ToDlq(st, c, k, world)
    else
      var a := world.attempt(k);
      match a.store
      case Refused => Count(ToDlq(st, c, k, world))
      case StoreCrash(landed) => Done(When(landed, Put(st, c, r, a.nonce), st), Crashed, 1)
      case StoreFails(landed) => Count(Again(When(landed, Put(st, c, r, a.nonce), st), c, r, max, k, world))
      case Stored =>
        var stored := Put(st, c, r, a.nonce);
        match a.commit
        case Commits => Done(CommitTo(stored, c), Ok, 1)
        case CommitCrash(took) => Done(When(took, CommitTo(stored, c), stored), Crashed, 1)
        case CommitFails(took) => Count(Again(When(took, CommitTo(stored, c), stored), c, r, max, k, world))
  }

  function Count(done: Done): Done {
    done.(tries := done.tries + 1)
  }

  /** After a transient error: the DLQ when the retries are used up, otherwise an audit record and the next attempt. */
  function Again(st: Store, c: Coord, r: Record, max: int, k: nat, world: World): Done
    requires k <= max
    decreases max + 1 - k, 0
  {
    if k >= max then
      ToDlq(st, c, k, world)
    else
      match world.attempt(k).audit
      case PublishCrash(landed) => Done(When(landed, Audit(st, c, k + 1), st), Crashed, 0)
      case Acked => Attempts(Audit(st, c, k + 1), c, r, max, k + 1, world)
      case NotAcked(landed) => Attempts(When(landed, Audit(st, c, k + 1), st), c, r, max, k + 1, world)
  }

  function Process(st: Store, c: Coord, r: Record, max: int, world: World): Done {
    Attempts(st, c, r, max, 0, world)
  }

  // ---------------------------------------------------------------- what a call does, attempt by attempt

  /** The attempt fails in a way that deserves another one. */
  predicate Transient(a: Attempt) {
    a.store.StoreFails? || (a.store.Stored? && a.commit.CommitFails?)
  }

  predicate Succeeds(a: Attempt) {
    a.store.Stored? && a.commit.Commits?
  }

  /** The process dies in the attempt. */
  predicate Dies(a: Attempt) {
    a.store.StoreCrash? || (a.store.Stored? && a.commit.CommitCrash?)
  }

  /** Attempts `k` to `n - 1` fail transiently, and the process survives the publication of their audit records. */
  ghost predicate Retried(world: World, k: int, n: int) {
    forall i: nat :: k <= i < n ==> Transient(world.attempt(i)) && !world.attempt(i).audit.PublishCrash?
  }

  /** How the call ends when attempt `last` is the last: retries are given up only after a permanent failure or attempt `max`. */
  predicate Ends(world: World, last: nat, max: int, outcome: Outcome) {
    var a := world.attempt(last);
    if Succeeds(a) then outcome == Ok
    else if Dies(a) then outcome == Crashed
    else if a.store.Refused? || last == max then DlqSays(world, outcome)
    else a.audit.PublishCrash? && outcome == Crashed
  }

  predicate GivesUp(world: World, last: nat, max: int) {
    && !Succeeds(world.attempt(last)) && !Dies(world.attempt(last))
    && (world.attempt(last).store.Refused? || last == max)
  }

  /** The answer of the DLQ decides: "dlq" only when acknowledged and committed, otherwise fail-stop unless the process dies. */
  predicate DlqSays(world: World, outcome: Outcome) {
    && (outcome == Dlq <==> world.dlq.Acked? && world.dlqCommit.Commits?)
    && (outcome == Crashed <==> world.dlq.PublishCrash? || (world.dlq.Acked? && world.dlqCommit.CommitCrash?))
    && (outcome == Dlq || outcome == Crashed || outcome == FailStop)
  }

  /** The object is in Raw after the attempt, even if the attempt reports an error. */
  predicate Lands(a: Attempt) {
    a.store.Stored? || (!a.store.Refused? && a.store.landed)
  }

  /** The offset is committed after the attempt, even if the attempt reports an error. */
  predicate Takes(a: Attempt) {
    a.store.Stored? && (a.commit.Commits? || a.commit.took)
  }

  ghost predicate SomeLands(world: World, k: int, n: int) {
    exists i: nat :: k <= i < n && Lands(world.attempt(i))
  }

  ghost predicate SomeTakes(world: World, k: int, n: int) {
    exists i: nat :: k <= i < n && Takes(world.attempt(i))
  }

  ghost predicate FirstLanding(world: World, k: int, i: nat) {
    Lands(world.attempt(i)) && forall j: nat :: k <= j < i ==> !Lands(world.attempt(j))
  }

  /** The first attempt that lands writes the object, unless it is there already. */
  ghost predicate RawSays(was: Store, now: Store, c: Coord, r: Record, world: World, k: int, n: int) {
    if c in was.raw || !SomeLands(world, k, n) then now.raw == was.raw
    else exists i: nat :: k <= i < n && FirstLanding(world, k, i) && now.raw == was.raw[c := Object(r.body, if r.eventId.Some? then r.eventId.value else world.attempt(i).nonce)]
  }

  /** The offset behind the record is committed exactly if an attempt or the DLQ committed it. */
  ghost predicate CommittedSays(was: Store, now: Store, c: Coord, world: World, k: int, n: int, dlq: bool) {
    now.committed ==
      if SomeTakes(world, k, n) || (dlq && world.dlq.Acked? && (world.dlqCommit.Commits? || world.dlqCommit.took))
      then was.committed[Home(c) := c.offset + 1] else was.committed
  }

  /** The record is copied to the DLQ, with the number of retries made, exactly if it is given up and the publication lands. */
  predicate DlqGets(was: Store, now: Store, c: Coord, world: World, retries: int, dlq: bool) {
    now.dlq == if dlq && (world.dlq.Acked? || world.dlq.landed) then was.dlq + [Envelope(c, retries)] else was.dlq
  }

  /** The audit records of attempts `k` to `n - 1` that reach the retry topic. */
  function AuditTrail(c: Coord, world: World, k: nat, n: nat): seq<Envelope>
    requires k <= n
  {
    if k == n then []
    else AuditTrail(c, world, k, n - 1) +
         (if world.attempt(n - 1).audit.Acked? || world.attempt(n - 1).audit.landed then [Envelope(c, n)] else [])
  }

  lemma {:induction false} TrailFront(c: Coord, world: World, k: nat, n: nat)
    requires k < n
    ensures AuditTrail(c, world, k, n) == AuditTrail(c, world, k, k + 1) + AuditTrail(c, world, k + 1, n)
    decreases n
  {
    if k + 1 < n { TrailFront(c, world, k, n - 1); }
  }

  /** The store after attempt `k` itself. */
  function Tried(st: Store, c: Coord, r: Record, a: Attempt): Store {
    var stored := When(Lands(a), Put(st, c, r, a.nonce), st);
    When(Takes(a), CommitTo(stored, c), stored)
  }

  function Audited(st: Store, c: Coord, k: nat, world: World): Store {
    When(world.attempt(k).audit.Acked? || world.attempt(k).audit.landed, Audit(st, c, k + 1), st)
  }

  lemma TriedEffect(st: Store, c: Coord, r: Record, a: Attempt)
    ensures var t := Tried(st, c, r, a);
      && t.dlq == st.dlq && t.audit == st.audit
      && t.raw == (if Lands(a) && c !in st.raw then st.raw[c := ObjectOf(r, a.nonce)] else st.raw)
      && t.committed == (if Takes(a) then st.committed[Home(c) := c.offset + 1] else st.committed)
  {
  }

  lemma AuditedEffect(st: Store, c: Coord, k: nat, world: World)
    ensures var t := Audited(st, c, k, world);
      t.raw == st.raw && t.dlq == st.dlq && t.committed == st.committed && t.audit == st.audit + AuditTrail(c, world, k, k + 1)
  {
    assert AuditTrail(c, world, k, k) == [];
  }

  predicate GoesOn(world: World, k: nat, max: int) {
    k < max && Transient(world.attempt(k)) && !world.attempt(k).audit.PublishCrash?
  }

  /** One attempt of the loop. */
  lemma OneAttempt(st: Store, c: Coord, r: Record, max: int, k: nat, world: World)
    requires world.decodes && k <= max
    ensures var t := Tried(st, c, r, world.attempt(k)); var done := Attempts(st, c, r, max, k, world);
      && (Succeeds(world.attempt(k)) ==> done == Done(t, Ok, 1))
      && (Dies(world.attempt(k)) ==> done == Done(t, Crashed, 1))
      && (GivesUp(world, k, max) ==> done == Count(ToDlq(t, c, k, world)))
    ensures var t := Tried(st, c, r, world.attempt(k)); var done := Attempts(st, c, r, max, k, world);
      k < max && Transient(world.attempt(k)) ==>
        done == if world.attempt(k).audit.PublishCrash? then Done(Audited(t, c, k, world), Crashed, 1)
                else Count(Attempts(Audited(t, c, k, world), c, r, max, k + 1, world))
  {
    hide ToDlq;
  }

  /** A retried attempt and the rest of the loop. */
  lemma RetriedAttempt(st: Store, c: Coord, r: Record, max: int, k: nat, world: World) returns (next: Store)
    requires world.decodes && GoesOn(world, k, max)
    ensures Attempts(st, c, r, max, k, world) == Count(Attempts(next, c, r, max, k + 1, world))
    ensures next.dlq == st.dlq && next.audit == st.audit + AuditTrail(c, world, k, k + 1)
    ensures next.raw == if Lands(world.attempt(k)) && c !in st.raw then st.raw[c := ObjectOf(r, world.attempt(k).nonce)] else st.raw
    ensures next.committed == if Takes(world.attempt(k)) then st.committed[Home(c) := c.offset + 1] else st.committed
  {
    hide Attempts, Tried, Audited, AuditTrail;
    OneAttempt(st, c, r, max, k, world);
    TriedEffect(st, c, r, world.attempt(k));
    AuditedEffect(Tried(st, c, r, world.attempt(k)), c, k, world);
    next := Audited(Tried(st, c, r, world.attempt(k)), c, k, world);
  }

  lemma ToDlqEffect(st: Store, c: Coord, k: int, world: World)
    ensures var done := ToDlq(st, c, k, world);
      && done.tries == 0 && DlqSays(world, done.outcome) && DlqGets(st, done.store, c, world, k, true)
      && done.store.raw == st.raw && done.store.audit == st.audit
    ensures ToDlq(st, c, k, world).store.committed ==
              if world.dlq.Acked? && (world.dlqCommit.Commits? || world.dlqCommit.took)
              then st.committed[Home(c) := c.offset + 1] else st.committed
  {
  }

  /** The last attempt. */
  lemma LastAttempt(st: Store, c: Coord, r: Record, max: int, k: nat, world: World)
    requires world.decodes && k <= max && !GoesOn(world, k, max)
    ensures var done := Attempts(st, c, r, max, k, world);
      && done.tries == 1 && Ends(world, k, max, done.outcome)
      && DlqGets(st, done.store, c, world, k, GivesUp(world, k, max))
      && done.store.raw == if Lands(world.attempt(k)) && c !in st.raw then st.raw[c := ObjectOf(r, world.attempt(k).nonce)] else st.raw
    ensures var done := Attempts(st, c, r, max, k, world);
      done.store.committed ==
        if Takes(world.attempt(k)) || (GivesUp(world, k, max) && world.dlq.Acked? && (world.dlqCommit.Commits? || world.dlqCommit.took))
        then st.committed[Home(c) := c.offset + 1] else st.committed
    ensures Attempts(st, c, r, max, k, world).store.audit ==
              st.audit + if Transient(world.attempt(k)) && k < max then AuditTrail(c, world, k, k + 1) else []
  {
    hide Attempts, Tried, Audited, ToDlq, DlqSays, AuditTrail, Lands, Takes;
    OneAttempt(st, c, r, max, k, world);
    TriedEffect(st, c, r, world.attempt(k));
    var tried := Tried(st, c, r, world.attempt(k));
    AuditedEffect(tried, c, k, world);
    ToDlqEffect(tried, c, k, world);
  }

  lemma {:induction false} AttemptsEnd(st: Store, c: Coord, r: Record, max: int, k: nat, world: World)
    requires world.decodes && k <= max
    ensures var done := Attempts(st, c, r, max, k, world); var last := k + done.tries - 1;
      k <= last <= max && Retried(world, k, last) && Ends(world, last, max, done.outcome)
      && DlqGets(st, done.store, c, world, last, GivesUp(world, last, max))
    decreases max - k
  {
    if GoesOn(world, k, max) {
      var next := RetriedAttempt(st, c, r, max, k, world);
      hide Attempts;
      AttemptsEnd(next, c, r, max, k + 1, world);
    } else {
      LastAttempt(st, c, r, max, k, world);
    }
  }

  lemma {:induction false} AttemptsRaw(st: Store, c: Coord, r: Record, max: int, k: nat, world: World)
    requires world.decodes && k <= max
    ensures var done := Attempts(st, c, r, max, k, world);
      RawSays(st, done.store, c, r, world, k, k + done.tries)
    decreases max - k
  {
    if GoesOn(world, k, max) {
      var next := RetriedAttempt(st, c, r, max, k, world);
      hide Attempts;
      AttemptsRaw(next, c, r, max, k + 1, world);
      RawLonger(st, next, Attempts(next, c, r, max, k + 1, world).store, c, r, world, k, k + 1 + Attempts(next, c, r, max, k + 1, world).tries);
    } else {
      LastAttempt(st, c, r, max, k, world);
      hide Attempts;
      assert SomeLands(world, k, k + 1) <==> Lands(world.attempt(k));
      assert FirstLanding(world, k, k) <==> Lands(world.attempt(k));
    }
  }

  lemma RawLonger(st: Store, next: Store, end: Store, c: Coord, r: Record, world: World, k: nat, n: nat)
    requires k < n && RawSays(next, end, c, r, world, k + 1, n)
    requires next.raw == if Lands(world.attempt(k)) && c !in st.raw then st.raw[c := ObjectOf(r, world.attempt(k).nonce)] else st.raw
    ensures RawSays(st, end, c, r, world, k, n)
  {
    if Lands(world.attempt(k)) {
      assert FirstLanding(world, k, k);
    } else if c !in st.raw && SomeLands(world, k, n) {
      var j: nat :| k <= j < n && Lands(world.attempt(j));
      var i: nat :| k + 1 <= i < n && FirstLanding(world, k + 1, i) && end.raw == next.raw[c := Object(r.body, if r.eventId.Some? then r.eventId.value else world.attempt(i).nonce)];
      assert FirstLanding(world, k, i);
    }
  }

  lemma {:induction false} AttemptsCommit(st: Store, c: Coord, r: Record, max: int, k: nat, world: World)
    requires world.decodes && k <= max
    ensures var done := Attempts(st, c, r, max, k, world); var last := k + done.tries - 1;
      last >= k && CommittedSays(st, done.store, c, world, k, last + 1, GivesUp(world, last, max))
    decreases max - k
  {
    if GoesOn(world, k, max) {
      var next := RetriedAttempt(st, c, r, max, k, world);
      hide Attempts;
      AttemptsCommit(next, c, r, max, k + 1, world);
      var n := k + 1 + Attempts(next, c, r, max, k + 1, world).tries;
      assert SomeTakes(world, k, n) <==> Takes(world.attempt(k)) || SomeTakes(world, k + 1, n);
    } else {
      LastAttempt(st, c, r, max, k, world);
      assert SomeTakes(world, k, k + 1) <==> Takes(world.attempt(k));
    }
  }

  lemma {:induction false} AttemptsAudit(st: Store, c: Coord, r: Record, max: int, k: nat, world: World)
    requires world.decodes && k <= max
    ensures var done := Attempts(st, c, r, max, k, world); var last := k + done.tries - 1;
      last >= k && done.store.audit == st.audit + AuditTrail(c, world, k, if Transient(world.attempt(last)) && last < max then last + 1 else last)
    decreases max - k
  {
    if GoesOn(world, k, max) {
      var next := RetriedAttempt(st, c, r, max, k, world);
      hide Attempts;
      AttemptsAudit(next, c, r, max, k + 1, world);
      var last := k + Attempts(next, c, r, max, k + 1, world).tries;
      var n := if Transient(world.attempt(last)) && last < max then last + 1 else last;
      TrailFront(c, world, k, n);
    } else {
      LastAttempt(st, c, r, max, k, world);
      assert AuditTrail(c, world, k, k) == [];
    }
  }

  /** The whole call for a record that decodes, by the number of its attempts. */
  ghost predicate Accomplished(was: Store, now: Store, c: Coord, r: Record, max: int, world: World, outcome: Outcome, tries: nat) {
    && 1 <= tries <= max + 1
    && Retried(world, 0, tries - 1) && Ends(world, tries - 1, max, outcome)
    && RawSays(was, now, c, r, world, 0, tries)
    && DlqGets(was, now, c, world, tries - 1, GivesUp(world, tries - 1, max))
    && CommittedSays(was, now, c, world, 0, tries, GivesUp(world, tries - 1, max))
    && now.audit == was.audit + AuditTrail(c, world, 0, if Transient(world.attempt(tries - 1)) && tries <= max then tries else tries - 1)
  }

  /** A record that does not decode goes to the DLQ before any attempt. */
  ghost predicate SentUndecoded(was: Store, now: Store, c: Coord, world: World, outcome: Outcome, tries: nat) {
    && tries == 0 && DlqSays(world, outcome)
    && now.raw == was.raw && now.audit == was.audit && DlqGets(was, now, c, world, 0, true)
    && CommittedSays(was, now, c, world, 0, 0, true)
  }

  /** `process_message`, for every record, number of retries and course of events. */
  lemma ProcessExactly(st: Store, c: Coord, r: Record, max: int, world: World)
    ensures max >= 0 && world.decodes ==>
              var done := Process(st, c, r, max, world);
              Accomplished(st, done.store, c, r, max, world, done.outcome, done.tries)
    ensures max >= 0 && !world.decodes ==>
              var done := Process(st, c, r, max, world);
              SentUndecoded(st, done.store, c, world, done.outcome, done.tries)
    ensures max < 0 ==> Process(st, c, r, max, world) == Done(st, Skipped, 0)
  {
    if max >= 0 && world.decodes {
      hide Attempts;
      AttemptsEnd(st, c, r, max, 0, world);
      AttemptsRaw(st, c, r, max, 0, world);
      AttemptsCommit(st, c, r, max, 0, world);
      AttemptsAudit(st, c, r, max, 0, world);
      hide RawSays, CommittedSays, Retried, Ends, DlqGets, AuditTrail, GivesUp;
    }
  }

  /** Transient failures are retried: the first attempt that succeeds, within the retries, ends the call with "ok". */
  lemma FirstSuccessEnds(was: Store, now: Store, c: Coord, r: Record, max: int, world: World, outcome: Outcome, tries: nat, j: nat)
    requires Accomplished(was, now, c, r, max, world, outcome, tries)
    requires j <= max && Retried(world, 0, j) && Succeeds(world.attempt(j))
    ensures outcome == Ok && tries == j + 1
    ensures c in now.raw && now.committed == was.committed[Home(c) := c.offset + 1] && now.dlq == was.dlq
  {
    var end, success := world.attempt(tries - 1), world.attempt(j);
    assert tries - 1 == j;
    assert Lands(world.attempt(j)) && Takes(world.attempt(j));
  }

  /** A record that decodes is given up only after a permanent failure, or when all MAX_PROCESSING_RETRIES + 1 attempts failed. */
  lemma GivenUpOnlyAtTheEnd(was: Store, now: Store, c: Coord, r: Record, max: int, world: World, outcome: Outcome, tries: nat)
    requires Accomplished(was, now, c, r, max, world, outcome, tries)
    ensures outcome == Dlq || outcome == FailStop || now.dlq != was.dlq ==>
              tries == max + 1 || world.attempt(tries - 1).store.Refused?
    ensures forall i: nat :: i < tries - 1 ==> Transient(world.attempt(i))
  {
  }

  // ---------------------------------------------------------------- process_message as the loop it is

  /** `should_send_to_dlq` */
  predicate ShouldSendToDlq(permanent: bool, attempt: int, max: int) {
    permanent || attempt >= max
  }

  class Consumer {
    var raw: map<Coord, Object>
    var dlq: seq<Envelope>
    var audit: seq<Envelope>
    var committed: map<Partition, nat>
    const max: int   // MAX_PROCESSING_RETRIES

    constructor (max: int)
      ensures Snapshot() == Store(map[], [], [], map[]) && this.max == max
    {
      this.max := max;
      raw, dlq, audit, committed := map[], [], [], map[];
    }

    function Snapshot(): Store
      reads this
    {
      Store(raw, dlq, audit, committed)
    }

    method StoreEvent(c: Coord, r: Record, a: Attempt) returns (ok: bool)
      modifies this`raw
      ensures ok <==> a.store.Stored?
      ensures Snapshot() == When(ok || (!a.store.Refused? && a.store.landed), Put(old(Snapshot()), c, r, a.nonce), old(Snapshot()))
    {
      if c in raw { return a.store.Stored?; }
      if a.store.Stored? || (!a.store.Refused? && a.store.landed) {
        raw := raw[c := ObjectOf(r, a.nonce)];
      }
      return a.store.Stored?;
    }

    method Commit(c: Coord, how: Committing) returns (ok: bool)
      modifies this`committed
      ensures ok <==> how.Commits?
      ensures Snapshot() == When(ok || how.took, CommitTo(old(Snapshot()), c), old(Snapshot()))
    {
      if how.Commits? || how.took {
        committed := committed[Home(c) := c.offset + 1];
      }
      return how.Commits?;
    }

    method PublishDlqThenCommit(c: Coord, k: nat, world: World) returns (outcome: Outcome)
      modifies this
      ensures Done(Snapshot(), outcome, 0) == ToDlq(old(Snapshot()), c, k, world)
    {
      if world.dlq.Acked? || world.dlq.landed {
        dlq := dlq + [Envelope(c, k)];
      }
      if world.dlq.PublishCrash? { return Crashed; }
      if world.dlq.NotAcked? { return FailStop; }
      var ok := Commit(c, world.dlqCommit);
      if ok { return Dlq; }
      return if world.dlqCommit.CommitFails? then FailStop else Crashed;
    }

    /**
      `process_message`. It refines `Process`, whose properties the other modules prove, and
      it tries to store at most MAX_PROCESSING_RETRIES + 1 times.
    */
    method ProcessMessage(c: Coord, r: Record, world: World) returns (outcome: Outcome, tries: nat)
      modifies this
      ensures Done(Snapshot(), outcome, tries) == Process(old(Snapshot()), c, r, max, world)
      ensures max >= 0 && world.decodes ==> Accomplished(old(Snapshot()), Snapshot(), c, r, max, world, outcome, tries)
      ensures max >= 0 && !world.decodes ==> SentUndecoded(old(Snapshot()), Snapshot(), c, world, outcome, tries)
      ensures max < 0 ==> Snapshot() == old(Snapshot()) && outcome == Skipped && tries == 0
    {
      tries := 0;
      var attempt := 0;
      ghost var was := Snapshot();
      ProcessExactly(was, c, r, max, world);
      hide Accomplished, SentUndecoded, ToDlq, Put, CommitTo, Publish;
      while attempt <= max
        invariant 0 <= attempt && (attempt > 0 ==> attempt <= max)
        invariant tries == attempt || (!world.decodes && tries == 0 && attempt == 0)
        invariant Process(was, c, r, max, world) == Add(Attempts(Snapshot(), c, r, max, attempt, world), tries)
        decreases max - attempt
      {
        var permanent := !world.decodes;
        if !permanent {
          var a := world.attempt(attempt);
          tries := tries + 1;
          var stored := StoreEvent(c, r, a);
          if a.store.StoreCrash? { return Crashed, tries; }
          permanent := a.store.Refused?;
          if stored {
            var ok := Commit(c, a.commit);
            if ok { return Ok, tries; }
            if a.commit.CommitCrash? { return Crashed, tries; }
          }
        }
        if ShouldSendToDlq(permanent, attempt, max) {
          outcome := PublishDlqThenCommit(c, attempt, world);
          return;
        }
        var publishing := world.attempt(attempt).audit;
        if publishing.Acked? || publishing.landed {
          audit := audit + [Envelope(c, attempt + 1)];
        }
        if publishing.PublishCrash? { return Crashed, tries; }
        attempt := attempt + 1;
      }
      return Skipped, tries;
    }
  }

  function Add(done: Done, tries: nat): Done {
    done.(tries := done.tries + tries)
  }
}
