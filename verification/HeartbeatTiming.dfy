/**
  The timing of the heartbeats that the poll loop of `execute` drives through the worker's
  `cancel` closure. Clocks are reals on one axis; a poll starts, its heartbeat transaction
  (if one is due) reads the database clock, and the closure reads its own clock again.
*/
module HeartbeatTiming {

  datatype Poll = Poll(start: real, beat: real, after: real)

  /** The closure's cells and the row's `lease_expires_at`. */
  datatype Monitor = Monitor(last: real, expires: real, lost: bool)

  /** `max(1, lease // 3)` */
  function Interval(lease: int): int {
    if lease / 3 > 1 then lease / 3 else 1
  }

  predicate Due(m: Monitor, lease: int, p: Poll) {
    p.start - m.last >= Interval(lease) as real
  }

  /** One call of `cancel`; after a lost lease the loop is over. */
  function Beat(m: Monitor, lease: int, p: Poll): Monitor {
    if m.lost || !Due(m, lease, p) then m
    else if m.expires < p.beat then m.(lost := true)
    else Monitor(p.after, p.beat + lease as real, false)
  }

  function Run(m: Monitor, lease: int, polls: seq<Poll>): Monitor {
    if polls == [] then m else Beat(Run(m, lease, polls[..|polls| - 1]), lease, polls[|polls| - 1])
  }

  /** Each transaction takes at most `tx`, polls start at most `gap` apart, and polls do not overlap. */
  ghost predicate Timely(polls: seq<Poll>, gap: real, tx: real) {
    && (forall i :: 0 <= i < |polls| ==> polls[i].start <= polls[i].beat <= polls[i].after <= polls[i].start + tx)
    && (forall i :: 0 <= i < |polls| - 1 ==> polls[i].after <= polls[i + 1].start <= polls[i].start + gap)
  }

  /** Poll `f` is the first at which a heartbeat is due. */
  ghost predicate FirstDue(m: Monitor, lease: int, polls: seq<Poll>, f: int) {
    && 0 <= f < |polls| && Due(m, lease, polls[f])
    && forall i :: 0 <= i < f ==> !Due(m, lease, polls[i])
  }

  lemma {:induction false} NothingBeforeFirstDue(m: Monitor, lease: int, polls: seq<Poll>)
    requires forall i :: 0 <= i < |polls| ==> !Due(m, lease, polls[i])
    ensures Run(m, lease, polls) == m
  {
    if polls != [] {
      var front := polls[..|polls| - 1];
      assert forall i :: 0 <= i < |front| ==> front[i] == polls[i];
      NothingBeforeFirstDue(m, lease, front);
    }
  }

  /** After a renewal the next poll comes soon enough: `k` is the poll that renewed last. */
  ghost predicate Renewed(m: Monitor, lease: int, polls: seq<Poll>, k: int) {
    && 0 <= k < |polls| && !m.lost
    && m.last == polls[k].after && m.expires == polls[k].beat + lease as real
    && (forall i :: k < i < |polls| ==> !Due(m, lease, polls[i]))
  }

  ghost predicate Live(m: Monitor, lease: int, polls: seq<Poll>) {
    exists k :: Renewed(m, lease, polls, k)
  }

  lemma {:induction false} KeptAfterFirst(m: Monitor, lease: int, polls: seq<Poll>, gap: real, tx: real, f: int)
    requires 0.0 <= tx && !m.lost && Timely(polls, gap, tx)
    requires Interval(lease) as real + gap + 2.0 * tx <= lease as real
    requires FirstDue(m, lease, polls, f) && polls[f].beat <= m.expires
    ensures Live(Run(m, lease, polls), lease, polls)
    decreases |polls|
  {
    var n := |polls| - 1;
    var front := polls[..n];
    assert forall i :: 0 <= i < n ==> front[i] == polls[i];
    if f == n {
      NothingBeforeFirstDue(m, lease, front);
      assert Renewed(Run(m, lease, polls), lease, polls, n);
    } else {
      hide Timely, Live, Beat;
      TimelyFront(polls, gap, tx);
      KeptAfterFirst(m, lease, front, gap, tx, f);
      KeptStep(Run(m, lease, front), lease, polls, gap, tx);
    }
  }

  lemma TimelyFront(polls: seq<Poll>, gap: real, tx: real)
    requires polls != [] && Timely(polls, gap, tx)
    ensures Timely(polls[..|polls| - 1], gap, tx)
  {
  }

  lemma KeptStep(was: Monitor, lease: int, polls: seq<Poll>, gap: real, tx: real)
    requires 0.0 <= tx && |polls| >= 2 && Timely(polls, gap, tx) && Live(was, lease, polls[..|polls| - 1])
    requires Interval(lease) as real + gap + 2.0 * tx <= lease as real
    ensures Live(Beat(was, lease, polls[|polls| - 1]), lease, polls)
  {
    var n := |polls| - 1;
    var front := polls[..n];
    assert forall i :: 0 <= i < n ==> front[i] == polls[i];
    var k :| Renewed(was, lease, front, k);
    if Due(was, lease, polls[n]) {
      InTime(was, lease, polls, gap, tx, k);
      assert Renewed(Beat(was, lease, polls[n]), lease, polls, n);
    } else {
      assert Renewed(was, lease, polls, k);
    }
  }

  /** The next due heartbeat reaches the database before the last renewal runs out. */
  lemma InTime(was: Monitor, lease: int, polls: seq<Poll>, gap: real, tx: real, k: int)
    requires 0.0 <= tx && |polls| >= 2 && Timely(polls, gap, tx) && Renewed(was, lease, polls[..|polls| - 1], k)
    requires Interval(lease) as real + gap + 2.0 * tx <= lease as real
    ensures polls[|polls| - 1].beat <= was.expires
  {
    var n := |polls| - 1;
    var prev, next := polls[..n][n - 1], polls[n];
    assert next.beat <= next.start + tx <= prev.start + gap + tx;
    if k < n - 1 {
      assert !Due(was, lease, prev);
      assert prev.start < was.last + Interval(lease) as real;
    } else {
      assert prev.start <= prev.beat;
    }
    assert was.last <= polls[..n][k].beat + tx;
  }

  /**
    If heartbeats are due every max(1, lease//3) seconds, polls start at most `gap` apart,
    transactions take at most `tx`, and interval + gap + 2 tx fits into the lease, then over
    any number of polls the lease is lost exactly when the first due heartbeat comes after
    the claim's own lease has run out.
  */
  lemma LostOnlyByALateStart(m: Monitor, lease: int, polls: seq<Poll>, gap: real, tx: real)
    requires 0.0 <= tx && !m.lost && Timely(polls, gap, tx)
    requires Interval(lease) as real + gap + 2.0 * tx <= lease as real
    ensures Run(m, lease, polls).lost <==> exists f :: FirstDue(m, lease, polls, f) && m.expires < polls[f].beat
  {
    if forall i :: 0 <= i < |polls| ==> !Due(m, lease, polls[i]) {
      NothingBeforeFirstDue(m, lease, polls);
    } else {
      var f := FindFirstDue(m, lease, polls);
      if polls[f].beat <= m.expires {
        KeptAfterFirst(m, lease, polls, gap, tx, f);
      } else {
        LateStartLoses(m, lease, polls, f);
      }
      assert forall g :: FirstDue(m, lease, polls, g) ==> g == f;
    }
  }

  lemma FindFirstDue(m: Monitor, lease: int, polls: seq<Poll>) returns (f: int)
    requires exists i :: 0 <= i < |polls| && Due(m, lease, polls[i])
    ensures FirstDue(m, lease, polls, f)
  {
    f := 0;
    while !Due(m, lease, polls[f])
      invariant 0 <= f < |polls|
      invariant forall i :: 0 <= i < f ==> !Due(m, lease, polls[i])
      decreases |polls| - f
    {
      f := f + 1;
    }
  }

  /** A first heartbeat that finds the claim's lease expired loses it for good: this is what a slow Trino start does. */
  lemma {:induction false} LateStartLoses(m: Monitor, lease: int, polls: seq<Poll>, f: int)
    requires !m.lost && FirstDue(m, lease, polls, f) && m.expires < polls[f].beat
    ensures Run(m, lease, polls).lost
    decreases |polls|
  {
    var n := |polls| - 1;
    var front := polls[..n];
    assert forall i :: 0 <= i < n ==> front[i] == polls[i];
    if f == n {
      NothingBeforeFirstDue(m, lease, front);
    } else {
      LateStartLoses(m, lease, front, f);
    }
  }

  lemma TimelyPrefix(polls: seq<Poll>, gap: real, tx: real, n: nat)
    requires n <= |polls| && Timely(polls, gap, tx)
    ensures Timely(polls[..n], gap, tx)
  {
  }

  lemma {:induction false} BeatsGrow(polls: seq<Poll>, gap: real, tx: real, i: nat, j: nat)
    requires Timely(polls, gap, tx) && i <= j < |polls|
    ensures polls[i].beat <= polls[j].beat
    decreases j - i
  {
    if i < j {
      BeatsGrow(polls, gap, tx, i + 1, j);
    }
  }

  /** At instant `t`, between the heartbeat of one poll and that of the next, the row's expiry has not passed. */
  ghost predicate CoveredAt(m: Monitor, lease: int, polls: seq<Poll>, t: real) {
    forall k :: 0 <= k < |polls| && (k == 0 || polls[k - 1].beat <= t) && t <= polls[k].beat ==> t <= Run(m, lease, polls[..k]).expires
  }

  lemma CoveredUpTo(m: Monitor, lease: int, polls: seq<Poll>, gap: real, tx: real, f: int, k: nat)
    requires 0.0 <= tx && !m.lost && Timely(polls, gap, tx)
    requires Interval(lease) as real + gap + 2.0 * tx <= lease as real
    requires FirstDue(m, lease, polls, f) && polls[f].beat <= m.expires && k < |polls|
    ensures polls[k].beat <= Run(m, lease, polls[..k]).expires
  {
    var front := polls[..k];
    assert forall i :: 0 <= i < k ==> front[i] == polls[i];
    if k <= f {
      NothingBeforeFirstDue(m, lease, front);
      BeatsGrow(polls, gap, tx, k, f);
    } else {
      var upTo := polls[..k + 1];
      TimelyPrefix(polls, gap, tx, k);
      TimelyPrefix(polls, gap, tx, k + 1);
      assert upTo[..k] == front;
      hide Timely, Renewed;
      KeptAfterFirst(m, lease, front, gap, tx, f);
      var j :| Renewed(Run(m, lease, front), lease, front, j);
      InTime(Run(m, lease, front), lease, upTo, gap, tx, j);
    }
  }

  /** If the first due heartbeat is in time, the lease has not expired at any instant up to the last heartbeat. */
  lemma NeverExpires(m: Monitor, lease: int, polls: seq<Poll>, gap: real, tx: real, f: int)
    requires 0.0 <= tx && !m.lost && Timely(polls, gap, tx)
    requires Interval(lease) as real + gap + 2.0 * tx <= lease as real
    requires FirstDue(m, lease, polls, f) && polls[f].beat <= m.expires
    ensures forall t :: CoveredAt(m, lease, polls, t)
  {
    hide Run, Timely, FirstDue;
    forall k | 0 <= k < |polls| ensures polls[k].beat <= Run(m, lease, polls[..k]).expires {
      CoveredUpTo(m, lease, polls, gap, tx, f, k);
    }
    forall t ensures CoveredAt(m, lease, polls, t) {
    }
  }

  /**
    Polling starts only after the private Trino is up. If that takes until after the lease taken
    at the claim has run out, the lease is lost as soon as any heartbeat is due, and only then.
  */
  lemma SlowStartLoses(claimed: real, started: real, lease: int, polls: seq<Poll>)
    requires forall i :: 0 <= i < |polls| ==> polls[0].start <= polls[i].start <= polls[i].beat
    requires polls != [] ==> polls[0].start > claimed + lease as real
    ensures var m := Monitor(started, claimed + lease as real, false);
      Run(m, lease, polls).lost <==> exists i :: 0 <= i < |polls| && Due(m, lease, polls[i])
  {
    var m := Monitor(started, claimed + lease as real, false);
    if exists i :: 0 <= i < |polls| && Due(m, lease, polls[i]) {
      var f := FindFirstDue(m, lease, polls);
      LateStartLoses(m, lease, polls, f);
    } else {
      NothingBeforeFirstDue(m, lease, polls);
    }
  }

  /** A whole third of the lease and at least a second. */
  predicate ThirdElapsed(elapsed: real, lease: int) {
    elapsed >= 1.0 && elapsed >= (lease / 3) as real
  }

  /** The closure with its two cells, over the row's expiry column. */
  class Heartbeats {
    var last: real
    var leaseLost: bool
    var expires: real
    const lease: int

    constructor (started: real, expires: real, lease: int)
      ensures Snapshot() == Monitor(started, expires, false) && this.lease == lease
    {
      this.last, this.leaseLost, this.expires, this.lease := started, false, expires, lease;
    }

    function Snapshot(): Monitor
      reads this
    {
      Monitor(last, expires, leaseLost)
    }

    /** True stops the poll loop. */
    method Cancel(p: Poll) returns (stop: bool)
      requires !leaseLost
      modifies this
      ensures Snapshot() == Beat(old(Snapshot()), lease, p)
      ensures stop <==> leaseLost
      ensures stop <==> ThirdElapsed(p.start - old(last), lease) && old(expires) < p.beat
      ensures ThirdElapsed(p.start - old(last), lease) && !stop ==> expires == p.beat + lease as real && last == p.after
      ensures !ThirdElapsed(p.start - old(last), lease) || stop ==> expires == old(expires) && last == old(last)
    {
      if p.start - last >= Interval(lease) as real {
        if expires < p.beat {
          leaseLost := true;
          return true;
        }
        expires := p.beat + lease as real;
        last := p.after;
      }
      return false;
    }

    /** The poll loop until the child ends or the lease is lost. */
    method PollLoop(polls: seq<Poll>)
      requires !leaseLost
      modifies this
      ensures Snapshot() == Run(old(Snapshot()), lease, polls)
    {
      var i := 0;
      while i < |polls| && !leaseLost
        invariant 0 <= i <= |polls|
        invariant Snapshot() == Run(old(Snapshot()), lease, polls[..i])
      {
        var _ := Cancel(polls[i]);
        assert polls[..i + 1][..i] == polls[..i];
        i := i + 1;
      }
      if leaseLost {
        LostStays(old(Snapshot()), lease, polls, i);
      } else {
        assert polls[..i] == polls;
      }
    }
  }

  lemma {:induction false} LostStays(m: Monitor, lease: int, polls: seq<Poll>, i: nat)
    requires i <= |polls| && Run(m, lease, polls[..i]).lost
    ensures Run(m, lease, polls) == Run(m, lease, polls[..i])
    decreases |polls|
  {
    if i == |polls| {
      assert polls[..i] == polls;
    } else {
      var front := polls[..|polls| - 1];
      assert front[..i] == polls[..i];
      LostStays(m, lease, front, i);
    }
  }
}
