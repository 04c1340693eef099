/**
  `ToolRegistry._call`: nested, retried tool calls under one budget for the whole request.

  What a tool function does is a behaviour: each of its executions may make further calls, react
  to their failure or let it through, and return or raise. Tools may call each other in cycles.
*/
module ToolBudget {
  import opened Wrappers

  datatype Error = LimitExceeded | PlainToolError | PermissionDenied | ToolTimeout | TimeoutError | ConnectionError | OSError | OtherError

  /** `_is_transient` */
  predicate Transient(e: Error) {
    e.ToolTimeout? || e.TimeoutError? || e.ConnectionError? || e.OSError?
  }

  datatype Outcome = Returned(value: int) | Failed(error: Error)

  /** One execution of a tool function. `failed` is None where the error of a nested call is let through. */
  datatype Body =
    | Returns(value: int)
    | Raises(error: Error)
    | Calls(tool: string, ok: Body, failed: Option<Body>)

  datatype Record = Record(tool: string, completed: bool, attempts: nat)
  datatype State = State(calls: seq<Record>, executions: nat)

  /** `behaviour(tool, n)` is what the request's n-th function execution does when it is one of `tool`. */
  datatype Registry = Registry(maxCalls: int, maxRetries: int, behaviour: (string, nat) -> Body)

  function Left(c: Registry, st: State): nat {
    if |st.calls| < c.maxCalls then c.maxCalls - |st.calls| else 0
  }

  function Reserve(st: State, tool: string): State {
    st.(calls := st.calls + [Record(tool, true, 0)])
  }

  function Note(st: State, slot: nat, completed: bool, attempts: nat): State
    requires slot < |st.calls|
  {
    st.(calls := st.calls[slot := st.calls[slot].(completed := completed, attempts := attempts)])
  }

  function Call(c: Registry, st: State, tool: string): (r: (State, Outcome))
    ensures |st.calls| <= |r.0.calls|
    decreases Left(c, st), 0
  {
    if |st.calls| >= c.maxCalls then (st, Failed(LimitExceeded))
    else Attempt(c, Reserve(st, tool), |st.calls|, 1)
  }

  function Attempt(c: Registry, st: State, slot: nat, attempt: nat): (r: (State, Outcome))
    requires slot < |st.calls|
    ensures |st.calls| <= |r.0.calls|
    decreases Left(c, st), 2, if attempt <= c.maxRetries then c.maxRetries + 1 - attempt else 0
  {
    var ran := Run(c, st.(executions := st.executions + 1), c.behaviour(st.calls[slot].tool, st.executions));
    var noted := Note(ran.0, slot, ran.1.Returned?, attempt);
    if ran.1.Failed? && Transient(ran.1.error) && attempt <= c.maxRetries then Attempt(c, noted, slot, attempt + 1)
    else (noted, ran.1)
  }

  function Run(c: Registry, st: State, body: Body): (r: (State, Outcome))
    ensures |st.calls| <= |r.0.calls|
    decreases Left(c, st), 1, body
  {
    match body
    case Returns(value) => (st, Returned(value))
    case Raises(error) => (st, Failed(error))
    case Calls(tool, ok, failed) =>
      var called := Call(c, st, tool);
      if called.1.Returned? then Run(c, called.0, ok)
      else if failed.Some? then Run(c, called.0, failed.value)
      else called
  }

  // ---------------------------------------------------------------- which answer comes out

  /** One execution of a tool function and the calls it made, in order. */
  datatype Exec = Exec(before: State, after: State, outcome: Outcome, nested: seq<CallTree>)

  /** One call and its tries; a call over the budget has none. */
  datatype CallTree = CallTree(tool: string, before: State, after: State, outcome: Outcome, tries: seq<Exec>)

  /** The way through a body: at each call it goes on with `ok` or `failed`, or ends with the error of that call. */
  ghost predicate Path(body: Body, nested: seq<CallTree>, outcome: Outcome) {
    match body
    case Returns(value) => nested == [] && outcome == Returned(value)
    case Raises(error) => nested == [] && outcome == Failed(error)
    case Calls(tool, ok, failed) =>
      && nested != [] && nested[0].tool == tool
      && if nested[0].outcome.Returned? then Path(ok, nested[1..], outcome)
         else if failed.Some? then Path(failed.value, nested[1..], outcome)
         else |nested| == 1 && outcome == nested[0].outcome
  }

  /** The calls happened one after another, and each as it says. */
  ghost predicate Chained(c: Registry, from: State, nested: seq<CallTree>, to: State)
    decreases nested
  {
    if nested == [] then to == from
    else nested[0].before == from && Genuine(c, nested[0]) && Chained(c, nested[0].after, nested[1..], to)
  }

  ghost predicate GenuineExec(c: Registry, tool: string, x: Exec)
    decreases x
  {
    && Path(c.behaviour(tool, x.before.executions), x.nested, x.outcome)
    && Chained(c, State(x.before.calls, x.before.executions + 1), x.nested, x.after)
  }

  /** Tries number `attempt` and on: each but the last failed for a passing reason, and the last is the answer. */
  ghost predicate Tried(c: Registry, tool: string, slot: nat, attempt: nat, from: State, tries: seq<Exec>, to: State, outcome: Outcome)
    decreases tries
  {
    && tries != [] && tries[0].before == from && GenuineExec(c, tool, tries[0]) && slot < |tries[0].after.calls|
    && var x := tries[0]; var passing := x.outcome.Failed? && x.outcome.error in {ToolTimeout, TimeoutError, ConnectionError, OSError};
    && var noted := State(x.after.calls[slot := Record(tool, x.outcome.Returned?, attempt)], x.after.executions);
    if passing && attempt <= c.maxRetries then Tried(c, tool, slot, attempt + 1, noted, tries[1..], to, outcome)
    else |tries| == 1 && to == noted && outcome == x.outcome
  }

  /** Nothing happens over the budget; within it the call is recorded and tried. */
  ghost predicate Genuine(c: Registry, t: CallTree)
    decreases t
  {
    if |t.before.calls| >= c.maxCalls then t.tries == [] && t.after == t.before && t.outcome == Failed(LimitExceeded)
    else
      Tried(c, t.tool, |t.before.calls|, 1, State(t.before.calls + [Record(t.tool, true, 0)], t.before.executions), t.tries, t.after, t.outcome)
  }

  /** Some genuine call of the tool leads from one state to the other and ends like this. */
  ghost predicate CallLeads(c: Registry, tool: string, before: State, after: State, outcome: Outcome) {
    exists t: CallTree :: Genuine(c, t) && t.tool == tool && t.before == before && t.after == after && t.outcome == outcome
  }

  ghost predicate BodyLeads(c: Registry, body: Body, before: State, after: State, outcome: Outcome) {
    exists nested: seq<CallTree> :: Path(body, nested, outcome) && Chained(c, before, nested, after)
  }

  lemma {:induction false} CallTreeOf(c: Registry, st: State, tool: string) returns (t: CallTree)
    ensures Genuine(c, t) && t.tool == tool && t.before == st && (t.after, t.outcome) == Call(c, st, tool)
    decreases Left(c, st), 0
  {
    var r := Call(c, st, tool);
    if |st.calls| >= c.maxCalls {
      t := CallTree(tool, st, r.0, r.1, []);
    } else {
      var tries := TriesOf(c, Reserve(st, tool), |st.calls|, 1);
      t := CallTree(tool, st, r.0, r.1, tries);
    }
  }

  lemma {:induction false} TriesOf(c: Registry, st: State, slot: nat, attempt: nat) returns (tries: seq<Exec>)
    requires slot < |st.calls|
    ensures var r := Attempt(c, st, slot, attempt); Tried(c, st.calls[slot].tool, slot, attempt, st, tries, r.0, r.1)
    decreases Left(c, st), 2, if attempt <= c.maxRetries then c.maxRetries + 1 - attempt else 0
  {
    var tool := st.calls[slot].tool;
    var body := c.behaviour(tool, st.executions);
    var started := st.(executions := st.executions + 1);
    var nested := NestedOf(c, started, body);
    ToolStays(c, started, slot, body);
    var ran := Run(c, started, body);
    var x := Exec(st, ran.0, ran.1, nested);
    assert GenuineExec(c, tool, x);
    var noted := Note(ran.0, slot, ran.1.Returned?, attempt);
    hide Run, GenuineExec, Path, Chained;
    if ran.1.Failed? && Transient(ran.1.error) && attempt <= c.maxRetries {
      var more := TriesOf(c, noted, slot, attempt + 1);
      tries := [x] + more;
      assert tries[1..] == more;
    } else {
      tries := [x];
    }
  }

  lemma {:induction false} NestedOf(c: Registry, st: State, body: Body) returns (nested: seq<CallTree>)
    ensures var r := Run(c, st, body); Path(body, nested, r.1) && Chained(c, st, nested, r.0)
    decreases Left(c, st), 1, body
  {
    nested := [];
    if body.Calls? {
      var t := CallTreeOf(c, st, body.tool);
      hide Call, Genuine;
      var more := [];
      if t.outcome.Returned? {
        more := NestedOf(c, t.after, body.ok);
      } else if body.failed.Some? {
        more := NestedOf(c, t.after, body.failed.value);
      }
      nested := [t] + more;
      assert nested[1..] == more;
    }
  }

  /** What is left of a body after these calls. */
  ghost predicate Follows(body: Body, nested: seq<CallTree>, rest: Body) {
    if nested == [] then rest == body
    else
      && body.Calls? && nested[0].tool == body.tool
      && if nested[0].outcome.Returned? then Follows(body.ok, nested[1..], rest)
         else body.failed.Some? && Follows(body.failed.value, nested[1..], rest)
  }

  /** The last call failed and the body does not handle that. */
  ghost predicate LetThrough(body: Body, nested: seq<CallTree>, error: Error) {
    && nested != [] && nested[|nested| - 1].outcome == Failed(error)
    && Unhandled(body, nested[..|nested| - 1], nested[|nested| - 1].tool)
  }

  /** After these calls the body makes one more and does not handle its failure. */
  ghost predicate Unhandled(body: Body, nested: seq<CallTree>, tool: string) {
    exists rest :: Follows(body, nested, rest) && rest.Calls? && rest.tool == tool && rest.failed.None?
  }

  /**
    The answer of one execution: it returns a value exactly when its way through the body ends in
    returning that value, and it fails with an error exactly when the way ends in raising it or
    in a nested call that failed with it unhandled. So no unhandled failure becomes a return.
  */
  lemma {:induction false} PathMeans(body: Body, nested: seq<CallTree>, outcome: Outcome)
    ensures Path(body, nested, outcome) <==>
              if outcome.Returned? then Follows(body, nested, Returns(outcome.value))
              else Follows(body, nested, Raises(outcome.error)) || LetThrough(body, nested, outcome.error)
    decreases body
  {
    if body.Calls? && nested != [] && nested[0].tool == body.tool {
      var rest := nested[1..];
      if nested[0].outcome.Returned? {
        PathMeans(body.ok, rest, outcome);
        if outcome.Failed? { ThroughMore(body, body.ok, nested, outcome.error); }
      } else if body.failed.Some? {
        PathMeans(body.failed.value, rest, outcome);
        if outcome.Failed? { ThroughMore(body, body.failed.value, nested, outcome.error); }
      } else if outcome.Failed? {
        UnhandledNow(body, nested, outcome.error);
      }
    } else if outcome.Failed? && nested != [] {
      NotCalled(body, nested, outcome.error);
    }
  }

  lemma ThroughMore(body: Body, next: Body, nested: seq<CallTree>, error: Error)
    requires body.Calls? && nested != [] && nested[0].tool == body.tool
    requires if nested[0].outcome.Returned? then next == body.ok else body.failed == Some(next)
    ensures LetThrough(body, nested, error) <==> LetThrough(next, nested[1..], error)
  {
    var front := nested[..|nested| - 1];
    if |nested| > 1 {
      assert nested[1..][..|nested| - 2] == front[1..] && front[0] == nested[0];
      assert nested[1..][|nested| - 2] == nested[|nested| - 1];
    }
  }

  lemma UnhandledNow(body: Body, nested: seq<CallTree>, error: Error)
    requires body.Calls? && body.failed.None? && nested != [] && nested[0].tool == body.tool && nested[0].outcome.Failed?
    ensures LetThrough(body, nested, error) <==> |nested| == 1 && nested[0].outcome == Failed(error)
  {
    var front := nested[..|nested| - 1];
    if |nested| > 1 { assert front[0] == nested[0]; }
    if |nested| == 1 { assert Follows(body, front, body); }
  }

  lemma NotCalled(body: Body, nested: seq<CallTree>, error: Error)
    requires nested != [] && !(body.Calls? && nested[0].tool == body.tool)
    ensures !LetThrough(body, nested, error)
  {
    var front := nested[..|nested| - 1];
    if |nested| > 1 { assert front[0] == nested[0]; }
  }

  lemma CallAnswers(c: Registry, st: State, tool: string)
    ensures var r := Call(c, st, tool); CallLeads(c, tool, st, r.0, r.1)
  {
    var t := CallTreeOf(c, st, tool);
    hide Genuine, Call;
  }

  lemma BodyAnswers(c: Registry, st: State, body: Body)
    ensures var r := Run(c, st, body); BodyLeads(c, body, st, r.0, r.1)
  {
    var nested := NestedOf(c, st, body);
    hide Path, Chained, Run;
  }

  /** A genuine call ends as its last try does; every try before it failed for a passing reason, and so did the last if the tries are used up. */
  lemma {:induction false} LastTryAnswers(c: Registry, tool: string, slot: nat, attempt: nat, from: State, tries: seq<Exec>, to: State, outcome: Outcome)
    requires Tried(c, tool, slot, attempt, from, tries, to, outcome)
    ensures outcome == tries[|tries| - 1].outcome
    ensures forall i :: 0 <= i < |tries| - 1 ==> tries[i].outcome.Failed? && Transient(tries[i].outcome.error)
    ensures outcome.Failed? && Transient(outcome.error) ==> attempt + |tries| - 1 > c.maxRetries
    ensures |tries| == 1 || attempt + |tries| - 1 <= c.maxRetries + 1
    decreases |tries|
  {
    var x := tries[0];
    if x.outcome.Failed? && Transient(x.outcome.error) && attempt <= c.maxRetries {
      var noted := State(x.after.calls[slot := Record(tool, x.outcome.Returned?, attempt)], x.after.executions);
      LastTryAnswers(c, tool, slot, attempt + 1, noted, tries[1..], to, outcome);
      assert forall i :: 1 <= i < |tries| ==> tries[i] == tries[1..][i - 1];
    }
  }

  // ---------------------------------------------------------------- the registry object

  class ToolRegistry {
    const settings: Registry
    var calls: seq<Record>
    var executions: nat

    constructor (c: Registry)
      ensures settings == c && calls == [] && executions == 0
    {
      settings := c;
      calls := [];
      executions := 0;
    }

    ghost function Now(): State
      reads this
    {
      State(calls, executions)
    }

    /** `_call` */
    method Invoke(tool: string) returns (o: Outcome)
      modifies this
      ensures (Now(), o) == Call(settings, old(Now()), tool)
      ensures CallLeads(settings, tool, old(Now()), Now(), o)
      decreases Left(settings, Now()), 0
    {
      CallAnswers(settings, Now(), tool);
      hide CallLeads;
      if |calls| >= settings.maxCalls {
        return Failed(LimitExceeded);
      }
      var slot := |calls|;
      calls := calls + [Record(tool, true, 0)];
      var attempts: nat := 0;
      o := Failed(OtherError);
      while true
        invariant slot < |calls| && calls[slot].tool == tool
        invariant old(|calls|) < |calls|
        invariant Attempt(settings, Now(), slot, attempts + 1) == Call(settings, old(Now()), tool)
        invariant attempts == 0 || attempts <= settings.maxRetries
        decreases if attempts <= settings.maxRetries then settings.maxRetries + 1 - attempts else 0
      {
        attempts := attempts + 1;
        ghost var before := Now();
        var body := settings.behaviour(tool, executions);
        executions := executions + 1;
        ToolStays(settings, Now(), slot, body);
        o := Execute(body);
        calls := calls[slot := calls[slot].(completed := o.Returned?, attempts := attempts)];
        if o.Returned? || !Transient(o.error) || attempts > settings.maxRetries {
          return;
        }
      }
    }

    /** One execution of a tool function. */
    method Execute(body: Body) returns (o: Outcome)
      modifies this
      ensures (Now(), o) == Run(settings, old(Now()), body)
      ensures BodyLeads(settings, body, old(Now()), Now(), o)
      decreases Left(settings, Now()), 1, body
    {
      BodyAnswers(settings, Now(), body);
      hide BodyLeads;
      match body {
        case Returns(value) => o := Returned(value);
        case Raises(error) => o := Failed(error);
        case Calls(tool, ok, failed) =>
          o := Invoke(tool);
          if o.Returned? {
            o := Execute(ok);
          } else if failed.Some? {
            o := Execute(failed.value);
          }
      }
    }
  }

  // ---------------------------------------------------------------- records of earlier calls are final

  /** The calls made before keep their records; while `slot` is being tried, all but that one. */
  predicate Extends(before: seq<Record>, after: seq<Record>) {
    before <= after
  }

  predicate ExtendsBut(before: seq<Record>, after: seq<Record>, slot: nat)
    requires slot < |before|
  {
    && |before| <= |after| && after[slot].tool == before[slot].tool
    && forall i :: 0 <= i < |before| && i != slot ==> after[i] == before[i]
  }

  lemma {:induction false} CallExtends(c: Registry, st: State, tool: string)
    ensures Extends(st.calls, Call(c, st, tool).0.calls)
    decreases Left(c, st), 0
  {
    if |st.calls| < c.maxCalls {
      AttemptExtends(c, Reserve(st, tool), |st.calls|, 1);
    }
  }

  lemma {:induction false} AttemptExtends(c: Registry, st: State, slot: nat, attempt: nat)
    requires slot < |st.calls|
    ensures ExtendsBut(st.calls, Attempt(c, st, slot, attempt).0.calls, slot)
    decreases Left(c, st), 2, if attempt <= c.maxRetries then c.maxRetries + 1 - attempt else 0
  {
    var body := c.behaviour(st.calls[slot].tool, st.executions);
    var started := st.(executions := st.executions + 1);
    RunExtends(c, started, body);
    var ran := Run(c, started, body);
    hide Run;
    if ran.1.Failed? && Transient(ran.1.error) && attempt <= c.maxRetries {
      AttemptExtends(c, Note(ran.0, slot, false, attempt), slot, attempt + 1);
    }
  }

  lemma {:induction false} RunExtends(c: Registry, st: State, body: Body)
    ensures Extends(st.calls, Run(c, st, body).0.calls)
    decreases Left(c, st), 1, body
  {
    if body.Calls? {
      CallExtends(c, st, body.tool);
      var called := Call(c, st, body.tool);
      if called.1.Returned? {
        RunExtends(c, called.0, body.ok);
      } else if body.failed.Some? {
        RunExtends(c, called.0, body.failed.value);
      }
    }
  }

  lemma ToolStays(c: Registry, st: State, slot: nat, body: Body)
    requires slot < |st.calls|
    ensures Run(c, st, body).0.calls[slot].tool == st.calls[slot].tool
  {
    RunExtends(c, st, body);
  }

  // ---------------------------------------------------------------- executions are accounted for

  function Attempts(calls: seq<Record>): nat {
    if calls == [] then 0 else Attempts(calls[..|calls| - 1]) + calls[|calls| - 1].attempts
  }

  /** The most executions one call may have. */
  function Cap(c: Registry): nat {
    if c.maxRetries > 0 then c.maxRetries + 1 else 1
  }

  predicate Capped(c: Registry, calls: seq<Record>) {
    forall i :: 0 <= i < |calls| ==> calls[i].attempts <= Cap(c)
  }

  lemma {:induction false} AttemptsChanged(calls: seq<Record>, slot: nat, r: Record)
    requires slot < |calls|
    ensures Attempts(calls[slot := r]) == Attempts(calls) - calls[slot].attempts + r.attempts
  {
    var last := |calls| - 1;
    if slot < last {
      AttemptsChanged(calls[..last], slot, r);
      assert calls[slot := r][..last] == calls[..last][slot := r];
    } else {
      assert calls[slot := r][..last] == calls[..last];
    }
  }

  lemma AttemptsReserved(calls: seq<Record>, tool: string)
    ensures Attempts(calls + [Record(tool, true, 0)]) == Attempts(calls)
  {
    assert (calls + [Record(tool, true, 0)])[..|calls|] == calls;
  }

  /** No execution goes unrecorded, and the budget and the retry cap are kept. */
  predicate Accounts(c: Registry, before: State, after: State) {
    && after.executions - before.executions == Attempts(after.calls) - Attempts(before.calls)
    && (Capped(c, before.calls) ==> Capped(c, after.calls))
    && (|after.calls| <= |before.calls| || |after.calls| <= c.maxCalls)
  }

  lemma AccountsChain(c: Registry, one: State, two: State, three: State)
    requires Accounts(c, one, two) && Accounts(c, two, three)
    ensures Accounts(c, one, three)
  {
  }

  lemma {:induction false} CallAccounts(c: Registry, st: State, tool: string)
    ensures Accounts(c, st, Call(c, st, tool).0)
    decreases Left(c, st), 0
  {
    if |st.calls| < c.maxCalls {
      AttemptsReserved(st.calls, tool);
      AttemptAccounts(c, Reserve(st, tool), |st.calls|, 1);
    }
  }

  /** Noting an execution in the record of its call settles the account. */
  lemma NotedAccounts(c: Registry, st: State, ran: State, slot: nat, completed: bool, attempt: nat)
    requires slot < |st.calls| && st.calls[slot].attempts == attempt - 1 && attempt <= Cap(c)
    requires Accounts(c, st.(executions := st.executions + 1), ran) && Extends(st.calls, ran.calls)
    ensures Accounts(c, st, Note(ran, slot, completed, attempt))
  {
    assert ran.calls[slot] == st.calls[slot];
    AttemptsChanged(ran.calls, slot, Note(ran, slot, completed, attempt).calls[slot]);
    hide Attempts;
  }

  /** The execution under way is the one not yet noted in its record. */
  lemma {:induction false} AttemptAccounts(c: Registry, st: State, slot: nat, attempt: nat)
    requires slot < |st.calls| && st.calls[slot].attempts == attempt - 1 && attempt <= Cap(c)
    ensures Accounts(c, st, Attempt(c, st, slot, attempt).0)
    decreases Left(c, st), 2, if attempt <= c.maxRetries then c.maxRetries + 1 - attempt else 0
  {
    var body := c.behaviour(st.calls[slot].tool, st.executions);
    var started := st.(executions := st.executions + 1);
    var ran := Run(c, started, body);
    RunAccounts(c, started, body);
    RunExtends(c, started, body);
    hide Run;
    var noted := Note(ran.0, slot, ran.1.Returned?, attempt);
    NotedAccounts(c, st, ran.0, slot, ran.1.Returned?, attempt);
    hide Attempts, Accounts, Capped;
    if ran.1.Failed? && Transient(ran.1.error) && attempt <= c.maxRetries {
      AttemptAccounts(c, noted, slot, attempt + 1);
      AccountsChain(c, st, noted, Attempt(c, noted, slot, attempt + 1).0);
    }
  }

  lemma {:induction false} RunAccounts(c: Registry, st: State, body: Body)
    ensures Accounts(c, st, Run(c, st, body).0)
    decreases Left(c, st), 1, body
  {
    if body.Calls? {
      var called := Call(c, st, body.tool);
      CallAccounts(c, st, body.tool);
      if called.1.Returned? {
        RunAccounts(c, called.0, body.ok);
        AccountsChain(c, st, called.0, Run(c, called.0, body.ok).0);
      } else if body.failed.Some? {
        RunAccounts(c, called.0, body.failed.value);
        AccountsChain(c, st, called.0, Run(c, called.0, body.failed.value).0);
      }
    }
  }

  lemma {:induction false} AttemptsCapped(c: Registry, calls: seq<Record>)
    requires Capped(c, calls)
    ensures Attempts(calls) <= |calls| * Cap(c)
  {
    if calls != [] { AttemptsCapped(c, calls[..|calls| - 1]); }
  }

  /** The calls of one request, one after another. */
  function After(c: Registry, tools: seq<string>): State {
    if tools == [] then State([], 0) else Call(c, After(c, tools[..|tools| - 1]), tools[|tools| - 1]).0
  }

  lemma {:induction false} AfterAccounts(c: Registry, tools: seq<string>)
    ensures Accounts(c, State([], 0), After(c, tools))
  {
    if tools != [] {
      AfterAccounts(c, tools[..|tools| - 1]);
      CallAccounts(c, After(c, tools[..|tools| - 1]), tools[|tools| - 1]);
      AccountsChain(c, State([], 0), After(c, tools[..|tools| - 1]), After(c, tools));
    }
  }

  function Budget(c: Registry): nat {
    if c.maxCalls > 0 then c.maxCalls else 0
  }

  /** Whatever tools do, however they nest: recorded calls and executions stay within the budget. */
  lemma WithinBudget(c: Registry, tools: seq<string>)
    ensures var st := After(c, tools);
      && |st.calls| <= Budget(c)
      && st.executions == Attempts(st.calls)
      && st.executions <= Budget(c) * Cap(c)
  {
    var st := After(c, tools);
    AfterAccounts(c, tools);
    AttemptsCapped(c, st.calls);
    Monotone(|st.calls|, Budget(c), Cap(c));
  }

  lemma Monotone(a: nat, b: nat, k: nat)
    requires a <= b
    ensures a * k <= b * k
  {
  }

  // ---------------------------------------------------------------- how a call ends

  lemma {:induction false} AttemptEnds(c: Registry, st: State, slot: nat, attempt: nat)
    requires slot < |st.calls| && 1 <= attempt <= Cap(c)
    ensures var r := Attempt(c, st, slot, attempt); var record := r.0.calls[slot];
      && record.tool == st.calls[slot].tool && record.completed == r.1.Returned? && attempt <= record.attempts <= Cap(c)
      && (r.1.Failed? ==> !Transient(r.1.error) || record.attempts == Cap(c))
    decreases if attempt <= c.maxRetries then c.maxRetries + 1 - attempt else 0
  {
    var body := c.behaviour(st.calls[slot].tool, st.executions);
    var started := st.(executions := st.executions + 1);
    var ran := Run(c, started, body);
    ToolStays(c, started, slot, body);
    hide Run;
    if ran.1.Failed? && Transient(ran.1.error) && attempt <= c.maxRetries {
      AttemptEnds(c, Note(ran.0, slot, false, attempt), slot, attempt + 1);
    }
  }

  /**
    A call within the budget leaves its record in its place, telling the truth about it: completed
    exactly when it returned, and failed only for good or after the last permitted attempt.
    A call over the budget leaves no trace.
  */
  lemma CallEnds(c: Registry, st: State, tool: string)
    ensures var r := Call(c, st, tool);
      if |st.calls| >= c.maxCalls then r == (st, Failed(LimitExceeded))
      else
        && st.calls + [r.0.calls[|st.calls|]] <= r.0.calls
        && var record := r.0.calls[|st.calls|];
        && record.tool == tool && record.completed == r.1.Returned? && 1 <= record.attempts <= Cap(c)
        && (r.1.Failed? ==> !Transient(r.1.error) || record.attempts == Cap(c))
  {
    if |st.calls| < c.maxCalls {
      AttemptEnds(c, Reserve(st, tool), |st.calls|, 1);
      AttemptExtends(c, Reserve(st, tool), |st.calls|, 1);
      hide Attempt;
      var after := Attempt(c, Reserve(st, tool), |st.calls|, 1).0.calls;
      assert forall i :: 0 <= i < |st.calls| ==> after[i] == Reserve(st, tool).calls[i] == st.calls[i];
      assert (st.calls + [after[|st.calls|]]) == after[..|st.calls| + 1];
    }
  }

  // ---------------------------------------------------------------- the bound is reached

  /** Every tool calls itself and times out whatever comes of it. */
  ghost predicate Cyclic(c: Registry) {
    forall tool, n :: c.behaviour(tool, n) == Calls(tool, Raises(ToolTimeout), Some(Raises(ToolTimeout)))
  }

  /** From `from` on, every record was tried as often as permitted. */
  predicate FullFrom(c: Registry, calls: seq<Record>, from: nat) {
    |calls| == c.maxCalls && forall i :: from <= i < |calls| ==> calls[i].attempts == Cap(c)
  }

  lemma {:induction false} CyclicCall(c: Registry, st: State, tool: string)
    requires Cyclic(c) && |st.calls| < c.maxCalls
    ensures FullFrom(c, Call(c, st, tool).0.calls, |st.calls|)
    decreases Left(c, st), 0
  {
    CyclicAttempt(c, Reserve(st, tool), |st.calls|, 1);
  }

  lemma RunOfCyclic(c: Registry, st: State, tool: string)
    ensures Run(c, st, Calls(tool, Raises(ToolTimeout), Some(Raises(ToolTimeout)))) == (Call(c, st, tool).0, Failed(ToolTimeout))
  {
    var called := Call(c, st, tool).0;
    assert Run(c, called, Raises(ToolTimeout)) == (called, Failed(ToolTimeout));
    hide Call;
  }

  lemma {:induction false} CyclicAttempt(c: Registry, st: State, slot: nat, attempt: nat)
    requires Cyclic(c) && slot < |st.calls| <= c.maxCalls && 1 <= attempt <= Cap(c)
    requires slot + 1 == |st.calls| || FullFrom(c, st.calls, slot + 1)
    ensures FullFrom(c, Attempt(c, st, slot, attempt).0.calls, slot)
    decreases Left(c, st), 2, if attempt <= c.maxRetries then c.maxRetries + 1 - attempt else 0
  {
    var tool := st.calls[slot].tool;
    var body := c.behaviour(tool, st.executions);
    var started := st.(executions := st.executions + 1);
    var ran := Run(c, started, body);
    assert body == Calls(tool, Raises(ToolTimeout), Some(Raises(ToolTimeout)));
    RunOfCyclic(c, started, tool);
    if |st.calls| < c.maxCalls { CyclicCall(c, started, tool); }
    assert FullFrom(c, ran.0.calls, slot + 1);
    var noted := Note(ran.0, slot, false, attempt);
    assert FullFrom(c, noted.calls, slot + 1);
    hide Run, Call, Cyclic;
    if attempt <= c.maxRetries {
      CyclicAttempt(c, noted, slot, attempt + 1);
    }
  }

  lemma {:induction false} FullAttempts(c: Registry, calls: seq<Record>)
    requires forall i :: 0 <= i < |calls| ==> calls[i].attempts == Cap(c)
    ensures Attempts(calls) == |calls| * Cap(c)
  {
    if calls != [] { FullAttempts(c, calls[..|calls| - 1]); }
  }

  /** One call of a tool that calls itself ends, having used the whole budget and not more. */
  lemma CycleEndsAtTheBound(c: Registry, tool: string)
    requires Cyclic(c)
    ensures var st := After(c, [tool]); |st.calls| == Budget(c) && st.executions == Budget(c) * Cap(c)
  {
    assert [tool][..0] == [];
    WithinBudget(c, [tool]);
    if c.maxCalls > 0 {
      CyclicCall(c, State([], 0), tool);
      FullAttempts(c, After(c, [tool]).calls);
    }
  }
}
