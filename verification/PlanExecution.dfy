/**
  `MultiAgentOrchestrator.execute`: steps run in the validated order, a step whose
  dependencies did not complete is skipped, and the tool budget bounds the whole plan.
  Policy guard, handlers and the clock are parameters.
*/
module PlanExecution {
  import opened Wrappers
  import opened Text
  import opened PlanValidation

  datatype StepStatus = PENDING | RUNNING | FAILED | DENIED | REQUIRES_APPROVAL | COMPLETED | SKIPPED

  datatype Decision = Allow | Deny | RequireApproval

  datatype AgentResult = AgentResult(status: StepStatus, toolCalls: nat)

  datatype Handling = NoHandler | Raises | Returns(result: AgentResult)

  datatype Env = Env(
    precheck: Decision,
    guard: string -> Decision,
    handler: (string, map<string, AgentResult>) -> Handling,
    late: string -> bool,
    final: Decision)

  datatype LimitError = ElapsedBudget | ToolBudget

  /** Results so far, tool calls so far, and the steps whose handler was called. */
  datatype Progress = Progress(results: map<string, AgentResult>, tools: nat, handled: set<string>)

  // ---------------------------------------------------------------- one step

  predicate Blocked(g: Graph, id: string, results: map<string, AgentResult>)
    requires id in g
  {
    exists d :: d in g[id] && (d !in results || results[d].status != COMPLETED)
  }

  /** What a handler is given: the results of the step's dependencies. */
  function Inputs(g: Graph, id: string, results: map<string, AgentResult>): map<string, AgentResult>
    requires id in g
  {
    map d | d in results && d in g[id] :: results[d]
  }

  predicate Handles(g: Graph, id: string, results: map<string, AgentResult>, env: Env)
    requires id in g
  {
    !Blocked(g, id, results) && env.guard(id) == Allow
  }

  /** The result of a step is a function of the results of its dependencies. */
  function LocalResult(g: Graph, id: string, results: map<string, AgentResult>, env: Env): AgentResult
    requires id in g
  {
    if Blocked(g, id, results) then AgentResult(SKIPPED, 0)
    else
      match env.guard(id)
      case Deny => AgentResult(DENIED, 0)
      case RequireApproval => AgentResult(REQUIRES_APPROVAL, 0)
      case Allow =>
        match env.handler(id, Inputs(g, id, results))
        case Returns(result) => result
        case _ => AgentResult(FAILED, 0)
  }

  function StepOn(g: Graph, id: string, p: Progress, env: Env, maxTools: nat): Result<Progress, LimitError>
    requires id in g
  {
    if env.late(id) then Failure(ElapsedBudget)
    else
      var result := LocalResult(g, id, p.results, env);
      var tools := if Handles(g, id, p.results, env) then p.tools + result.toolCalls else p.tools;
      if Handles(g, id, p.results, env) && tools > maxTools then Failure(ToolBudget)
      else Success(Progress(p.results[id := result], tools, if Handles(g, id, p.results, env) then p.handled + {id} else p.handled))
  }

  /** The loop after its first `n` steps. */
  function After(g: Graph, order: seq<string>, n: nat, env: Env, maxTools: nat): (r: Result<Progress, LimitError>)
    requires n <= |order| && forall i :: 0 <= i < |order| ==> order[i] in g
    ensures r.Success? ==> forall s :: s in r.value.results <==> s in order[..n]
  {
    if n == 0 then Success(Progress(map[], 0, {}))
    else
      match After(g, order, n - 1, env, maxTools)
      case Failure(error) => Failure(error)
      case Success(p) =>
        assert order[..n] == order[..n - 1] + [order[n - 1]];
        StepOn(g, order[n - 1], p, env, maxTools)
  }

  // ---------------------------------------------------------------- what a normal return means

  /** Every step has the result its dependencies' results determine, and the handled steps are those that were free to run. */
  ghost predicate Consistent(g: Graph, p: Progress, env: Env) {
    forall s :: s in p.results ==>
      && s in g && (forall d :: d in g[s] ==> d in p.results)
      && p.results[s] == LocalResult(g, s, p.results, env)
      && (s in p.handled <==> Handles(g, s, p.results, env))
  }

  /** A step looks at its dependencies only. */
  lemma LocalResultDepends(g: Graph, id: string, a: map<string, AgentResult>, b: map<string, AgentResult>, env: Env)
    requires id in g && forall d :: d in g[id] ==> d in a && d in b && a[d] == b[d]
    ensures LocalResult(g, id, a, env) == LocalResult(g, id, b, env)
    ensures Handles(g, id, a, env) == Handles(g, id, b, env)
  {
    assert Inputs(g, id, a) == Inputs(g, id, b);
  }

  lemma {:induction false} RunConsistent(g: Graph, order: seq<string>, n: nat, env: Env, maxTools: nat)
    requires Sorted(g, order) && n <= |order| && After(g, order, n, env, maxTools).Success?
    ensures Consistent(g, After(g, order, n, env, maxTools).value, env)
    ensures forall s :: s in After(g, order, n, env, maxTools).value.handled ==> s in After(g, order, n, env, maxTools).value.results
  {
    if n > 0 {
      var id := order[n - 1];
      var p, q := After(g, order, n - 1, env, maxTools).value, After(g, order, n, env, maxTools).value;
      RunConsistent(g, order, n - 1, env, maxTools);
      FreshStep(g, order, n, order[n - 1]);
      forall s | s in q.results
        ensures s in g && (forall d :: d in g[s] ==> d in q.results)
        ensures q.results[s] == LocalResult(g, s, q.results, env)
        ensures s in q.handled <==> Handles(g, s, q.results, env)
      {
        assert s != id ==> s in p.results;
        LocalResultDepends(g, s, p.results, q.results, env);
      }
    }
  }

  /** The step that comes next is new, and everything it depends on came before; so is every earlier step apart from it. */
  lemma FreshStep(g: Graph, order: seq<string>, n: nat, id: string)
    requires Sorted(g, order) && 0 < n <= |order| && id == order[n - 1]
    ensures id !in order[..n - 1] && forall d :: d in g[id] ==> d in order[..n - 1]
    ensures forall s :: s in order[..n - 1] ==> id !in g[s]
  {
    forall s | s in order[..n - 1]
      ensures id !in g[s]
    {
      var i :| 0 <= i < n - 1 && order[i] == s;
      assert forall d :: d in g[order[i]] ==> d in order[..i];
    }
  }

  /** A completed step was handled, and all its dependencies completed. */
  lemma CompletedWasFree(g: Graph, p: Progress, env: Env, s: string)
    requires Consistent(g, p, env) && s in p.results && p.results[s].status == COMPLETED
    ensures s in p.handled && env.guard(s) == Allow && forall d :: d in g[s] ==> p.results[d].status == COMPLETED
  {
  }

  /** Whatever depends, directly or not, on a step that did not complete is skipped and its handler is not called. */
  lemma {:induction false} DependentsAreSkipped(g: Graph, p: Progress, env: Env, w: seq<string>)
    requires Consistent(g, p, env) && Walk(g, w) && |w| >= 2 && w[0] in p.results
    requires w[|w| - 1] in p.results && p.results[w[|w| - 1]].status != COMPLETED
    ensures p.results[w[0]].status == SKIPPED && w[0] !in p.handled
    decreases |w|
  {
    assert w[1] in g[w[0]];
    if |w| > 2 {
      assert forall i :: 0 <= i < |w| - 1 ==> w[1..][i] == w[i + 1];
      DependentsAreSkipped(g, p, env, w[1..]);
    }
    assert Blocked(g, w[0], p.results);
  }

  // ---------------------------------------------------------------- the order does not matter

  lemma ConsistentAt(g: Graph, p: Progress, env: Env, s: string)
    requires Consistent(g, p, env) && s in p.results
    ensures s in g && p.results[s] == LocalResult(g, s, p.results, env)
  {
  }

  lemma {:induction false} SameResults(g: Graph, p: Progress, q: Progress, env: Env, order: seq<string>, n: nat)
    requires Sorted(g, order) && n <= |order| && Consistent(g, p, env) && Consistent(g, q, env)
    requires forall s :: s in order ==> s in p.results && s in q.results
    ensures forall i :: 0 <= i < n ==> p.results[order[i]] == q.results[order[i]]
  {
    hide Consistent, LocalResult, Handles, Sorted;
    if n > 0 {
      SameResults(g, p, q, env, order, n - 1);
      SameResult(g, p, q, env, order, n);
    }
  }

  /** One more step of the order: what it depends on has the same results. */
  lemma SameResult(g: Graph, p: Progress, q: Progress, env: Env, order: seq<string>, n: nat)
    requires Sorted(g, order) && 0 < n <= |order| && Consistent(g, p, env) && Consistent(g, q, env)
    requires forall s :: s in order ==> s in p.results && s in q.results
    requires forall i :: 0 <= i < n - 1 ==> p.results[order[i]] == q.results[order[i]]
    ensures p.results[order[n - 1]] == q.results[order[n - 1]]
  {
    var id := order[n - 1];
    assert id in order;
    FreshStep(g, order, n, id);
    ConsistentAt(g, p, env, id);
    ConsistentAt(g, q, env, id);
    hide Consistent, LocalResult, Handles, Sorted;
    forall d | d in g[id]
      ensures d in p.results && d in q.results && p.results[d] == q.results[d]
    {
      assert d in order[..n - 1];
      var i :| 0 <= i < n - 1 && order[..n - 1][i] == d;
      assert order[i] == d;
    }
    LocalResultDepends(g, id, p.results, q.results, env);
  }

  /** Two dependency-respecting orders of one plan that both run to the end give every step the same result. */
  lemma OrderDoesNotMatter(g: Graph, order1: seq<string>, order2: seq<string>, env: Env, maxTools: nat)
    requires Sorted(g, order1) && Sorted(g, order2) && forall s :: s in order1 <==> s in order2
    requires After(g, order1, |order1|, env, maxTools).Success? && After(g, order2, |order2|, env, maxTools).Success?
    ensures After(g, order1, |order1|, env, maxTools).value.results == After(g, order2, |order2|, env, maxTools).value.results
  {
    hide After, LocalResult;
    var p, q := After(g, order1, |order1|, env, maxTools).value, After(g, order2, |order2|, env, maxTools).value;
    assert order1[..|order1|] == order1 && order2[..|order2|] == order2;
    RunConsistent(g, order1, |order1|, env, maxTools);
    RunConsistent(g, order2, |order2|, env, maxTools);
    SameResults(g, p, q, env, order1, |order1|);
    hide Consistent, Sorted;
    SameMaps(p.results, q.results, order1);
  }

  lemma SameMaps(a: map<string, AgentResult>, b: map<string, AgentResult>, order: seq<string>)
    requires (forall s :: s in a <==> s in order) && (forall s :: s in b <==> s in order)
    requires forall i :: 0 <= i < |order| ==> a[order[i]] == b[order[i]]
    ensures a == b
  {
    forall s | s in a
      ensures a[s] == b[s]
    {
      var i :| 0 <= i < |order| && order[i] == s;
    }
  }

  // ---------------------------------------------------------------- the tool budget

  function Spent(order: seq<string>, results: map<string, AgentResult>, handled: set<string>): nat {
    if order == [] then 0
    else
      var last := order[|order| - 1];
      Spent(order[..|order| - 1], results, handled) + if last in handled && last in results then results[last].toolCalls else 0
  }

  lemma {:induction false} SpentSame(order: seq<string>, p: Progress, q: Progress)
    requires forall s :: s in order ==> (s in p.handled <==> s in q.handled) && (s in p.results <==> s in q.results)
    requires forall s :: s in order && s in p.results ==> p.results[s] == q.results[s]
    ensures Spent(order, p.results, p.handled) == Spent(order, q.results, q.handled)
  {
    if order != [] {
      assert order[|order| - 1] in order;
      SpentSame(order[..|order| - 1], p, q);
    }
  }

  lemma SpentStep(g: Graph, front: seq<string>, id: string, p: Progress, q: Progress, env: Env, maxTools: nat)
    requires id in g && id !in front && StepOn(g, id, p, env, maxTools) == Success(q)
    requires (forall s :: s in p.results <==> s in front) && id !in p.handled
    ensures Spent(front + [id], q.results, q.handled) == Spent(front, p.results, p.handled) + q.tools - p.tools
    ensures p.tools <= maxTools ==> q.tools <= maxTools
  {
    hide LocalResult;
    assert (front + [id])[..|front|] == front;
    SpentSame(front, p, q);
  }

  ghost predicate WithinBudget(p: Progress, front: seq<string>, maxTools: nat) {
    p.tools <= maxTools && p.tools == Spent(front, p.results, p.handled)
  }

  lemma AfterStep(g: Graph, order: seq<string>, n: nat, env: Env, maxTools: nat)
    requires Sorted(g, order) && 0 < n <= |order| && After(g, order, n, env, maxTools).Success?
    ensures After(g, order, n - 1, env, maxTools).Success?
    ensures StepOn(g, order[n - 1], After(g, order, n - 1, env, maxTools).value, env, maxTools) == After(g, order, n, env, maxTools)
    ensures order[..n] == order[..n - 1] + [order[n - 1]]
  {
    hide StepOn;
  }

  lemma BudgetStep(g: Graph, front: seq<string>, id: string, p: Progress, q: Progress, env: Env, maxTools: nat)
    requires id in g && id !in front && StepOn(g, id, p, env, maxTools) == Success(q)
    requires (forall s :: s in p.results <==> s in front) && (forall s :: s in p.handled ==> s in p.results)
    requires WithinBudget(p, front, maxTools)
    ensures WithinBudget(q, front + [id], maxTools)
  {
    hide StepOn, Spent;
    SpentStep(g, front, id, p, q, env, maxTools);
  }

  /** The counter is the sum over the handled steps, and never exceeds max_tool_calls. */
  lemma {:induction false} ToolsWithinBudget(g: Graph, order: seq<string>, n: nat, env: Env, maxTools: nat)
    requires Sorted(g, order) && n <= |order| && After(g, order, n, env, maxTools).Success?
    ensures WithinBudget(After(g, order, n, env, maxTools).value, order[..n], maxTools)
  {
    if n > 0 {
      hide After, StepOn, Sorted, WithinBudget, Consistent;
      AfterStep(g, order, n, env, maxTools);
      ToolsWithinBudget(g, order, n - 1, env, maxTools);
      BudgetAt(g, order, n, env, maxTools);
    }
  }

  lemma BudgetAt(g: Graph, order: seq<string>, n: nat, env: Env, maxTools: nat)
    requires Sorted(g, order) && 0 < n <= |order| && After(g, order, n, env, maxTools).Success?
    requires After(g, order, n - 1, env, maxTools).Success?
    requires WithinBudget(After(g, order, n - 1, env, maxTools).value, order[..n - 1], maxTools)
    ensures WithinBudget(After(g, order, n, env, maxTools).value, order[..n], maxTools)
  {
    AfterStep(g, order, n, env, maxTools);
    FreshStep(g, order, n, order[n - 1]);
    assert forall i :: 0 <= i < |order| ==> order[i] in g;
    hide After, StepOn, Sorted, WithinBudget, Consistent;
    RunConsistent(g, order, n - 1, env, maxTools);
    BudgetStep(g, order[..n - 1], order[n - 1], After(g, order, n - 1, env, maxTools).value,
               After(g, order, n, env, maxTools).value, env, maxTools);
  }

  // ---------------------------------------------------------------- the overall status

  datatype Overall = FailedPlan | PartialPlan | DeniedPlan | ApprovalPlan | CompletedPlan

  function OverallStatus(results: map<string, AgentResult>, final: Decision): Overall {
    if final == Deny || exists s :: s in results && results[s].status == DENIED then DeniedPlan
    else if final == RequireApproval || exists s :: s in results && results[s].status == REQUIRES_APPROVAL then ApprovalPlan
    else if results != map[] && forall s :: s in results ==> results[s].status == COMPLETED then CompletedPlan
    else if exists s :: s in results && results[s].status == COMPLETED then PartialPlan
    else FailedPlan
  }

  datatype Outcome =
    | Returned(status: Overall, results: map<string, AgentResult>, tools: nat)
    | Invalid(error: PlanError)
    | Limited(limit: LimitError)

  lemma OneMore(g: Graph, order: seq<string>, i: nat, env: Env, maxTools: nat)
    requires i < |order| && (forall k :: 0 <= k < |order| ==> order[k] in g) && After(g, order, i, env, maxTools).Success?
    ensures After(g, order, i + 1, env, maxTools) == StepOn(g, order[i], After(g, order, i, env, maxTools).value, env, maxTools)
  {
    hide StepOn;
  }

  /** The body of the loop for one step. */
  method RunStep(g: Graph, id: string, p: Progress, maxTools: nat, env: Env) returns (next: Result<Progress, LimitError>)
    requires id in g
    ensures next == StepOn(g, id, p, env, maxTools)
  {
    if env.late(id) { return Failure(ElapsedBudget); }
    if exists d :: d in g[id] && (d !in p.results || p.results[d].status != COMPLETED) {
      return Success(p.(results := p.results[id := AgentResult(SKIPPED, 0)]));
    }
    var decision := env.guard(id);
    if decision == Deny { return Success(p.(results := p.results[id := AgentResult(DENIED, 0)])); }
    if decision == RequireApproval { return Success(p.(results := p.results[id := AgentResult(REQUIRES_APPROVAL, 0)])); }
    var handling := env.handler(id, map d | d in p.results && d in g[id] :: p.results[d]);
    var result := if handling.Returns? then handling.result else AgentResult(FAILED, 0);
    var tools := p.tools + result.toolCalls;
    if tools > maxTools { return Failure(ToolBudget); }
    return Success(Progress(p.results[id := result], tools, p.handled + {id}));
  }

  /** The loop over the validated steps. */
  method RunSteps(g: Graph, order: seq<string>, maxTools: nat, env: Env) returns (run: Result<Progress, LimitError>)
    requires forall k :: 0 <= k < |order| ==> order[k] in g
    ensures run == After(g, order, |order|, env, maxTools)
  {
    var p := Progress(map[], 0, {});
    var i := 0;
    hide StepOn;
    while i < |order|
      invariant 0 <= i <= |order|
      invariant After(g, order, i, env, maxTools) == Success(p)
    {
      var next := RunStep(g, order[i], p, maxTools, env);
      OneMore(g, order, i, env, maxTools);
      if next.Failure? {
        StopsThere(g, order, i, env, maxTools);
        return next;
      }
      p := next.value;
      i := i + 1;
    }
    return Success(p);
  }

  /** How a validated plan ends: by a limit, or with the results of the whole loop. */
  ghost predicate EndsAs(g: Graph, order: seq<string>, maxTools: nat, env: Env, out: Outcome)
    requires forall i :: 0 <= i < |order| ==> order[i] in g
  {
    var run := After(g, order, |order|, env, maxTools);
    if run.Failure? then out == Limited(run.error)
    else out == Returned(OverallStatus(run.value.results, env.final), run.value.results, run.value.tools)
  }

  /** What an allowed plan comes to: the error of validation, or a run in a dependency-respecting order. */
  ghost predicate RunsAs(plan: seq<AgentStep>, validated: Result<seq<string>, PlanError>, maxTools: nat, env: Env, out: Outcome) {
    if validated.Failure? then out == Invalid(validated.error)
    else Sorted(GraphOf(plan), validated.value) && EndsAs(GraphOf(plan), validated.value, maxTools, env, out)
  }

  // ---------------------------------------------------------------- what the answers mean

  /** Every dependency has a completed result. */
  predicate DepsCompleted(deps: seq<string>, results: map<string, AgentResult>) {
    forall d :: d in deps ==> d in results && results[d].status == COMPLETED
  }

  /** The step is free to run and the guard lets it; `answer` is what its handler does with the results of its dependencies. */
  ghost predicate Answered(id: string, deps: seq<string>, results: map<string, AgentResult>, env: Env, answer: Handling) {
    && DepsCompleted(deps, results) && env.guard(id) == Allow
    && answer == env.handler(id, map d | d in deps && d in results :: results[d])
  }

  /** The outside world calls for this status: by its dependencies, by the guard, or by its handler. */
  ghost predicate CallsFor(id: string, deps: seq<string>, results: map<string, AgentResult>, env: Env, status: StepStatus) {
    || (status == SKIPPED && !DepsCompleted(deps, results))
    || (status == DENIED && DepsCompleted(deps, results) && env.guard(id) == Deny)
    || (status == REQUIRES_APPROVAL && DepsCompleted(deps, results) && env.guard(id) == RequireApproval)
    || (status == FAILED && (Answered(id, deps, results, env, Raises) || Answered(id, deps, results, env, NoHandler)))
    || exists r: AgentResult :: r.status == status && Answered(id, deps, results, env, Returns(r))
  }

  /** A step has a status exactly when that is called for, and the tool calls its handler reports. */
  ghost predicate Fits(id: string, deps: seq<string>, results: map<string, AgentResult>, env: Env, r: AgentResult) {
    && (forall status :: r.status == status <==> CallsFor(id, deps, results, env, status))
    && (forall answer :: Answered(id, deps, results, env, Returns(answer)) ==> r == answer)
    && ((forall answer :: !Answered(id, deps, results, env, Returns(answer))) ==> r.toolCalls == 0)
  }

  lemma LocalResultFits(g: Graph, id: string, results: map<string, AgentResult>, env: Env)
    requires id in g
    ensures Fits(id, g[id], results, env, LocalResult(g, id, results, env))
  {
    var r := LocalResult(g, id, results, env);
    var answer := env.handler(id, Inputs(g, id, results));
    assert Inputs(g, id, results) == map d | d in g[id] && d in results :: results[d];
    assert Blocked(g, id, results) <==> !DepsCompleted(g[id], results);
    assert Handles(g, id, results, env) <==> Answered(id, g[id], results, env, answer);
    assert Handles(g, id, results, env) && answer.Returns? ==> Answered(id, g[id], results, env, Returns(r));
    hide Blocked, DepsCompleted;
  }

  function Sum(order: seq<string>, results: map<string, AgentResult>): nat
    requires forall s :: s in order ==> s in results
  {
    if order == [] then 0 else Sum(order[..|order| - 1], results) + results[order[|order| - 1]].toolCalls
  }

  lemma {:induction false} SpentIsSum(g: Graph, order: seq<string>, p: Progress, env: Env)
    requires Consistent(g, p, env) && forall s :: s in order ==> s in p.results
    ensures Spent(order, p.results, p.handled) == Sum(order, p.results)
  {
    if order != [] {
      assert order[|order| - 1] in order;
      SpentIsSum(g, order[..|order| - 1], p, env);
    }
  }

  /** The first `n` steps of the order are done, each as called for, in time, and within the tool budget. */
  ghost predicate Reached(g: Graph, order: seq<string>, n: int, env: Env, maxTools: nat, results: map<string, AgentResult>, tools: nat) {
    && 0 <= n <= |order|
    && (forall s :: s in results <==> s in order[..n])
    && (forall s :: s in results ==> s in g && Fits(s, g[s], results, env, results[s]))
    && (forall i :: 0 <= i < n ==> !env.late(order[i]))
    && tools == Sum(order[..n], results) && tools <= maxTools
  }

  /** The step that hits a limit: it starts too late, or its handler reports one tool call too many. */
  ghost predicate Hits(g: Graph, id: string, env: Env, maxTools: nat, results: map<string, AgentResult>, tools: nat, limit: LimitError) {
    && id in g
    && (limit == ElapsedBudget <==> env.late(id))
    && (limit == ToolBudget ==> exists r: AgentResult :: Answered(id, g[id], results, env, Returns(r)) && tools + r.toolCalls > maxTools)
  }

  lemma {:induction false} NoneLate(g: Graph, order: seq<string>, n: nat, env: Env, maxTools: nat)
    requires Sorted(g, order) && n <= |order| && After(g, order, n, env, maxTools).Success?
    ensures forall i :: 0 <= i < n ==> !env.late(order[i])
  {
    if n > 0 {
      AfterStep(g, order, n, env, maxTools);
      hide After, Sorted, LocalResult;
      NoneLate(g, order, n - 1, env, maxTools);
    }
  }

  lemma ReachedAfter(g: Graph, order: seq<string>, n: nat, env: Env, maxTools: nat)
    requires Sorted(g, order) && n <= |order| && After(g, order, n, env, maxTools).Success?
    ensures var p := After(g, order, n, env, maxTools).value;
      Reached(g, order, n, env, maxTools, p.results, p.tools) && Consistent(g, p, env)
  {
    hide Consistent, WithinBudget, Reached, StepOn;
    RunConsistent(g, order, n, env, maxTools);
    ToolsWithinBudget(g, order, n, env, maxTools);
    NoneLate(g, order, n, env, maxTools);
    assert forall i :: 0 <= i < |order| ==> order[i] in g;
    var p := After(g, order, n, env, maxTools).value;
    assert forall s :: s in p.results <==> s in order[..n];
    hide After, Sorted;
    ReachedFrom(g, order, n, env, maxTools, p);
  }

  lemma ReachedFrom(g: Graph, order: seq<string>, n: nat, env: Env, maxTools: nat, p: Progress)
    requires n <= |order| && Consistent(g, p, env) && WithinBudget(p, order[..n], maxTools)
    requires forall s :: s in p.results <==> s in order[..n]
    requires forall i :: 0 <= i < n ==> !env.late(order[i])
    ensures Reached(g, order, n, env, maxTools, p.results, p.tools)
  {
    hide LocalResult, Spent, Sum, Fits, Handles;
    SpentIsSum(g, order[..n], p, env);
    forall s | s in p.results
      ensures s in g && Fits(s, g[s], p.results, env, p.results[s])
    {
      LocalResultFits(g, s, p.results, env);
    }
  }

  lemma StepHits(g: Graph, id: string, p: Progress, env: Env, maxTools: nat)
    requires id in g && StepOn(g, id, p, env, maxTools).Failure? && p.tools <= maxTools
    ensures Hits(g, id, env, maxTools, p.results, p.tools, StepOn(g, id, p, env, maxTools).error)
  {
    if !env.late(id) {
      assert Inputs(g, id, p.results) == map d | d in g[id] && d in p.results :: p.results[d];
      assert Handles(g, id, p.results, env) && DepsCompleted(g[id], p.results);
      assert Answered(id, g[id], p.results, env, Returns(LocalResult(g, id, p.results, env)));
    }
  }

  /** A run that ends with a limit has a step that hits it, with everything before done. */
  lemma {:induction false} LimitAt(g: Graph, order: seq<string>, m: nat, env: Env, maxTools: nat) returns (n: nat)
    requires Sorted(g, order) && m <= |order| && After(g, order, m, env, maxTools).Failure?
    ensures n < m && After(g, order, n, env, maxTools).Success?
    ensures var p := After(g, order, n, env, maxTools).value;
      Reached(g, order, n, env, maxTools, p.results, p.tools)
      && Hits(g, order[n], env, maxTools, p.results, p.tools, After(g, order, m, env, maxTools).error)
  {
    if After(g, order, m - 1, env, maxTools).Failure? {
      hide Sorted, Reached, Hits, StepOn;
      n := LimitAt(g, order, m - 1, env, maxTools);
    } else {
      n := m - 1;
      OneMore(g, order, n, env, maxTools);
      ReachedAfter(g, order, n, env, maxTools);
      var p := After(g, order, n, env, maxTools).value;
      assert order[n] in g;
      assert p.tools <= maxTools;
      hide After, StepOn, Sorted, Hits, Consistent, Reached;
      StepHits(g, order[n], p, env, maxTools);
    }
  }

  /** A step of the plan has this status: it is called for by the plan, the guard and the handlers. */
  ghost predicate SomeStep(plan: seq<AgentStep>, results: map<string, AgentResult>, env: Env, status: StepStatus) {
    exists i :: 0 <= i < |plan| && CallsFor(plan[i].id, plan[i].dependencies, results, env, status)
  }

  ghost predicate EveryStep(plan: seq<AgentStep>, results: map<string, AgentResult>, env: Env, status: StepStatus) {
    forall i :: 0 <= i < |plan| ==> CallsFor(plan[i].id, plan[i].dependencies, results, env, status)
  }

  /**
    When `execute` returns which status: a denial, be it of the final guard or of a step, comes
    before a required approval, and only without either do the completed steps count.
  */
  ghost predicate StatusFits(plan: seq<AgentStep>, results: map<string, AgentResult>, env: Env, status: Overall) {
    var denied := env.final == Deny || SomeStep(plan, results, env, DENIED);
    var held := env.final == RequireApproval || SomeStep(plan, results, env, REQUIRES_APPROVAL);
    && (status == DeniedPlan <==> denied)
    && (status == ApprovalPlan <==> !denied && held)
    && (status == CompletedPlan <==> env.final == Allow && plan != [] && EveryStep(plan, results, env, COMPLETED))
    && (status == PartialPlan <==>
          !denied && !held && SomeStep(plan, results, env, COMPLETED) && !EveryStep(plan, results, env, COMPLETED))
    && (status == FailedPlan <==> !denied && !held && !SomeStep(plan, results, env, COMPLETED))
  }

  lemma OverallMeans(results: map<string, AgentResult>, final: Decision)
    ensures var overall := OverallStatus(results, final);
      var denied, held := final == Deny || Has(results, DENIED), final == RequireApproval || Has(results, REQUIRES_APPROVAL);
      && (overall == DeniedPlan <==> denied)
      && (overall == ApprovalPlan <==> !denied && held)
      && (overall == CompletedPlan <==> final == Allow && results != map[] && All(results, COMPLETED))
      && (overall == PartialPlan <==> !denied && !held && Has(results, COMPLETED) && !All(results, COMPLETED))
      && (overall == FailedPlan <==> !denied && !held && !Has(results, COMPLETED))
  {
    if results != map[] {
      var s :| s in results;
      assert All(results, COMPLETED) ==> results[s].status == COMPLETED;
    }
  }

  predicate Has(results: map<string, AgentResult>, status: StepStatus) {
    exists s :: s in results && results[s].status == status
  }

  predicate All(results: map<string, AgentResult>, status: StepStatus) {
    forall s :: s in results ==> results[s].status == status
  }

  /** Results and steps correspond, status by status. */
  lemma StepsAndResults(plan: seq<AgentStep>, results: map<string, AgentResult>, env: Env, status: StepStatus)
    requires forall s :: s in results <==> s in Ids(plan)
    requires forall i :: 0 <= i < |plan| ==>
               plan[i].id in results && Fits(plan[i].id, plan[i].dependencies, results, env, results[plan[i].id])
    ensures Has(results, status) <==> SomeStep(plan, results, env, status)
    ensures All(results, status) <==> EveryStep(plan, results, env, status)
    ensures results == map[] <==> plan == []
  {
    AllSteps(plan, results);
    forall i | 0 <= i < |plan|
      ensures results[plan[i].id].status == status <==> CallsFor(plan[i].id, plan[i].dependencies, results, env, status)
    {
      assert Fits(plan[i].id, plan[i].dependencies, results, env, results[plan[i].id]);
    }
    hide CallsFor, Fits;
  }

  /** Speaking of all results is speaking of all steps. */
  lemma AllSteps(plan: seq<AgentStep>, results: map<string, AgentResult>)
    requires forall s :: s in results <==> s in Ids(plan)
    ensures results != map[] <==> plan != []
    ensures forall i :: 0 <= i < |plan| ==> plan[i].id in results
    ensures forall s :: s in results ==> exists i :: 0 <= i < |plan| && plan[i].id == s
  {
    assert forall i :: 0 <= i < |plan| ==> Ids(plan)[i] == plan[i].id;
    if plan != [] { assert Ids(plan)[0] in results; }
    forall s | s in results ensures exists i :: 0 <= i < |plan| && plan[i].id == s {
      var i :| 0 <= i < |Ids(plan)| && Ids(plan)[i] == s;
      assert plan[i].id == s;
    }
  }

  /** Every step has a result, and it is the one that is called for. */
  ghost predicate ResultsFit(plan: seq<AgentStep>, results: map<string, AgentResult>, env: Env) {
    && (forall s :: s in results <==> s in Ids(plan))
    && forall i :: 0 <= i < |plan| ==>
         plan[i].id in results && Fits(plan[i].id, plan[i].dependencies, results, env, results[plan[i].id])
  }

  /** All steps ran in a dependency-respecting order, in time and within the tool budget. */
  ghost predicate RanWhole(plan: seq<AgentStep>, maxTools: nat, env: Env, results: map<string, AgentResult>, tools: nat) {
    exists order :: Sorted(GraphOf(plan), order) && Reached(GraphOf(plan), order, |order|, env, maxTools, results, tools)
  }

  /** Some first steps of a dependency-respecting order ran, and the next one hit the limit. */
  ghost predicate RanInto(plan: seq<AgentStep>, maxTools: nat, env: Env, limit: LimitError) {
    exists order, n, results, tools ::
      && Sorted(GraphOf(plan), order) && Reached(GraphOf(plan), order, n, env, maxTools, results, tools)
      && n < |order| && Hits(GraphOf(plan), order[n], env, maxTools, results, tools, limit)
  }

  lemma GraphSteps(plan: seq<AgentStep>, maxSteps: nat, maxDepth: nat, known: set<string>)
    requires Validate(plan, maxSteps, maxDepth, known).Success?
    ensures forall i :: 0 <= i < |plan| ==> plan[i].id in Ids(plan) && plan[i].id in GraphOf(plan)
    ensures forall i :: 0 <= i < |plan| ==> GraphOf(plan)[plan[i].id] == plan[i].dependencies
    ensures var order := Validate(plan, maxSteps, maxDepth, known).value;
      Sorted(GraphOf(plan), order) && forall s :: s in order <==> s in Ids(plan)
  {
    ValidateMeans(plan, maxSteps, maxDepth, known);
    StepsInGraph(plan);
    hide Validate, GraphOf;
  }

  /** A plan that ran to its end: every result, and the overall status, as called for. */
  lemma ReturnsExactly(plan: seq<AgentStep>, maxSteps: nat, maxDepth: nat, maxTools: nat, known: set<string>, env: Env, out: Outcome)
    requires RunsAs(plan, Validate(plan, maxSteps, maxDepth, known), maxTools, env, out) && out.Returned?
    ensures ResultsFit(plan, out.results, env) && RanWhole(plan, maxTools, env, out.results, out.tools)
    ensures StatusFits(plan, out.results, env, out.status)
  {
    hide Reached, Validate, OverallStatus, GraphOf, Fits, ResultsFit, StatusFits, Consistent, Sorted;
    GraphSteps(plan, maxSteps, maxDepth, known);
    var order, g := Validate(plan, maxSteps, maxDepth, known).value, GraphOf(plan);
    ReachedAfter(g, order, |order|, env, maxTools);
    hide After;
    ReachedFits(plan, order, env, maxTools, out.results, out.tools);
    StatusExactly(plan, out.results, env);
  }

  lemma ReachedFits(plan: seq<AgentStep>, order: seq<string>, env: Env, maxTools: nat, results: map<string, AgentResult>, tools: nat)
    requires Reached(GraphOf(plan), order, |order|, env, maxTools, results, tools)
    requires forall s :: s in order <==> s in Ids(plan)
    requires forall i :: 0 <= i < |plan| ==>
               plan[i].id in Ids(plan) && plan[i].id in GraphOf(plan) && GraphOf(plan)[plan[i].id] == plan[i].dependencies
    ensures ResultsFit(plan, results, env)
  {
    hide GraphOf, Fits, Sum, Ids;
    assert order[..|order|] == order;
    forall i | 0 <= i < |plan|
      ensures plan[i].id in results && Fits(plan[i].id, plan[i].dependencies, results, env, results[plan[i].id])
    {
      assert plan[i].id in Ids(plan);
    }
  }

  lemma StatusExactly(plan: seq<AgentStep>, results: map<string, AgentResult>, env: Env)
    requires ResultsFit(plan, results, env)
    ensures StatusFits(plan, results, env, OverallStatus(results, env.final))
  {
    OverallMeans(results, env.final);
    StepsAndResults(plan, results, env, DENIED);
    StepsAndResults(plan, results, env, REQUIRES_APPROVAL);
    StepsAndResults(plan, results, env, COMPLETED);
    hide ResultsFit, OverallStatus, Has, All, SomeStep, EveryStep;
  }

  /** A plan that a limit ends. */
  lemma LimitedExactly(plan: seq<AgentStep>, maxSteps: nat, maxDepth: nat, maxTools: nat, known: set<string>, env: Env, out: Outcome)
    requires RunsAs(plan, Validate(plan, maxSteps, maxDepth, known), maxTools, env, out) && out.Limited?
    ensures RanInto(plan, maxTools, env, out.limit)
  {
    var order, g := Validate(plan, maxSteps, maxDepth, known).value, GraphOf(plan);
    var n := LimitAt(g, order, |order|, env, maxTools);
    hide Validate, GraphOf, Sorted, Reached, Hits, After;
  }

  /** The step was free to run, allowed, and its handler returned a completed result. */
  ghost predicate Succeeded(step: AgentStep, results: map<string, AgentResult>, env: Env) {
    exists r: AgentResult :: r.status == COMPLETED && Answered(step.id, step.dependencies, results, env, Returns(r))
  }

  ghost predicate AllSucceeded(plan: seq<AgentStep>, results: map<string, AgentResult>, env: Env) {
    plan != [] && env.final == Allow && forall i :: 0 <= i < |plan| ==> Succeeded(plan[i], results, env)
  }

  /**
    After an allowed precheck, `execute` returns COMPLETED exactly when the plan has steps, the
    final guard allows the return, and every step was free to run and its handler completed it.
  */
  lemma CompletedExactly(plan: seq<AgentStep>, maxSteps: nat, maxDepth: nat, maxTools: nat, known: set<string>, env: Env, out: Outcome)
    requires RunsAs(plan, Validate(plan, maxSteps, maxDepth, known), maxTools, env, out) && out.Returned?
    ensures out.status == CompletedPlan <==> AllSucceeded(plan, out.results, env)
  {
    ReturnsExactly(plan, maxSteps, maxDepth, maxTools, known, env, out);
    hide Validate, RunsAs, ResultsFit, RanWhole, Answered, SomeStep, Sorted;
    assert EveryStep(plan, out.results, env, COMPLETED) <==> forall i :: 0 <= i < |plan| ==> Succeeded(plan[i], out.results, env);
  }

  /** `execute` with a plan given. */
  method Execute(plan: seq<AgentStep>, maxSteps: nat, maxDepth: nat, maxTools: nat, known: set<string>, env: Env) returns (out: Outcome)
    ensures env.precheck == Deny ==> out == Returned(DeniedPlan, map[], 0)
    ensures env.precheck == RequireApproval ==> out == Returned(ApprovalPlan, map[], 0)
    ensures env.precheck == Allow ==> RunsAs(plan, Validate(plan, maxSteps, maxDepth, known), maxTools, env, out)
    ensures out.Invalid? ==> env.precheck == Allow && Validate(plan, maxSteps, maxDepth, known) == Failure(out.error)
    ensures out.Returned? && env.precheck == Allow ==>
              ResultsFit(plan, out.results, env) && RanWhole(plan, maxTools, env, out.results, out.tools)
    ensures out.Returned? && env.precheck == Allow ==> StatusFits(plan, out.results, env, out.status)
    ensures out.Returned? && env.precheck == Allow ==> (out.status == CompletedPlan <==> AllSucceeded(plan, out.results, env))
    ensures out.Limited? ==> env.precheck == Allow && RanInto(plan, maxTools, env, out.limit)
  {
    if env.precheck == Deny { return Returned(DeniedPlan, map[], 0); }
    if env.precheck == RequireApproval { return Returned(ApprovalPlan, map[], 0); }
    var validated := ValidatePlan(plan, maxSteps, maxDepth, known);
    ValidateMeans(plan, maxSteps, maxDepth, known);
    hide Validate, Cycle, After, OverallStatus, GraphOf, ResultsFit, RanWhole, StatusFits, AllSucceeded, RanInto;
    if validated.Failure? { return Invalid(validated.error); }
    var order, g := validated.value, GraphOf(plan);
    var run := RunSteps(g, order, maxTools, env);
    hide Sorted, SortMeans;
    if run.Failure? {
      out := Limited(run.error);
      LimitedExactly(plan, maxSteps, maxDepth, maxTools, known, env, out);
      return;
    }
    out := Returned(OverallStatus(run.value.results, env.final), run.value.results, run.value.tools);
    ReturnsExactly(plan, maxSteps, maxDepth, maxTools, known, env, out);
    CompletedExactly(plan, maxSteps, maxDepth, maxTools, known, env, out);
  }

  /** Once a limit is hit the rest of the loop does not happen. */
  lemma {:induction false} StopsThere(g: Graph, order: seq<string>, i: nat, env: Env, maxTools: nat)
    requires i < |order| && (forall k :: 0 <= k < |order| ==> order[k] in g) && After(g, order, i + 1, env, maxTools).Failure?
    ensures After(g, order, |order|, env, maxTools) == After(g, order, i + 1, env, maxTools)
  {
    var n := i + 1;
    while n < |order|
      invariant i + 1 <= n <= |order|
      invariant After(g, order, n, env, maxTools) == After(g, order, i + 1, env, maxTools)
    {
      n := n + 1;
    }
  }

  // ---------------------------------------------------------------- the deterministic planner

  function StepId(i: nat): string {
    "step-" + Decimal(i)
  }

  /** The steps `DeterministicPlanner.plan` makes of a list of agents: a chain, except for the hybrid pair. */
  function PlanOf(agents: seq<string>): seq<AgentStep> {
    seq(|agents|, i requires 0 <= i < |agents| =>
      AgentStep(StepId(i + 1), agents[i], if i == 0 || agents == ["knowledge", "analytics"] then [] else [StepId(i)]))
  }

  /** One numbered step per agent, in order; a chain has each step depend on the one before. */
  predicate Planned(agents: seq<string>, plan: seq<AgentStep>) {
    && |plan| == |agents|
    && (forall i :: 0 <= i < |plan| ==> plan[i].id == "step-" + Decimal(i + 1) && plan[i].agent == agents[i])
    && (forall i :: 0 <= i < |plan| ==>
          plan[i].dependencies == if i > 0 && Chained(agents) then ["step-" + Decimal(i)] else [])
  }

  lemma PlannedShape(agents: seq<string>)
    ensures Planned(agents, PlanOf(agents))
  {
    var plan := PlanOf(agents);
    forall i | 0 <= i < |plan|
      ensures plan[i].id == "step-" + Decimal(i + 1) && plan[i].agent == agents[i]
      ensures plan[i].dependencies == if i > 0 && Chained(agents) then ["step-" + Decimal(i)] else []
    {
      assert plan[i] == AgentStep(StepId(i + 1), agents[i], if i == 0 || agents == ["knowledge", "analytics"] then [] else [StepId(i)]);
    }
  }

  lemma StepIdsDiffer(i: nat, j: nat)
    requires i != j
    ensures StepId(i) != StepId(j)
  {
    ParsePrinted(i);
    ParsePrinted(j);
    assert StepId(i)[5..] == Decimal(i) && StepId(j)[5..] == Decimal(j);
  }

  lemma PlannedIds(agents: seq<string>)
    ensures NoRepeats(Ids(PlanOf(agents)))
  {
    var ids := Ids(PlanOf(agents));
    forall i, j | 0 <= i < j < |ids|
      ensures ids[i] != ids[j]
    {
      StepIdsDiffer(i + 1, j + 1);
    }
  }

  /** Every planned step is listed after what it depends on. */
  lemma PlannedInOrder(agents: seq<string>, i: nat, d: string)
    requires i < |agents| && d in PlanOf(agents)[i].dependencies
    ensures d in Ids(PlanOf(agents))[..i]
  {
    assert Ids(PlanOf(agents))[..i][i - 1] == StepId(i);
  }

  /** Known agents, distinct steps, and each step listed after its dependencies. */
  predicate InOrder(plan: seq<AgentStep>, known: set<string>) {
    && NoRepeats(Ids(plan))
    && (forall i :: 0 <= i < |plan| ==> plan[i].agent in known)
    && (forall i, d :: 0 <= i < |plan| && d in plan[i].dependencies ==> d in Ids(plan)[..i])
  }

  lemma PlannedIsInOrder(agents: seq<string>, known: set<string>)
    requires forall i :: 0 <= i < |agents| ==> agents[i] in known
    ensures InOrder(PlanOf(agents), known) && |PlanOf(agents)| == |agents|
  {
    PlannedIds(agents);
    hide NoRepeats;
    forall i, d | 0 <= i < |agents| && d in PlanOf(agents)[i].dependencies
      ensures d in Ids(PlanOf(agents))[..i]
    {
      PlannedInOrder(agents, i, d);
    }
  }

  lemma InOrderIsWellFormed(plan: seq<AgentStep>, maxSteps: nat, known: set<string>)
    requires InOrder(plan, known) && |plan| <= maxSteps
    ensures WellFormed(plan, maxSteps, known)
  {
    hide NoRepeats;
    forall i, d | 0 <= i < |plan| && d in plan[i].dependencies ensures d in Ids(plan) {
      assert d in Ids(plan)[..i];
    }
  }

  lemma InOrderIsSorted(plan: seq<AgentStep>, known: set<string>)
    requires InOrder(plan, known)
    ensures Sorted(GraphOf(plan), Ids(plan))
  {
    GraphOfPlan(plan);
    hide GraphOf;
    assert forall i :: 0 <= i < |plan| ==> Ids(plan)[i] == plan[i].id;
  }

  /** The first two steps of a plan in its graph. */
  lemma StepsInGraph(plan: seq<AgentStep>)
    requires NoRepeats(Ids(plan))
    ensures forall i :: 0 <= i < |plan| ==> Ids(plan)[i] == plan[i].id && plan[i].id in GraphOf(plan)
    ensures forall i :: 0 <= i < |plan| ==> GraphOf(plan)[plan[i].id] == plan[i].dependencies
  {
    GraphOfPlan(plan);
    hide GraphOf;
  }

  lemma WellFormedVisits(plan: seq<AgentStep>, maxSteps: nat, maxDepth: nat, known: set<string>)
    requires WellFormed(plan, maxSteps, known)
    ensures Closed(GraphOf(plan)) && forall d :: d in Ids(plan) ==> d in GraphOf(plan)
    ensures Validate(plan, maxSteps, maxDepth, known) == VisitAll(GraphOf(plan), maxDepth, Ids(plan), 1, [], [])
  {
    NoFault(plan, Ids(plan), known);
    ClosedGraph(plan, known);
    hide GraphOf, VisitAll, PlanFault, Closed, NoRepeats;
  }

  /** The planner chains its steps, unless there is one or they are the hybrid pair. */
  predicate Chained(agents: seq<string>) {
    |agents| >= 2 && agents != ["knowledge", "analytics"]
  }

  lemma VisitLeaf(g: Graph, max: nat, id: string, ordered: seq<string>)
    requires Closed(g) && id in g && g[id] == [] && max >= 1 && id !in ordered
    ensures Visit(g, max, id, 1, [], ordered) == Success(ordered + [id])
  {
    assert VisitAll(g, max, [], 2, [] + [id], ordered) == Success(ordered);
  }

  /** With a depth limit of one, independent steps pass one after another. */
  lemma {:induction false} Independent(g: Graph, max: nat, ids: seq<string>, n: nat)
    requires Closed(g) && Sorted(g, ids) && max >= 1 && n <= |ids|
    requires forall i :: 0 <= i < |ids| ==> g[ids[i]] == []
    ensures VisitAll(g, max, ids[n..], 1, [], ids[..n]) == Success(ids)
    decreases |ids| - n
  {
    if n < |ids| {
      assert ids[n..][0] == ids[n] && ids[n..][1..] == ids[n + 1..];
      assert ids[..n] + [ids[n]] == ids[..n + 1];
      VisitLeaf(g, max, ids[n], ids[..n]);
      Independent(g, max, ids, n + 1);
    } else {
      assert ids[..n] == ids;
    }
  }

  /** With a depth limit of one, the second step of a chain is too deep. */
  lemma ChainTooDeep(g: Graph, ids: seq<string>)
    requires Closed(g) && Sorted(g, ids) && |ids| >= 2 && g[ids[0]] == [] && g[ids[1]] == [ids[0]]
    ensures VisitAll(g, 1, ids, 1, [], []) == Failure(TooDeep)
  {
    VisitLeaf(g, 1, ids[0], []);
    assert [] + [ids[0]] == [ids[0]];
    assert ids[1..][0] == ids[1];
    assert Visit(g, 1, ids[0], 2, [ids[1]], [ids[0]]) == Failure(TooDeep);
    assert Visit(g, 1, ids[1], 1, [], [ids[0]]) == Failure(TooDeep) by {
      assert [] + [ids[1]] == [ids[1]];
    }
  }

  /**
    A plan the planner makes of known agents is accepted, in the order the planner lists it,
    exactly when the depth limit is at least two, or one for a plan that is not a chain.
  */
  lemma PlannedIsValid(agents: seq<string>, maxSteps: nat, maxDepth: nat, known: set<string>)
    requires 0 < |agents| <= maxSteps && forall i :: 0 <= i < |agents| ==> agents[i] in known
    ensures Validate(PlanOf(agents), maxSteps, maxDepth, known) ==
      if maxDepth >= (if Chained(agents) then 2 else 1) then Success(Ids(PlanOf(agents))) else Failure(TooDeep)
  {
    PlannedIsInOrder(agents, known);
    PlannedLinks(agents);
    var plan := PlanOf(agents);
    hide PlanOf, Validate;
    InOrderIsWellFormed(plan, maxSteps, known);
    InOrderIsSorted(plan, known);
    StepsInGraph(plan);
    WellFormedVisits(plan, maxSteps, maxDepth, known);
    hide InOrder, WellFormed, GraphOf, Sorted, Visit, VisitAll, Closed;
    var ids, g := Ids(plan), GraphOf(plan);
    assert ids[0..] == ids && ids[..0] == [];
    if maxDepth >= 2 {
      VisitsInOrder(g, maxDepth, ids, 0);
    } else if maxDepth == 0 {
      NothingFits(g, ids);
    } else if Chained(agents) {
      ChainTooDeep(g, ids);
    } else {
      Independent(g, maxDepth, ids, 0);
    }
  }

  /** Which dependencies the planner gives. */
  lemma PlannedLinks(agents: seq<string>)
    requires agents != []
    ensures var plan := PlanOf(agents);
      && |plan| == |agents| && plan[0].dependencies == []
      && (Chained(agents) ==> plan[1].dependencies == [plan[0].id])
      && (!Chained(agents) ==> forall i :: 0 <= i < |plan| ==> plan[i].dependencies == [])
  {
  }

  lemma NothingFits(g: Graph, ids: seq<string>)
    requires Closed(g) && (forall d :: d in ids ==> d in g) && ids != []
    ensures VisitAll(g, 0, ids, 1, [], []) == Failure(TooDeep)
  {
    assert Visit(g, 0, ids[0], 1, [], []) == Failure(TooDeep);
  }
}
