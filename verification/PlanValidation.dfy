/**
  `MultiAgentOrchestrator.validate_plan`: a depth-limited depth-first topological sort.

  The depth that is limited is the depth of the recursion, and it is looked at before the
  cycle check and before the test whether a step was visited already.
*/
module PlanValidation {
  import opened Wrappers

  datatype AgentStep = AgentStep(id: string, agent: string, dependencies: seq<string>)

  datatype PlanError =
    | TooManySteps | DuplicateId | UnknownAgent | UnknownDependency
    | TooDeep    // "maximum plan depth exceeded"
    | Circular   // "circular plan"

  /** Step ids with the ids they depend on. */
  type Graph = map<string, seq<string>>

  ghost predicate Closed(g: Graph) {
    forall s, d :: s in g && d in g[s] ==> d in g
  }

  // ---------------------------------------------------------------- the recursion as a function

  /** `path` holds the steps being visited, `ordered` the finished ones in order. */
  function Visit(g: Graph, max: nat, id: string, depth: nat, path: seq<string>, ordered: seq<string>): Result<seq<string>, PlanError>
    requires Closed(g) && id in g && depth <= max + 1
    decreases max + 1 - depth, 0
  {
    if depth > max then Failure(TooDeep)
    else if id in path then Failure(Circular)
    else if id in ordered then Success(ordered)
    else
      match VisitAll(g, max, g[id], depth + 1, path + [id], ordered)
      case Failure(error) => Failure(error)
      case Success(done) => Success(done + [id])
  }

  function VisitAll(g: Graph, max: nat, ids: seq<string>, depth: nat, path: seq<string>, ordered: seq<string>): Result<seq<string>, PlanError>
    requires Closed(g) && (forall d :: d in ids ==> d in g) && depth <= max + 1
    decreases max + 1 - depth, |ids| + 1
  {
    if ids == [] then Success(ordered)
    else
      match Visit(g, max, ids[0], depth, path, ordered)
      case Failure(error) => Failure(error)
      case Success(done) => VisitAll(g, max, ids[1..], depth, path, done)
  }

  // ---------------------------------------------------------------- what a result means

  /** Every step of the walk depends on the next one. */
  ghost predicate Walk(g: Graph, w: seq<string>) {
    (forall i :: 0 <= i < |w| ==> w[i] in g) && (forall i :: 0 <= i < |w| - 1 ==> w[i + 1] in g[w[i]])
  }

  ghost predicate Cycle(g: Graph, w: seq<string>) {
    Walk(g, w) && |w| >= 2 && w[0] == w[|w| - 1]
  }

  predicate NoRepeats(s: seq<string>) {
    forall i, j :: 0 <= i < j < |s| ==> s[i] != s[j]
  }

  /** Each step comes once, after everything it depends on. */
  ghost predicate Sorted(g: Graph, s: seq<string>) {
    && NoRepeats(s) && (forall i :: 0 <= i < |s| ==> s[i] in g)
    && (forall i, d :: 0 <= i < |s| && d in g[s[i]] ==> d in s[..i])
  }

  /** What a visit promises about its result. */
  ghost predicate Sound(g: Graph, max: nat, path: seq<string>, ordered: seq<string>, ids: seq<string>, r: Result<seq<string>, PlanError>) {
    match r
    case Success(done) =>
      && Sorted(g, done) && ordered <= done
      && (forall d :: d in ids ==> d in done)
      && (forall x :: x in path ==> x !in done)
    case Failure(Circular) => exists w :: Cycle(g, w) && |w| <= max
    case Failure(TooDeep) => exists w :: Walk(g, w) && |w| == max + 1
    case _ => false
  }

  /** The steps being visited form a walk that leads to the step visited next. */
  ghost predicate Leads(g: Graph, path: seq<string>, id: string) {
    Walk(g, path + [id])
  }

  lemma SortedExtends(g: Graph, s: seq<string>, id: string)
    requires Sorted(g, s) && id in g && id !in s && forall d :: d in g[id] ==> d in s
    ensures Sorted(g, s + [id])
  {
    var t := s + [id];
    forall i, d | 0 <= i < |t| && d in g[t[i]]
      ensures d in t[..i]
    {
      if i < |s| {
        assert t[..i] == s[..i];
      } else {
        assert t[..i] == s;
      }
    }
  }

  lemma BackEdgeIsCycle(g: Graph, path: seq<string>, id: string)
    requires Leads(g, path, id) && id in path
    ensures exists w :: Cycle(g, w) && |w| <= |path| + 1
  {
    var i :| 0 <= i < |path| && path[i] == id;
    var w := (path + [id])[i..];
    assert Cycle(g, w);
  }

  lemma {:induction false} VisitSound(g: Graph, max: nat, id: string, depth: nat, path: seq<string>, ordered: seq<string>)
    requires Closed(g) && id in g && 1 <= depth <= max + 1 && |path| == depth - 1
    requires Leads(g, path, id) && Sorted(g, ordered) && forall x :: x in path ==> x !in ordered
    ensures Sound(g, max, path, ordered, [id], Visit(g, max, id, depth, path, ordered))
    decreases max + 1 - depth, 0
  {
    if depth > max {
      assert |path + [id]| == max + 1;
    } else if id in path {
      BackEdgeIsCycle(g, path, id);
    } else if id in ordered {
    } else {
      LeadsOn(g, path, id);
      VisitAllSound(g, max, g[id], depth + 1, path + [id], ordered);
      hide Walk, Cycle, Leads;
      var r := VisitAll(g, max, g[id], depth + 1, path + [id], ordered);
      if r.Success? {
        FinishSound(g, max, path, ordered, id, r.value);
      }
    }
  }

  lemma FinishSound(g: Graph, max: nat, path: seq<string>, ordered: seq<string>, id: string, done: seq<string>)
    requires id in g && id !in path && Sound(g, max, path + [id], ordered, g[id], Success(done))
    ensures Sound(g, max, path, ordered, [id], Success(done + [id]))
  {
    assert id in path + [id];
    SortedExtends(g, done, id);
    forall x | x in path
      ensures x !in done
    {
      assert x in path + [id];
    }
  }

  lemma LeadsOn(g: Graph, path: seq<string>, id: string)
    requires Leads(g, path, id) && id in g
    ensures forall d :: d in g[id] && d in g ==> Leads(g, path + [id], d)
  {
    forall d | d in g[id] && d in g
      ensures Leads(g, path + [id], d)
    {
      var w := path + [id];
      assert forall i :: 0 <= i < |w| ==> (w + [d])[i] == w[i];
    }
  }

  lemma {:induction false} VisitAllSound(g: Graph, max: nat, ids: seq<string>, depth: nat, path: seq<string>, ordered: seq<string>)
    requires Closed(g) && 1 <= depth <= max + 1 && |path| == depth - 1
    requires forall d :: d in ids ==> d in g && Leads(g, path, d)
    requires Sorted(g, ordered) && forall x :: x in path ==> x !in ordered
    ensures Sound(g, max, path, ordered, ids, VisitAll(g, max, ids, depth, path, ordered))
    decreases max + 1 - depth, |ids| + 1
  {
    if ids != [] {
      hide Walk, Cycle, Leads;
      VisitSound(g, max, ids[0], depth, path, ordered);
      var r := Visit(g, max, ids[0], depth, path, ordered);
      if r.Success? {
        VisitAllSound(g, max, ids[1..], depth, path, r.value);
        RestSound(g, max, path, ordered, ids, r.value, VisitAll(g, max, ids[1..], depth, path, r.value));
      }
    }
  }

  lemma RestSound(g: Graph, max: nat, path: seq<string>, ordered: seq<string>, ids: seq<string>, mid: seq<string>, r: Result<seq<string>, PlanError>)
    requires ids != [] && Sound(g, max, path, ordered, [ids[0]], Success(mid)) && Sound(g, max, path, mid, ids[1..], r)
    ensures Sound(g, max, path, ordered, ids, r)
  {
    if r.Success? {
      assert ids[0] in [ids[0]];
      forall d | d in ids
        ensures d in r.value
      {
        if d != ids[0] {
          assert d in ids[1..];
        }
      }
    }
  }

  // ---------------------------------------------------------------- validate_plan

  function Ids(plan: seq<AgentStep>): seq<string> {
    seq(|plan|, i requires 0 <= i < |plan| => plan[i].id)
  }

  function GraphOf(plan: seq<AgentStep>): Graph {
    if plan == [] then map[]
    else GraphOf(plan[..|plan| - 1])[plan[|plan| - 1].id := plan[|plan| - 1].dependencies]
  }

  lemma {:induction false} GraphOfPlan(plan: seq<AgentStep>)
    requires NoRepeats(Ids(plan))
    ensures forall s :: s in GraphOf(plan) <==> s in Ids(plan)
    ensures forall i :: 0 <= i < |plan| ==> plan[i].id in GraphOf(plan) && GraphOf(plan)[plan[i].id] == plan[i].dependencies
  {
    if plan != [] {
      var front := plan[..|plan| - 1];
      assert Ids(plan) == Ids(front) + [plan[|plan| - 1].id];
      assert forall i :: 0 <= i < |plan| ==> plan[i].id == Ids(plan)[i];
      assert forall i :: 0 <= i < |front| ==> Ids(front)[i] == Ids(plan)[i];
      GraphOfPlan(front);
    }
  }

  /** The checks of one step: its agent first, then its dependencies. */
  function StepFault(step: AgentStep, ids: seq<string>, known: set<string>): Option<PlanError> {
    if step.agent !in known then Some(UnknownAgent)
    else if exists d :: d in step.dependencies && d !in ids then Some(UnknownDependency)
    else None
  }

  /** The first fault in plan order. */
  function PlanFault(plan: seq<AgentStep>, ids: seq<string>, known: set<string>): Option<PlanError> {
    if plan == [] then None
    else if StepFault(plan[0], ids, known).Some? then StepFault(plan[0], ids, known)
    else PlanFault(plan[1..], ids, known)
  }

  lemma {:induction false} NoFault(plan: seq<AgentStep>, ids: seq<string>, known: set<string>)
    ensures PlanFault(plan, ids, known).None? <==>
              forall i :: 0 <= i < |plan| ==> plan[i].agent in known && forall d :: d in plan[i].dependencies ==> d in ids
    ensures PlanFault(plan, ids, known).None? || PlanFault(plan, ids, known) == Some(UnknownAgent)
              || PlanFault(plan, ids, known) == Some(UnknownDependency)
  {
    if plan != [] {
      NoFault(plan[1..], ids, known);
      assert forall i :: 1 <= i < |plan| ==> plan[i] == plan[1..][i - 1];
    }
  }

  lemma ClosedGraph(plan: seq<AgentStep>, known: set<string>)
    requires NoRepeats(Ids(plan)) && PlanFault(plan, Ids(plan), known).None?
    ensures Closed(GraphOf(plan)) && forall d :: d in Ids(plan) ==> d in GraphOf(plan)
  {
    GraphOfPlan(plan);
    NoFault(plan, Ids(plan), known);
    forall s, d | s in GraphOf(plan) && d in GraphOf(plan)[s]
      ensures d in GraphOf(plan)
    {
      var i :| 0 <= i < |plan| && Ids(plan)[i] == s;
      assert plan[i].id == s;
    }
  }

  function Validate(plan: seq<AgentStep>, maxSteps: nat, maxDepth: nat, known: set<string>): Result<seq<string>, PlanError> {
    if |plan| > maxSteps then Failure(TooManySteps)
    else if !NoRepeats(Ids(plan)) then Failure(DuplicateId)
    else if PlanFault(plan, Ids(plan), known).Some? then Failure(PlanFault(plan, Ids(plan), known).value)
    else
      ClosedGraph(plan, known);
      VisitAll(GraphOf(plan), maxDepth, Ids(plan), 1, [], [])
  }

  /** Within the step limit, without repeated ids, with known agents and dependencies only. */
  ghost predicate WellFormed(plan: seq<AgentStep>, maxSteps: nat, known: set<string>) {
    && |plan| <= maxSteps && NoRepeats(Ids(plan))
    && forall i :: 0 <= i < |plan| ==> plan[i].agent in known && forall d :: d in plan[i].dependencies ==> d in Ids(plan)
  }

  lemma {:induction false} Distinct(s: seq<string>)
    requires NoRepeats(s)
    ensures |set x | x in s| == |s|
  {
    if s != [] {
      var front := s[..|s| - 1];
      Distinct(front);
      assert (set x | x in s) == (set x | x in front) + {s[|s| - 1]};
    }
  }

  lemma SameSize(s: seq<string>, t: seq<string>)
    requires NoRepeats(s) && NoRepeats(t) && forall x :: x in s <==> x in t
    ensures |s| == |t|
  {
    Distinct(s);
    Distinct(t);
    assert (set x | x in s) == (set x | x in t);
  }

  /** A walk goes back in a sorted order. */
  lemma {:induction false} WalkGoesBack(g: Graph, s: seq<string>, w: seq<string>, i: nat)
    requires Sorted(g, s) && Walk(g, w) && |w| >= 2 && i < |s| && s[i] == w[0]
    ensures exists j :: 0 <= j < i && s[j] == w[|w| - 1]
    decreases |w|
  {
    assert w[1] in g[s[i]] && w[1] in s[..i];
    var j :| 0 <= j < i && s[..i][j] == w[1];
    if |w| > 2 {
      assert forall k :: 0 <= k < |w| - 1 ==> w[1..][k] == w[k + 1];
      WalkGoesBack(g, s, w[1..], j);
    }
  }

  lemma SortedHasNoCycle(g: Graph, s: seq<string>, w: seq<string>)
    requires Sorted(g, s) && (forall x :: x in g ==> x in s)
    ensures !Cycle(g, w)
  {
    if Cycle(g, w) {
      assert w[0] in s;
      var i :| 0 <= i < |s| && s[i] == w[0];
      WalkGoesBack(g, s, w, i);
    }
  }

  /** What the outcome of sorting a well-formed plan says about the plan. */
  ghost predicate SortMeans(plan: seq<AgentStep>, maxDepth: nat, r: Result<seq<string>, PlanError>) {
    match r
    case Success(order) =>
      && Sorted(GraphOf(plan), order) && |order| == |plan| && (forall s :: s in order <==> s in Ids(plan))
      && (forall w :: !Cycle(GraphOf(plan), w))
    case Failure(Circular) => exists w :: Cycle(GraphOf(plan), w) && |w| <= maxDepth
    case Failure(TooDeep) => exists w :: Walk(GraphOf(plan), w) && |w| == maxDepth + 1
    case _ => false
  }

  /** A step of unknown agent, or with an unknown dependency, before which no step has a fault. */
  predicate FirstFault(plan: seq<AgentStep>, ids: seq<string>, known: set<string>, i: nat, error: PlanError) {
    && i < |plan|
    && (forall j :: 0 <= j < i ==> plan[j].agent in known && forall d :: d in plan[j].dependencies ==> d in ids)
    && (error == UnknownAgent ==> plan[i].agent !in known)
    && (error == UnknownDependency ==> plan[i].agent in known && exists d :: d in plan[i].dependencies && d !in ids)
  }

  lemma {:induction false} NamedFault(plan: seq<AgentStep>, ids: seq<string>, known: set<string>)
    ensures var fault := PlanFault(plan, ids, known);
      fault.Some? ==> exists i: nat :: FirstFault(plan, ids, known, i, fault.value)
  {
    if plan != [] {
      if StepFault(plan[0], ids, known).Some? {
        assert FirstFault(plan, ids, known, 0, StepFault(plan[0], ids, known).value);
      } else if PlanFault(plan[1..], ids, known).Some? {
        NamedFault(plan[1..], ids, known);
        var i: nat :| FirstFault(plan[1..], ids, known, i, PlanFault(plan, ids, known).value);
        assert forall j :: 1 <= j < |plan| ==> plan[j] == plan[1..][j - 1];
        assert FirstFault(plan, ids, known, i + 1, PlanFault(plan, ids, known).value);
      }
    }
  }

  /** The errors that precede sorting: the number of steps, repeated ids, and the first faulty step. */
  ghost predicate FaultsNamed(plan: seq<AgentStep>, maxSteps: nat, known: set<string>, r: Result<seq<string>, PlanError>) {
    && (r == Failure(TooManySteps) <==> |plan| > maxSteps)
    && (r == Failure(DuplicateId) <==> |plan| <= maxSteps && exists i, j :: 0 <= i < j < |plan| && plan[i].id == plan[j].id)
    && (r == Failure(UnknownAgent) ==> exists i: nat :: FirstFault(plan, Ids(plan), known, i, UnknownAgent))
    && (r == Failure(UnknownDependency) ==> exists i: nat :: FirstFault(plan, Ids(plan), known, i, UnknownDependency))
  }

  lemma RepeatedIds(plan: seq<AgentStep>)
    ensures NoRepeats(Ids(plan)) <==> !exists i, j :: 0 <= i < j < |plan| && plan[i].id == plan[j].id
  {
    assert |Ids(plan)| == |plan| && forall i :: 0 <= i < |plan| ==> Ids(plan)[i] == plan[i].id;
  }

  /**
    `validate_plan`: on return the list holds every step once, dependencies first, so the
    plan has no cycle; "circular plan" names a real cycle within the depth limit and "maximum
    plan depth" a real dependency walk of more than max_depth steps; the other errors come
    exactly from plans that are not well formed, each in its case.
  */
  lemma ValidateMeans(plan: seq<AgentStep>, maxSteps: nat, maxDepth: nat, known: set<string>)
    ensures var r := Validate(plan, maxSteps, maxDepth, known);
      if WellFormed(plan, maxSteps, known) then SortMeans(plan, maxDepth, r)
      else r.Failure? && r.error != Circular && r.error != TooDeep
    ensures FaultsNamed(plan, maxSteps, known, Validate(plan, maxSteps, maxDepth, known))
  {
    hide SortMeans, NoRepeats;
    NoFault(plan, Ids(plan), known);
    NamedFault(plan, Ids(plan), known);
    RepeatedIds(plan);
    if |plan| <= maxSteps && NoRepeats(Ids(plan)) && PlanFault(plan, Ids(plan), known).None? {
      ClosedGraph(plan, known);
      AcceptedMeans(plan, maxDepth, known);
    }
  }

  /** A well-formed plan without cycles and without dependency walks of more than max_depth steps is accepted. */
  lemma AcyclicShallowPlansPass(plan: seq<AgentStep>, maxSteps: nat, maxDepth: nat, known: set<string>)
    requires WellFormed(plan, maxSteps, known)
    requires forall w :: !Cycle(GraphOf(plan), w)
    requires forall w :: Walk(GraphOf(plan), w) ==> |w| <= maxDepth
    ensures Validate(plan, maxSteps, maxDepth, known).Success?
  {
    ValidateMeans(plan, maxSteps, maxDepth, known);
  }

  lemma AcceptedMeans(plan: seq<AgentStep>, maxDepth: nat, known: set<string>)
    requires NoRepeats(Ids(plan)) && PlanFault(plan, Ids(plan), known).None?
    requires Closed(GraphOf(plan)) && forall d :: d in Ids(plan) ==> d in GraphOf(plan)
    ensures SortMeans(plan, maxDepth, VisitAll(GraphOf(plan), maxDepth, Ids(plan), 1, [], []))
  {
    var g := GraphOf(plan);
    GraphOfPlan(plan);
    forall d | d in Ids(plan)
      ensures Leads(g, [], d)
    {
      assert [] + [d] == [d];
    }
    VisitAllSound(g, maxDepth, Ids(plan), 1, [], []);
    var r := VisitAll(g, maxDepth, Ids(plan), 1, [], []);
    if r.Success? {
      assert forall i :: 0 <= i < |r.value| ==> r.value[i] in g;
      SameSize(r.value, Ids(plan));
      forall w
        ensures !Cycle(g, w)
      {
        SortedHasNoCycle(g, r.value, w);
      }
    }
  }

  // ---------------------------------------------------------------- what a visit reaches

  ghost predicate Reaches(g: Graph, s: string, t: string) {
    exists w :: Walk(g, w) && w != [] && w[0] == s && w[|w| - 1] == t
  }

  ghost predicate AnyReaches(g: Graph, ids: seq<string>, t: string) {
    exists d :: d in ids && Reaches(g, d, t)
  }

  lemma ReachesSelf(g: Graph, s: string)
    requires s in g
    ensures Reaches(g, s, s)
  {
    assert Walk(g, [s]);
  }

  lemma ReachesStep(g: Graph, s: string, d: string, t: string)
    requires s in g && d in g[s] && Reaches(g, d, t)
    ensures Reaches(g, s, t)
  {
    var w :| Walk(g, w) && w != [] && w[0] == d && w[|w| - 1] == t;
    var v := [s] + w;
    assert forall i :: 0 <= i < |v| - 1 ==> v[i + 1] == w[i];
    assert Walk(g, v);
  }

  /** A sorted list holds whatever its members reach. */
  lemma {:induction false} SortedIsClosed(g: Graph, s: seq<string>, w: seq<string>)
    requires Sorted(g, s) && Walk(g, w) && w != [] && w[0] in s
    ensures w[|w| - 1] in s
    decreases |w|
  {
    if |w| > 1 {
      var i :| 0 <= i < |s| && s[i] == w[0];
      assert w[1] in g[s[i]] && w[1] in s[..i];
      var v := w[1..];
      assert Walk(g, v) && v[0] == w[1] && v[|v| - 1] == w[|w| - 1];
      SortedIsClosed(g, s, v);
    }
  }

  ghost predicate HoldsReach(g: Graph, ordered: seq<string>, ids: seq<string>, done: seq<string>) {
    forall x :: x in done <==> x in ordered || AnyReaches(g, ids, x)
  }

  /** A visit that succeeds adds what can be reached, and nothing else. */
  lemma {:induction false} VisitReaches(g: Graph, max: nat, id: string, depth: nat, path: seq<string>, ordered: seq<string>, x: string)
    requires Closed(g) && id in g && depth <= max + 1 && Visit(g, max, id, depth, path, ordered).Success?
    requires x in Visit(g, max, id, depth, path, ordered).value
    ensures x in ordered || Reaches(g, id, x)
    decreases max + 1 - depth, 0
  {
    if id !in ordered {
      var done := VisitAll(g, max, g[id], depth + 1, path + [id], ordered).value;
      if x in done {
        VisitAllReaches(g, max, g[id], depth + 1, path + [id], ordered, x);
        if x !in ordered {
          var d :| d in g[id] && Reaches(g, d, x);
          ReachesStep(g, id, d, x);
        }
      } else {
        ReachesSelf(g, id);
      }
    }
  }

  lemma {:induction false} VisitAllReaches(g: Graph, max: nat, ids: seq<string>, depth: nat, path: seq<string>, ordered: seq<string>, x: string)
    requires Closed(g) && (forall d :: d in ids ==> d in g) && depth <= max + 1
    requires VisitAll(g, max, ids, depth, path, ordered).Success? && x in VisitAll(g, max, ids, depth, path, ordered).value
    ensures x in ordered || AnyReaches(g, ids, x)
    decreases max + 1 - depth, |ids| + 1
  {
    hide Reaches;
    if ids != [] {
      var mid := Visit(g, max, ids[0], depth, path, ordered).value;
      VisitAllReaches(g, max, ids[1..], depth, path, mid, x);
      if AnyReaches(g, ids[1..], x) {
        var d :| d in ids[1..] && Reaches(g, d, x);
        assert d in ids;
      } else {
        VisitReaches(g, max, ids[0], depth, path, ordered, x);
      }
    }
  }

  /** The situation of a visit: the steps being visited lead to it, the finished ones are sorted. */
  ghost predicate Placed(g: Graph, max: nat, ids: seq<string>, depth: nat, path: seq<string>, ordered: seq<string>) {
    && Closed(g) && 1 <= depth <= max + 1 && |path| == depth - 1
    && (forall d :: d in ids ==> d in g && Leads(g, path, d))
    && Sorted(g, ordered) && (forall x :: x in path ==> x !in ordered)
  }

  lemma VisitHoldsReach(g: Graph, max: nat, id: string, depth: nat, path: seq<string>, ordered: seq<string>)
    requires Placed(g, max, [id], depth, path, ordered) && id in g && Visit(g, max, id, depth, path, ordered).Success?
    ensures HoldsReach(g, ordered, [id], Visit(g, max, id, depth, path, ordered).value)
  {
    var done := Visit(g, max, id, depth, path, ordered).value;
    assert id in [id];
    VisitSound(g, max, id, depth, path, ordered);
    hide Visit;
    forall x ensures x in done <==> x in ordered || AnyReaches(g, [id], x) {
      if x in done { VisitReaches(g, max, id, depth, path, ordered, x); }
      if AnyReaches(g, [id], x) {
        var w :| Walk(g, w) && w != [] && w[0] == id && w[|w| - 1] == x;
        SortedIsClosed(g, done, w);
      }
    }
  }

  // ---------------------------------------------------------------- exactly when the depth limit strikes

  /** The list that position `j` of a descent is taken from: the given steps, then the dependencies of the step above. */
  ghost function Siblings(g: Graph, ids: seq<string>, w: seq<string>, j: nat): seq<string> {
    if j == 0 then ids else if j - 1 < |w| && w[j - 1] in g then g[w[j - 1]] else []
  }

  /** Step `j` of a descent stands at place `at[j]` among its siblings. */
  ghost predicate InPlace(g: Graph, ids: seq<string>, w: seq<string>, at: seq<nat>, j: nat)
    requires j < |w| == |at|
  {
    at[j] < |Siblings(g, ids, w, j)| && Siblings(g, ids, w, j)[at[j]] == w[j]
  }

  /** A walk down the dependencies, with the place each of its steps has among its siblings. */
  ghost predicate Descent(g: Graph, ids: seq<string>, w: seq<string>, at: seq<nat>) {
    |at| == |w| && w != [] && forall j :: 0 <= j < |w| ==> InPlace(g, ids, w, at, j)
  }

  /** No earlier sibling of step `j` reaches `t`. */
  ghost predicate Unreached(g: Graph, ids: seq<string>, w: seq<string>, at: seq<nat>, j: nat, t: string)
    requires j < |w| == |at|
  {
    InPlace(g, ids, w, at, j) && !AnyReaches(g, Siblings(g, ids, w, j)[..at[j]], t)
  }

  /** When the descent meets `w[i]`, that step is new: not in `seen`, and not reached from an earlier sibling on the way. */
  ghost predicate NewAt(g: Graph, ids: seq<string>, w: seq<string>, at: seq<nat>, seen: seq<string>, i: nat)
    requires Descent(g, ids, w, at) && i < |w|
  {
    w[i] !in seen && forall j :: 0 <= j <= i ==> Unreached(g, ids, w, at, j, w[i])
  }

  /** A descent of `n` steps, all of them new except perhaps the last. */
  ghost predicate Plunge(g: Graph, ids: seq<string>, w: seq<string>, at: seq<nat>, seen: seq<string>, n: nat) {
    && Descent(g, ids, w, at) && |w| == n
    && forall i :: 0 <= i < n - 1 ==> NewAt(g, ids, w, at, seen, i)
  }

  ghost predicate CanPlunge(g: Graph, ids: seq<string>, seen: seq<string>, n: nat) {
    exists w, at :: Plunge(g, ids, w, at, seen, n)
  }

  ghost predicate Acyclic(g: Graph) {
    forall w :: !Cycle(g, w)
  }

  /** The place among siblings of each step but the first does not depend on where the descent starts from. */
  lemma SiblingsLater(g: Graph, ids: seq<string>, other: seq<string>, w: seq<string>, j: nat)
    requires j > 0
    ensures Siblings(g, ids, w, j) == Siblings(g, other, w, j)
  {
  }

  lemma SamePlaceLater(g: Graph, ids: seq<string>, other: seq<string>, w: seq<string>, at: seq<nat>, to: seq<nat>, j: nat)
    requires 0 < j < |w| == |at| == |to| && at[j] == to[j]
    ensures InPlace(g, ids, w, at, j) <==> InPlace(g, other, w, to, j)
    ensures forall t :: Unreached(g, ids, w, at, j, t) <==> Unreached(g, other, w, to, j, t)
  {
    SiblingsLater(g, ids, other, w, j);
    hide Siblings, AnyReaches;
  }

  lemma SamePlaceFirst(g: Graph, ids: seq<string>, w: seq<string>, at: seq<nat>)
    requires ids != [] && 0 < |w| == |at| && at[0] == 0
    ensures InPlace(g, ids, w, at, 0) <==> InPlace(g, [ids[0]], w, at, 0)
    ensures forall t :: Unreached(g, ids, w, at, 0, t) <==> Unreached(g, [ids[0]], w, at, 0, t)
  {
    FirstSiblings(g, ids, w);
    FirstSiblings(g, [ids[0]], w);
    assert ids[..0] == [ids[0]][..0];
    hide Siblings, AnyReaches;
  }

  /** A plunge that starts at the first member of a list is one from that member alone. */
  lemma PlungeFromFirst(g: Graph, ids: seq<string>, w: seq<string>, at: seq<nat>, seen: seq<string>, n: nat)
    requires ids != [] && 0 < |w| == |at| && at[0] == 0
    ensures Plunge(g, [ids[0]], w, at, seen, n) <==> Plunge(g, ids, w, at, seen, n)
  {
    hide InPlace, Unreached;
    forall j | 0 <= j < |w|
      ensures InPlace(g, ids, w, at, j) <==> InPlace(g, [ids[0]], w, at, j)
    {
      if j == 0 { SamePlaceFirst(g, ids, w, at); } else { SamePlaceLater(g, ids, [ids[0]], w, at, at, j); }
    }
    assert Descent(g, ids, w, at) <==> Descent(g, [ids[0]], w, at);
    if Descent(g, ids, w, at) {
      forall i | 0 <= i < |w| ensures NewAt(g, ids, w, at, seen, i) <==> NewAt(g, [ids[0]], w, at, seen, i) {
        NewFromFirst(g, ids, w, at, seen, i);
      }
      hide NewAt, Descent;
    }
  }

  lemma NewFromFirst(g: Graph, ids: seq<string>, w: seq<string>, at: seq<nat>, seen: seq<string>, i: nat)
    requires ids != [] && i < |w| == |at| && Descent(g, ids, w, at) && Descent(g, [ids[0]], w, at) && at[0] == 0
    ensures NewAt(g, ids, w, at, seen, i) <==> NewAt(g, [ids[0]], w, at, seen, i)
  {
    hide InPlace, Unreached, Descent;
    forall j | 0 <= j < |w|
      ensures Unreached(g, ids, w, at, j, w[i]) <==> Unreached(g, [ids[0]], w, at, j, w[i])
    {
      if j == 0 { SamePlaceFirst(g, ids, w, at); } else { SamePlaceLater(g, ids, [ids[0]], w, at, at, j); }
    }
  }

  lemma ReachedByOneMore(g: Graph, first: string, rest: seq<string>, t: string)
    ensures AnyReaches(g, [first] + rest, t) <==> Reaches(g, first, t) || AnyReaches(g, rest, t)
  {
    hide Reaches;
    if AnyReaches(g, [first] + rest, t) {
      var d :| d in [first] + rest && Reaches(g, d, t);
    }
    if Reaches(g, first, t) { assert first in [first] + rest; }
    if AnyReaches(g, rest, t) {
      var d :| d in rest && Reaches(g, d, t);
      assert d in [first] + rest;
    }
  }

  /** Place 0 when the list loses its first member, whose reach counts as seen. */
  lemma ShiftedFirst(g: Graph, ids: seq<string>, w: seq<string>, at: seq<nat>)
    requires ids != [] && 0 < |w| == |at|
    ensures InPlace(g, ids[1..], w, at, 0) <==> InPlace(g, ids, w, at[0 := at[0] + 1], 0)
    ensures forall t :: Unreached(g, ids, w, at[0 := at[0] + 1], 0, t) <==> Unreached(g, ids[1..], w, at, 0, t) && !Reaches(g, ids[0], t)
  {
    var to := at[0 := at[0] + 1];
    FirstSiblings(g, ids, w);
    FirstSiblings(g, ids[1..], w);
    hide Siblings, Reaches;
    if at[0] < |ids| - 1 {
      assert ids[..to[0]] == [ids[0]] + ids[1..][..at[0]];
      forall t ensures AnyReaches(g, ids[..to[0]], t) <==> Reaches(g, ids[0], t) || AnyReaches(g, ids[1..][..at[0]], t) {
        ReachedByOneMore(g, ids[0], ids[1..][..at[0]], t);
      }
      hide AnyReaches;
    }
  }

  lemma DescentShift(g: Graph, ids: seq<string>, w: seq<string>, at: seq<nat>)
    requires ids != [] && 0 < |w| == |at|
    ensures Descent(g, ids[1..], w, at) <==> Descent(g, ids, w, at[0 := at[0] + 1])
  {
    var to := at[0 := at[0] + 1];
    hide InPlace, Unreached;
    forall j | 0 <= j < |w|
      ensures InPlace(g, ids[1..], w, at, j) <==> InPlace(g, ids, w, to, j)
    {
      if j == 0 { ShiftedFirst(g, ids, w, at); } else { SamePlaceLater(g, ids[1..], ids, w, at, to, j); }
    }
  }

  /** A step is new among the rest of the list exactly if it is new with the first member's reach taken as seen. */
  lemma NewAmongRest(g: Graph, ids: seq<string>, w: seq<string>, at: seq<nat>, seen: seq<string>, done: seq<string>, i: nat)
    requires ids != [] && HoldsReach(g, seen, [ids[0]], done)
    requires Descent(g, ids[1..], w, at) && i < |w| && Descent(g, ids, w, at[0 := at[0] + 1])
    ensures NewAt(g, ids[1..], w, at, done, i) <==> NewAt(g, ids, w, at[0 := at[0] + 1], seen, i)
  {
    var to := at[0 := at[0] + 1];
    assert [ids[0]] == [ids[0]] + [];
    ReachedByOneMore(g, ids[0], [], w[i]);
    assert w[i] in done <==> w[i] in seen || Reaches(g, ids[0], w[i]);
    hide InPlace, Unreached, HoldsReach, Reaches;
    ShiftedFirst(g, ids, w, at);
    forall j | 0 < j <= i
      ensures Unreached(g, ids[1..], w, at, j, w[i]) <==> Unreached(g, ids, w, to, j, w[i])
    {
      SamePlaceLater(g, ids[1..], ids, w, at, to, j);
    }
  }

  lemma PlungeShift(g: Graph, ids: seq<string>, w: seq<string>, at: seq<nat>, seen: seq<string>, done: seq<string>, n: nat)
    requires ids != [] && HoldsReach(g, seen, [ids[0]], done) && 0 < |w| == |at|
    ensures Plunge(g, ids[1..], w, at, done, n) <==> Plunge(g, ids, w, at[0 := at[0] + 1], seen, n)
  {
    hide HoldsReach, NewAt, Descent;
    var to := at[0 := at[0] + 1];
    DescentShift(g, ids, w, at);
    if |w| == n && Descent(g, ids, w, to) {
      forall i | 0 <= i < n - 1 ensures NewAt(g, ids[1..], w, at, done, i) <==> NewAt(g, ids, w, to, seen, i) {
        NewAmongRest(g, ids, w, at, seen, done, i);
      }
    }
  }

  /** A plunge from a list starts at its first member, or from the rest with the first member's reach seen. */
  lemma PlungeFromList(g: Graph, ids: seq<string>, seen: seq<string>, done: seq<string>, n: nat)
    requires ids != [] && HoldsReach(g, seen, [ids[0]], done)
    ensures CanPlunge(g, ids, seen, n) <==> CanPlunge(g, [ids[0]], seen, n) || CanPlunge(g, ids[1..], done, n)
  {
    hide HoldsReach, Plunge;
    if CanPlunge(g, ids, seen, n) {
      var w, at :| Plunge(g, ids, w, at, seen, n);
      PlungeShape(g, ids, w, at, seen, n);
      if at[0] == 0 {
        PlungeFromFirst(g, ids, w, at, seen, n);
      } else {
        var to := at[0 := at[0] - 1];
        assert to[0 := to[0] + 1] == at;
        PlungeShift(g, ids, w, to, seen, done, n);
      }
    }
    if CanPlunge(g, [ids[0]], seen, n) {
      FirstPlungeIsOne(g, ids, seen, n);
    }
    if CanPlunge(g, ids[1..], done, n) {
      var w, at :| Plunge(g, ids[1..], w, at, done, n);
      PlungeShape(g, ids[1..], w, at, done, n);
      PlungeShift(g, ids, w, at, seen, done, n);
    }
  }

  lemma PlungeShape(g: Graph, ids: seq<string>, w: seq<string>, at: seq<nat>, seen: seq<string>, n: nat)
    requires Plunge(g, ids, w, at, seen, n)
    ensures |w| == |at| == n > 0 && (|ids| == 1 ==> at[0] == 0 && w[0] == ids[0]) && (ids == [] ==> false)
  {
    FirstSiblings(g, ids, w);
    assert InPlace(g, ids, w, at, 0);
    hide Siblings, NewAt;
  }

  /** Below a step the descent goes on among its dependencies. */
  lemma SiblingsBelow(g: Graph, id: string, w: seq<string>, j: nat)
    requires id in g
    ensures Siblings(g, [id], [id] + w, j + 1) == Siblings(g, g[id], w, j)
  {
  }

  lemma SamePlaceBelow(g: Graph, id: string, w: seq<string>, at: seq<nat>, j: nat)
    requires id in g && j < |w| == |at|
    ensures InPlace(g, g[id], w, at, j) <==> InPlace(g, [id], [id] + w, [0] + at, j + 1)
    ensures forall t :: Unreached(g, g[id], w, at, j, t) <==> Unreached(g, [id], [id] + w, [0] + at, j + 1, t)
  {
    SiblingsBelow(g, id, w, j);
    hide Siblings, AnyReaches;
  }

  lemma TopPlace(g: Graph, id: string, w: seq<string>, at: seq<nat>, t: string)
    requires 0 < |w| == |at| && w[0] == id && at[0] == 0
    ensures InPlace(g, [id], w, at, 0) && Unreached(g, [id], w, at, 0, t)
  {
    FirstSiblings(g, [id], w);
    hide Siblings;
  }

  lemma DescentBelow(g: Graph, id: string, w: seq<string>, at: seq<nat>)
    requires id in g && 0 < |w| == |at|
    ensures Descent(g, g[id], w, at) <==> Descent(g, [id], [id] + w, [0] + at)
  {
    var v, to := [id] + w, [0] + at;
    hide InPlace;
    TopPlace(g, id, v, to, id);
    forall j | 0 <= j < |w| ensures InPlace(g, g[id], w, at, j) <==> InPlace(g, [id], v, to, j + 1) {
      SamePlaceBelow(g, id, w, at, j);
    }
    if Descent(g, g[id], w, at) {
      forall j | 0 <= j < |v| ensures InPlace(g, [id], v, to, j) {
        if j > 0 { assert InPlace(g, g[id], w, at, j - 1); }
      }
    }
  }

  lemma NewBelow(g: Graph, id: string, w: seq<string>, at: seq<nat>, seen: seq<string>, i: nat)
    requires id in g && i < |w| == |at| && Descent(g, g[id], w, at) && Descent(g, [id], [id] + w, [0] + at)
    ensures NewAt(g, g[id], w, at, seen, i) <==> NewAt(g, [id], [id] + w, [0] + at, seen, i + 1)
  {
    var v, to := [id] + w, [0] + at;
    hide InPlace, Unreached, Descent;
    TopPlace(g, id, v, to, w[i]);
    forall j | 0 <= j < |w| ensures Unreached(g, g[id], w, at, j, w[i]) <==> Unreached(g, [id], v, to, j + 1, w[i]) {
      SamePlaceBelow(g, id, w, at, j);
    }
    if NewAt(g, g[id], w, at, seen, i) {
      forall j | 0 <= j <= i + 1 ensures Unreached(g, [id], v, to, j, w[i]) {
        if j > 0 { assert Unreached(g, g[id], w, at, j - 1, w[i]); }
      }
    }
  }

  lemma NewOnTop(g: Graph, id: string, w: seq<string>, at: seq<nat>, seen: seq<string>)
    requires Descent(g, [id], w, at) && w[0] == id && at[0] == 0
    ensures NewAt(g, [id], w, at, seen, 0) <==> id !in seen
  {
    hide InPlace, Unreached;
    TopPlace(g, id, w, at, id);
  }

  /** Below one new step, a plunge is one from its dependencies. */
  lemma PlungeBelow(g: Graph, id: string, w: seq<string>, at: seq<nat>, seen: seq<string>, n: nat)
    requires id in g && 0 < n == |w| == |at|
    ensures Plunge(g, [id], [id] + w, [0] + at, seen, n + 1) <==> id !in seen && Plunge(g, g[id], w, at, seen, n)
  {
    var v, to := [id] + w, [0] + at;
    DescentBelow(g, id, w, at);
    hide NewAt, Descent;
    if Descent(g, [id], v, to) {
      NewOnTop(g, id, v, to, seen);
      forall i | 0 <= i < n ensures NewAt(g, g[id], w, at, seen, i) <==> NewAt(g, [id], v, to, seen, i + 1) {
        NewBelow(g, id, w, at, seen, i);
      }
      if id !in seen && Plunge(g, g[id], w, at, seen, n) {
        forall i | 0 <= i < n ensures NewAt(g, [id], v, to, seen, i) {
          if i > 0 { assert NewAt(g, g[id], w, at, seen, i - 1); }
        }
      }
    }
  }

  lemma FirstSiblings(g: Graph, ids: seq<string>, w: seq<string>)
    ensures Siblings(g, ids, w, 0) == ids
  {
  }

  /** A plunge from one step is that step alone, or the step, if new, and a plunge from its dependencies. */
  lemma PlungeFromOne(g: Graph, id: string, seen: seq<string>, n: nat)
    requires id in g && n >= 1
    ensures CanPlunge(g, [id], seen, n) <==> n == 1 || (id !in seen && CanPlunge(g, g[id], seen, n - 1))
  {
    if n == 1 {
      TopPlace(g, id, [id], [0], id);
      assert Plunge(g, [id], [id], [0], seen, 1);
    } else {
      hide Plunge;
      if CanPlunge(g, [id], seen, n) {
        var w, at :| Plunge(g, [id], w, at, seen, n);
        PlungeShape(g, [id], w, at, seen, n);
        assert w == [id] + w[1..] && at == [0] + at[1..];
        PlungeBelow(g, id, w[1..], at[1..], seen, n - 1);
      }
      if id !in seen && CanPlunge(g, g[id], seen, n - 1) {
        var w, at :| Plunge(g, g[id], w, at, seen, n - 1);
        PlungeShape(g, g[id], w, at, seen, n - 1);
        PlungeBelow(g, id, w, at, seen, n - 1);
      }
    }
  }

  lemma {:induction false} VisitTooDeep(g: Graph, max: nat, id: string, depth: nat, path: seq<string>, ordered: seq<string>)
    requires Acyclic(g) && id in g && Placed(g, max, [id], depth, path, ordered)
    ensures Visit(g, max, id, depth, path, ordered) == Failure(TooDeep) <==> CanPlunge(g, [id], ordered, max + 2 - depth)
    decreases max + 1 - depth, 0
  {
    hide CanPlunge, Sorted, Walk;
    PlungeFromOne(g, id, ordered, max + 2 - depth);
    if depth <= max {
      assert id in [id] && Leads(g, path, id);
      if id in path { BackEdgeIsCycle(g, path, id); }
      if id !in ordered {
        LeadsOn(g, path, id);
        hide Cycle;
        VisitAllTooDeep(g, max, g[id], depth + 1, path + [id], ordered);
      }
    }
  }

  lemma {:induction false} VisitAllTooDeep(g: Graph, max: nat, ids: seq<string>, depth: nat, path: seq<string>, ordered: seq<string>)
    requires Acyclic(g) && Placed(g, max, ids, depth, path, ordered)
    ensures VisitAll(g, max, ids, depth, path, ordered) == Failure(TooDeep) <==> CanPlunge(g, ids, ordered, max + 2 - depth)
    decreases max + 1 - depth, |ids| + 1
  {
    if ids == [] {
      NoPlungeFromNothing(g, ordered, max + 2 - depth);
    } else {
      PlacedFirst(g, max, ids, depth, path, ordered);
      var r := Visit(g, max, ids[0], depth, path, ordered);
      NeverCircular(g, max, ids[0], depth, path, ordered);
      hide CanPlunge, Placed, Acyclic, HoldsReach;
      VisitTooDeep(g, max, ids[0], depth, path, ordered);
      if r.Success? {
        PlacedRest(g, max, ids, depth, path, ordered, r.value);
        VisitHoldsReach(g, max, ids[0], depth, path, ordered);
        PlungeFromList(g, ids, ordered, r.value, max + 2 - depth);
        VisitAllTooDeep(g, max, ids[1..], depth, path, r.value);
      } else {
        FirstPlungeIsOne(g, ids, ordered, max + 2 - depth);
      }
    }
  }

  lemma PlacedFirst(g: Graph, max: nat, ids: seq<string>, depth: nat, path: seq<string>, ordered: seq<string>)
    requires ids != [] && Placed(g, max, ids, depth, path, ordered)
    ensures ids[0] in g && Placed(g, max, [ids[0]], depth, path, ordered)
  {
    hide Sorted, Leads;
    assert ids[0] in ids;
  }

  lemma NeverCircular(g: Graph, max: nat, id: string, depth: nat, path: seq<string>, ordered: seq<string>)
    requires Acyclic(g) && id in g && Placed(g, max, [id], depth, path, ordered)
    ensures Visit(g, max, id, depth, path, ordered).Success? || Visit(g, max, id, depth, path, ordered) == Failure(TooDeep)
  {
    assert id in [id];
    VisitSound(g, max, id, depth, path, ordered);
    hide Visit, Sorted, Leads, Walk, Cycle;
  }

  lemma PlacedRest(g: Graph, max: nat, ids: seq<string>, depth: nat, path: seq<string>, ordered: seq<string>, done: seq<string>)
    requires ids != [] && Placed(g, max, ids, depth, path, ordered) && ids[0] in g
    requires Visit(g, max, ids[0], depth, path, ordered) == Success(done)
    ensures Placed(g, max, ids[1..], depth, path, done)
  {
    assert ids[0] in ids;
    VisitSound(g, max, ids[0], depth, path, ordered);
    hide Visit, Sorted, Leads;
  }

  lemma FirstPlungeIsOne(g: Graph, ids: seq<string>, seen: seq<string>, n: nat)
    requires ids != [] && CanPlunge(g, [ids[0]], seen, n)
    ensures CanPlunge(g, ids, seen, n)
  {
    hide Plunge;
    var w, at :| Plunge(g, [ids[0]], w, at, seen, n);
    PlungeShape(g, [ids[0]], w, at, seen, n);
    PlungeFromFirst(g, ids, w, at, seen, n);
  }

  lemma NoPlungeFromNothing(g: Graph, seen: seq<string>, n: nat)
    ensures !CanPlunge(g, [], seen, n)
  {
    hide Plunge;
    if CanPlunge(g, [], seen, n) {
      var w, at :| Plunge(g, [], w, at, seen, n);
      PlungeShape(g, [], w, at, seen, n);
    }
  }

  /**
    `validate_plan` exactly: a plan is accepted if and only if it is well formed, has no cycle,
    and its listing has no descent of max_depth + 1 steps in which every step but the last is
    met before anything visited earlier has reached it.
  */
  lemma AcceptedExactly(plan: seq<AgentStep>, maxSteps: nat, maxDepth: nat, known: set<string>)
    ensures Validate(plan, maxSteps, maxDepth, known).Success? <==>
              && WellFormed(plan, maxSteps, known) && Acyclic(GraphOf(plan))
              && !CanPlunge(GraphOf(plan), Ids(plan), [], maxDepth + 1)
  {
    hide CanPlunge, Validate, NoRepeats;
    ValidateMeans(plan, maxSteps, maxDepth, known);
    if WellFormed(plan, maxSteps, known) && Acyclic(GraphOf(plan)) {
      TooDeepExactly(plan, maxSteps, maxDepth, known);
    }
  }

  /** For a well-formed plan without cycles the depth error is raised exactly for such a descent. */
  lemma TooDeepExactly(plan: seq<AgentStep>, maxSteps: nat, maxDepth: nat, known: set<string>)
    requires WellFormed(plan, maxSteps, known) && Acyclic(GraphOf(plan))
    ensures Validate(plan, maxSteps, maxDepth, known) == Failure(TooDeep) <==> CanPlunge(GraphOf(plan), Ids(plan), [], maxDepth + 1)
  {
    NoFault(plan, Ids(plan), known);
    ClosedGraph(plan, known);
    StartsPlaced(GraphOf(plan), maxDepth, Ids(plan));
    hide CanPlunge, Acyclic, Placed, Closed;
    VisitAllTooDeep(GraphOf(plan), maxDepth, Ids(plan), 1, [], []);
  }

  lemma StartsPlaced(g: Graph, max: nat, ids: seq<string>)
    requires Closed(g) && forall d :: d in ids ==> d in g
    ensures Placed(g, max, ids, 1, [], [])
  {
    forall d | d in ids ensures Leads(g, [], d) {
      assert [] + [d] == [d];
    }
  }

  // ---------------------------------------------------------------- the listing order decides

  /** Steps listed after everything they depend on find their dependencies visited, at depth 2. */
  lemma {:induction false} VisitsInOrder(g: Graph, max: nat, ids: seq<string>, n: nat)
    requires Closed(g) && Sorted(g, ids) && max >= 2 && n <= |ids|
    ensures VisitAll(g, max, ids[n..], 1, [], ids[..n]) == Success(ids)
    decreases |ids| - n
  {
    if n < |ids| {
      var id := ids[n];
      assert ids[n..][0] == id && ids[n..][1..] == ids[n + 1..];
      AllVisited(g, max, g[id], [id], ids[..n]);
      assert [] + [id] == [id];
      assert ids[..n] + [id] == ids[..n + 1];
      VisitsInOrder(g, max, ids, n + 1);
    } else {
      assert ids[..n] == ids;
    }
  }

  lemma {:induction false} AllVisited(g: Graph, max: nat, ids: seq<string>, path: seq<string>, ordered: seq<string>)
    requires Closed(g) && (forall d :: d in ids ==> d in g && d in ordered && d !in path) && max >= 2
    ensures VisitAll(g, max, ids, 2, path, ordered) == Success(ordered)
    decreases |ids|
  {
    if ids != [] {
      AllVisited(g, max, ids[1..], path, ordered);
    }
  }

  /** A walk along first dependencies that is met before anything is visited runs into the depth limit. */
  lemma {:induction false} VisitsDeepWalk(g: Graph, max: nat, w: seq<string>, depth: nat, path: seq<string>)
    requires Closed(g) && Walk(g, w) && 1 <= depth <= max + 1 && |w| == max + 2 - depth
    requires NoRepeats(path + w) && |path| == depth - 1
    requires forall i :: 0 <= i < |w| - 1 ==> g[w[i]] != [] && g[w[i]][0] == w[i + 1]
    ensures Visit(g, max, w[0], depth, path, []) == Failure(TooDeep)
    decreases |w|
  {
    if depth <= max {
      assert w[0] !in path by {
        assert (path + w)[depth - 1] == w[0];
        assert forall i :: 0 <= i < |path| ==> (path + w)[i] == path[i];
      }
      var rest := w[1..];
      assert path + [w[0]] + rest == path + w;
      assert forall i :: 0 <= i < |rest| ==> rest[i] == w[i + 1];
      assert w[1] in g[w[0]];
      VisitsDeepWalk(g, max, rest, depth + 1, path + [w[0]]);
    }
  }

  /** A plan that lists every step after its dependencies is accepted as listed, however long its chains are. */
  lemma ListedInOrder(plan: seq<AgentStep>, maxSteps: nat, maxDepth: nat, known: set<string>)
    requires WellFormed(plan, maxSteps, known) && Sorted(GraphOf(plan), Ids(plan)) && maxDepth >= 2
    ensures Validate(plan, maxSteps, maxDepth, known) == Success(Ids(plan))
  {
    hide Sorted;
    var ids := Ids(plan);
    NoFault(plan, ids, known);
    ClosedGraph(plan, known);
    VisitsInOrder(GraphOf(plan), maxDepth, ids, 0);
    assert ids[0..] == ids && ids[..0] == [];
  }

  /** A plan that lists the far end of a long chain of first dependencies first is refused. */
  lemma DeepWalkFirst(plan: seq<AgentStep>, maxSteps: nat, maxDepth: nat, known: set<string>, w: seq<string>)
    requires WellFormed(plan, maxSteps, known) && Walk(GraphOf(plan), w) && NoRepeats(w) && |w| == maxDepth + 1
    requires plan != [] && plan[0].id == w[0]
    requires forall i :: 0 <= i < |w| - 1 ==> GraphOf(plan)[w[i]] != [] && GraphOf(plan)[w[i]][0] == w[i + 1]
    ensures Validate(plan, maxSteps, maxDepth, known) == Failure(TooDeep)
  {
    NoFault(plan, Ids(plan), known);
    ClosedGraph(plan, known);
    assert [] + w == w;
    VisitsDeepWalk(GraphOf(plan), maxDepth, w, 1, []);
    hide Walk, Closed;
  }

  // ---------------------------------------------------------------- plans that are accepted however they are listed

  predicate SameStep(a: AgentStep, b: AgentStep) {
    a.id == b.id && a.agent == b.agent && multiset(a.dependencies) == multiset(b.dependencies)
  }

  predicate HasStep(q: seq<AgentStep>, a: AgentStep) {
    exists j :: 0 <= j < |q| && SameStep(a, q[j])
  }

  /** `q` lists the steps of `p`, and the dependencies of each step, in any order. */
  predicate Relists(p: seq<AgentStep>, q: seq<AgentStep>) {
    |q| == |p| && NoRepeats(Ids(q)) && forall i :: 0 <= i < |p| ==> HasStep(q, p[i])
  }

  lemma SubsetOfSameSize(a: set<string>, b: set<string>)
    requires a <= b && |a| == |b|
    ensures a == b
  {
    assert |b - a| == |b| - |a|;
  }

  lemma RelistedIds(p: seq<AgentStep>, q: seq<AgentStep>)
    requires NoRepeats(Ids(p)) && Relists(p, q)
    ensures forall x :: x in Ids(p) <==> x in Ids(q)
  {
    var a, b := set x | x in Ids(p), set x | x in Ids(q);
    Distinct(Ids(p));
    Distinct(Ids(q));
    forall x | x in Ids(p) ensures x in Ids(q) {
      var i :| 0 <= i < |p| && Ids(p)[i] == x;
      var j :| 0 <= j < |q| && SameStep(p[i], q[j]);
      assert Ids(q)[j] == x;
    }
    SubsetOfSameSize(a, b);
    assert forall x :: x in Ids(q) ==> x in b;
    assert forall x :: x in a ==> x in Ids(p);
  }

  /** Every step of the relisted plan has its counterpart. */
  lemma Counterpart(p: seq<AgentStep>, q: seq<AgentStep>, j: nat) returns (i: nat)
    requires NoRepeats(Ids(p)) && Relists(p, q) && j < |q|
    ensures i < |p| && SameStep(p[i], q[j])
  {
    RelistedIds(p, q);
    assert Ids(q)[j] in Ids(q);
    i :| 0 <= i < |p| && Ids(p)[i] == Ids(q)[j];
    assert HasStep(q, p[i]);
    var k :| 0 <= k < |q| && SameStep(p[i], q[k]);
    assert Ids(q)[k] == Ids(q)[j];
  }

  ghost predicate SameGraph(g: Graph, h: Graph) {
    (forall s :: s in g <==> s in h) && forall s, d :: s in g && s in h ==> (d in g[s] <==> d in h[s])
  }

  lemma SameMembers(a: seq<string>, b: seq<string>)
    requires multiset(a) == multiset(b)
    ensures forall d :: d in a <==> d in b
  {
    assert forall d :: d in a <==> d in multiset(a);
    assert forall d :: d in b <==> d in multiset(b);
  }

  lemma RelistedGraph(p: seq<AgentStep>, q: seq<AgentStep>)
    requires NoRepeats(Ids(p)) && Relists(p, q)
    ensures SameGraph(GraphOf(p), GraphOf(q))
  {
    hide NoRepeats, GraphOf;
    RelistedIds(p, q);
    GraphOfPlan(p);
    GraphOfPlan(q) by { hide Relists; assert NoRepeats(Ids(q)); }
    forall s, d | s in GraphOf(p) && s in GraphOf(q) ensures d in GraphOf(p)[s] <==> d in GraphOf(q)[s] {
      var j :| 0 <= j < |q| && Ids(q)[j] == s;
      var i := Counterpart(p, q, j);
      assert p[i].id == s && q[j].id == s;
      SameMembers(p[i].dependencies, q[j].dependencies);
    }
  }

  lemma RelistedWellFormed(p: seq<AgentStep>, q: seq<AgentStep>, maxSteps: nat, known: set<string>)
    requires WellFormed(p, maxSteps, known) && Relists(p, q)
    ensures WellFormed(q, maxSteps, known)
  {
    RelistedIds(p, q);
    hide NoRepeats;
    forall j | 0 <= j < |q| ensures q[j].agent in known && forall d :: d in q[j].dependencies ==> d in Ids(q) {
      var i := Counterpart(p, q, j);
      SameMembers(p[i].dependencies, q[j].dependencies);
    }
  }

  lemma SameWalks(g: Graph, h: Graph, w: seq<string>)
    requires SameGraph(g, h)
    ensures Walk(g, w) <==> Walk(h, w)
    ensures Cycle(g, w) <==> Cycle(h, w)
  {
  }

  /** A walk without cycles never meets a step twice. */
  lemma WalkHasNoRepeats(g: Graph, w: seq<string>)
    requires Acyclic(g) && Walk(g, w)
    ensures NoRepeats(w)
  {
    forall i, j | 0 <= i < j < |w| ensures w[i] != w[j] {
      var v := w[i..j + 1];
      assert forall k :: 0 <= k < |v| ==> v[k] == w[i + k];
      assert !Cycle(g, v);
    }
  }

  // Turning a plan so that a given walk is met first.

  function Drop(ids: seq<string>, x: string): seq<string> {
    if ids == [] then [] else if ids[0] == x then ids[1..] else [ids[0]] + Drop(ids[1..], x)
  }

  lemma {:induction false} DropKeepsRest(ids: seq<string>, x: string)
    requires x in ids
    ensures multiset([x] + Drop(ids, x)) == multiset(ids)
  {
    assert ids == [ids[0]] + ids[1..];
    if ids[0] != x {
      DropKeepsRest(ids[1..], x);
    }
  }

  ghost predicate Follows(w: seq<string>, s: string, d: string) {
    exists i :: 0 <= i < |w| - 1 && w[i] == s && w[i + 1] == d
  }

  /** The step with its dependency on the walk put first. */
  ghost function Turned(step: AgentStep, w: seq<string>): AgentStep {
    if exists d :: d in step.dependencies && Follows(w, step.id, d) then
      var d :| d in step.dependencies && Follows(w, step.id, d);
      step.(dependencies := [d] + Drop(step.dependencies, d))
    else step
  }

  lemma TurnedIsSame(step: AgentStep, w: seq<string>)
    ensures SameStep(step, Turned(step, w))
  {
    if exists d :: d in step.dependencies && Follows(w, step.id, d) {
      var d :| d in step.dependencies && Follows(w, step.id, d) && Turned(step, w).dependencies == [d] + Drop(step.dependencies, d);
      DropKeepsRest(step.dependencies, d);
    }
  }

  lemma TurnedFirst(step: AgentStep, w: seq<string>, i: nat)
    requires NoRepeats(w) && i < |w| - 1 && w[i] == step.id && w[i + 1] in step.dependencies
    ensures Turned(step, w).dependencies != [] && Turned(step, w).dependencies[0] == w[i + 1]
  {
    assert Follows(w, step.id, w[i + 1]);
    forall d | Follows(w, step.id, d) ensures d == w[i + 1] {
      var k :| 0 <= k < |w| - 1 && w[k] == step.id && w[k + 1] == d;
      assert k == i;
    }
  }

  /** The plan with every step turned, and step `k` listed first. */
  ghost function TurnedPlan(plan: seq<AgentStep>, w: seq<string>, k: nat): seq<AgentStep>
    requires k < |plan|
  {
    seq(|plan|, i requires 0 <= i < |plan| => Turned(plan[if i == 0 then k else if i == k then 0 else i], w))
  }

  lemma TurnedPlanRelists(plan: seq<AgentStep>, w: seq<string>, k: nat)
    requires k < |plan| && NoRepeats(Ids(plan))
    ensures Relists(plan, TurnedPlan(plan, w, k))
  {
    hide Turned, SameStep;
    var q := TurnedPlan(plan, w, k);
    forall i | 0 <= i < |plan| ensures HasStep(q, plan[i]) {
      TurnedIsSame(plan[i], w);
      assert q[if i == 0 then k else if i == k then 0 else i] == Turned(plan[i], w);
    }
    forall i | 0 <= i < |plan| ensures Ids(q)[i] == Ids(plan)[if i == 0 then k else if i == k then 0 else i] {
      TurnedKeepsId(plan[if i == 0 then k else if i == k then 0 else i], w);
    }
  }

  lemma TurnedKeepsId(step: AgentStep, w: seq<string>)
    ensures Turned(step, w).id == step.id
  {
  }

  /** Turned, the plan leads with the walk along first dependencies. */
  lemma TurnedLeads(plan: seq<AgentStep>, w: seq<string>, k: nat, i: nat)
    requires k < |plan| && NoRepeats(Ids(plan)) && Walk(GraphOf(plan), w) && NoRepeats(w) && i < |w| - 1
    ensures var h := GraphOf(TurnedPlan(plan, w, k)); w[i] in h && h[w[i]] != [] && h[w[i]][0] == w[i + 1]
  {
    var q := TurnedPlan(plan, w, k);
    assert w[i] in GraphOf(plan) && w[i + 1] in GraphOf(plan)[w[i]];
    TurnedPlanRelists(plan, w, k);
    GraphOfPlan(plan);
    GraphOfPlan(q);
    hide GraphOf, NoRepeats, Relists, Turned, Walk;
    var x :| 0 <= x < |plan| && Ids(plan)[x] == w[i];
    TurnedFirst(plan[x], w, i);
    TurnedKeepsId(plan[x], w);
    assert q[if x == 0 then k else if x == k then 0 else x] == Turned(plan[x], w);
  }

  /** A walk of more than max_depth steps has the plan refused in some listing. */
  lemma SomeListingTooDeep(plan: seq<AgentStep>, maxSteps: nat, maxDepth: nat, known: set<string>, w: seq<string>) returns (q: seq<AgentStep>)
    requires WellFormed(plan, maxSteps, known) && Acyclic(GraphOf(plan)) && Walk(GraphOf(plan), w) && |w| > maxDepth
    ensures Relists(plan, q) && Validate(q, maxSteps, maxDepth, known) == Failure(TooDeep)
  {
    var v := w[..maxDepth + 1];
    assert Walk(GraphOf(plan), v);
    WalkHasNoRepeats(GraphOf(plan), v);
    GraphOfPlan(plan);
    assert v[0] in GraphOf(plan);
    var k :| 0 <= k < |plan| && Ids(plan)[k] == v[0];
    q := TurnedPlan(plan, v, k);
    TurnedPlanRelists(plan, v, k);
    TurnedKeepsId(plan[k], v);
    RelistedGraph(plan, q);
    RelistedWellFormed(plan, q, maxSteps, known);
    SameWalks(GraphOf(plan), GraphOf(q), v);
    assert q[0].id == v[0];
    forall i | 0 <= i < |v| - 1 ensures GraphOf(q)[v[i]] != [] && GraphOf(q)[v[i]][0] == v[i + 1] {
      TurnedLeads(plan, v, k, i);
    }
    hide GraphOf, WellFormed, Relists, NoRepeats, Walk, Validate, TurnedPlan, SameGraph;
    DeepWalkFirst(q, maxSteps, maxDepth, known, v);
  }

  /**
    A well-formed plan is accepted under every order of its steps and of their dependencies
    exactly when it has no cycle and no dependency walk of more than max_depth steps.
  */
  lemma AcceptedHoweverListed(plan: seq<AgentStep>, maxSteps: nat, maxDepth: nat, known: set<string>)
    requires WellFormed(plan, maxSteps, known)
    ensures (forall q :: Relists(plan, q) ==> Validate(q, maxSteps, maxDepth, known).Success?) <==>
              Acyclic(GraphOf(plan)) && forall w :: Walk(GraphOf(plan), w) ==> |w| <= maxDepth
  {
    hide Validate, GraphOf, Walk;
    if Acyclic(GraphOf(plan)) && forall w :: Walk(GraphOf(plan), w) ==> |w| <= maxDepth {
      forall q | Relists(plan, q) ensures Validate(q, maxSteps, maxDepth, known).Success? {
        RelistedPasses(plan, q, maxSteps, maxDepth, known);
      }
    } else if Acyclic(GraphOf(plan)) {
      var w :| Walk(GraphOf(plan), w) && |w| > maxDepth;
      var q := SomeListingTooDeep(plan, maxSteps, maxDepth, known, w);
    } else {
      RelistsItself(plan);
      ValidateMeans(plan, maxSteps, maxDepth, known);
    }
  }

  lemma RelistsItself(plan: seq<AgentStep>)
    requires NoRepeats(Ids(plan))
    ensures Relists(plan, plan)
  {
    forall i | 0 <= i < |plan| ensures HasStep(plan, plan[i]) {
      assert SameStep(plan[i], plan[i]);
    }
  }

  lemma RelistedPasses(plan: seq<AgentStep>, q: seq<AgentStep>, maxSteps: nat, maxDepth: nat, known: set<string>)
    requires WellFormed(plan, maxSteps, known) && Relists(plan, q)
    requires Acyclic(GraphOf(plan)) && forall w :: Walk(GraphOf(plan), w) ==> |w| <= maxDepth
    ensures Validate(q, maxSteps, maxDepth, known).Success?
  {
    hide Validate, GraphOf;
    RelistedGraph(plan, q);
    RelistedWellFormed(plan, q, maxSteps, known);
    forall w ensures Walk(GraphOf(plan), w) <==> Walk(GraphOf(q), w) ensures !Cycle(GraphOf(q), w) {
      SameWalks(GraphOf(plan), GraphOf(q), w);
      assert !Cycle(GraphOf(plan), w);
    }
    hide Walk, Cycle, SameGraph;
    AcyclicShallowPlansPass(q, maxSteps, maxDepth, known);
  }

  // ---------------------------------------------------------------- validate_plan as the closure it is

  class PlanVisitor {
    const g: Graph
    const max: nat
    var ordered: seq<string>
    var visiting: set<string>
    var visited: set<string>

    constructor (g: Graph, max: nat)
      ensures this.g == g && this.max == max && ordered == [] && visiting == {} && visited == {}
    {
      this.g, this.max := g, max;
      ordered, visiting, visited := [], {}, {};
    }

    ghost predicate Tracks(path: seq<string>, done: seq<string>)
      reads this
    {
      && ordered == done
      && (forall x :: x in visiting <==> x in path)
      && (forall x :: x in visited <==> x in done)
    }

    method Descend(id: string, depth: nat, ghost path: seq<string>) returns (error: Option<PlanError>)
      requires Closed(g) && id in g && 1 <= depth <= max + 1 && Tracks(path, ordered)
      modifies this
      ensures error == (match Visit(g, max, id, depth, path, old(ordered)) case Failure(e) => Some(e) case Success(_) => None)
      ensures error.None? ==> Tracks(path, Visit(g, max, id, depth, path, old(ordered)).value)
      decreases max + 1 - depth
    {
      if depth > max { return Some(TooDeep); }
      if id in visiting { return Some(Circular); }
      if id in visited { return None; }
      visiting := visiting + {id};
      ghost var was := ordered;
      ghost var result := VisitAll(g, max, g[id], depth + 1, path + [id], was);
      var i := 0;
      while i < |g[id]|
        invariant 0 <= i <= |g[id]|
        invariant Tracks(path + [id], ordered)
        invariant VisitAll(g, max, g[id][i..], depth + 1, path + [id], ordered) == result
      {
        assert g[id][i..][1..] == g[id][i + 1..];
        error := Descend(g[id][i], depth + 1, path + [id]);
        if error.Some? { return; }
        i := i + 1;
      }
      visiting, visited, ordered := visiting - {id}, visited + {id}, ordered + [id];
      return None;
    }
  }

  method ValidatePlan(plan: seq<AgentStep>, maxSteps: nat, maxDepth: nat, known: set<string>) returns (result: Result<seq<string>, PlanError>)
    ensures result == Validate(plan, maxSteps, maxDepth, known)
    ensures FaultsNamed(plan, maxSteps, known, result)
    ensures WellFormed(plan, maxSteps, known) ==> SortMeans(plan, maxDepth, result)
  {
    ValidateMeans(plan, maxSteps, maxDepth, known);
    hide FaultsNamed, WellFormed, SortMeans;
    if |plan| > maxSteps { return Failure(TooManySteps); }
    var ids := Ids(plan);
    if !NoRepeats(ids) { return Failure(DuplicateId); }
    var i := 0;
    while i < |plan|
      invariant 0 <= i <= |plan|
      invariant PlanFault(plan, ids, known) == PlanFault(plan[i..], ids, known)
    {
      assert plan[i..][1..] == plan[i + 1..];
      if StepFault(plan[i], ids, known).Some? { return Failure(StepFault(plan[i], ids, known).value); }
      i := i + 1;
    }
    ClosedGraph(plan, known);
    var visitor := new PlanVisitor(GraphOf(plan), maxDepth);
    i := 0;
    while i < |ids|
      invariant 0 <= i <= |ids|
      invariant visitor.g == GraphOf(plan) && visitor.max == maxDepth && visitor.Tracks([], visitor.ordered)
      invariant VisitAll(GraphOf(plan), maxDepth, ids[i..], 1, [], visitor.ordered) == Validate(plan, maxSteps, maxDepth, known)
    {
      assert ids[i..][1..] == ids[i + 1..];
      var error := visitor.Descend(ids[i], 1, []);
      if error.Some? { return Failure(error.value); }
      i := i + 1;
    }
    return Success(visitor.ordered);
  }
}
