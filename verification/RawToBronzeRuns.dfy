/**
  Raw-to-Bronze publication over whole runs, and `execute_model` as one call.
*/
module RawToBronzeRuns {
  import opened RawToBronze

  ghost predicate Run(w: World, steps: seq<Step>, v: World)
    decreases |steps|
  {
    if steps == [] then v == w
    else Enabled(w, steps[0]) && Run(Apply(w, steps[0]), steps[1..], v)
  }

  lemma StepKeeps(w: World, step: Step)
    requires Inv(w) && Enabled(w, step)
    ensures Inv(Apply(w, step))
  {
    hide Inv, Apply;
    match step {
      case Join(id, x) => JoinKeeps(w, id, x);
      case Move(id, action) => MoveKeeps(w, id, action);
    }
  }

  lemma {:induction false} RunKeeps(w: World, steps: seq<Step>, v: World)
    requires Inv(w) && Run(w, steps, v)
    ensures Inv(v)
    decreases |steps|
  {
    hide Inv, Apply, Enabled;
    if steps != [] {
      StepKeeps(w, steps[0]);
      RunKeeps(Apply(w, steps[0]), steps[1..], v);
    }
  }

  /** Any number of executors, any interleaving, failures anywhere: nothing is written or registered twice. */
  lemma WrittenAndRegisteredOnce(steps: seq<Step>, v: World)
    requires Run(Empty, steps, v)
    ensures OncePerModel(v.store.writes) && OncePerModel(v.store.registrations)
    ensures forall model :: model in v.store.tables ==> |v.store.tables[model].files| <= 1
  {
    RunKeeps(Empty, steps, v);
    forall model | model in v.store.tables ensures |v.store.tables[model].files| <= 1 {
      assert TableInv(v, model);
    }
  }

  /** The creator of the table is past registering, or dead. */
  predicate Settled(w: World, model: string) {
    && model in w.store.tables && w.store.tables[model].maker in w.executors
    && Progress(w.executors[w.store.tables[model].maker].pc) == 2
  }

  predicate SameModel(w: World, v: World, model: string) {
    && model in w.store.tables && model in v.store.tables && v.store.tables[model] == w.store.tables[model]
    && (forall p :: p in w.store.parquet && p.model == model ==> p in v.store.parquet && v.store.parquet[p] == w.store.parquet[p])
    && (forall p :: p in v.store.parquet && p.model == model ==> p in w.store.parquet)
  }

  lemma MoverIsMaker(w: World, id: nat)
    requires AllExecutors(w) && id in w.executors && Creating(w.executors[id].pc)
    ensures w.executors[id].model in w.store.tables && w.store.tables[w.executors[id].model].maker == id
  {
    assert ExecutorInv(w, id);
  }

  lemma SettledMove(w: World, id: nat, action: Action, model: string)
    requires Enabled(w, Move(id, action)) && Settled(w, model)
    requires var x := w.executors[id]; Creating(x.pc) ==> x.model in w.store.tables && w.store.tables[x.model].maker == id
    ensures SameModel(w, Apply(w, Move(id, action)), model)
  {
    hide Verified;
  }

  lemma SettledStep(w: World, step: Step, model: string)
    requires Inv(w) && Enabled(w, step) && Settled(w, model)
    ensures Settled(Apply(w, step), model) && SameModel(w, Apply(w, step), model)
  {
    if step.Move? {
      ActMoves(w, step.id, step.action);
      if Creating(w.executors[step.id].pc) { MoverIsMaker(w, step.id); }
      SettledMove(w, step.id, step.action, model);
      hide Inv, Apply, Act;
    }
  }

  /** Once settled, a model's table and files never change again, whoever runs. */
  lemma {:induction false} SettledForEver(w: World, steps: seq<Step>, v: World, model: string)
    requires Inv(w) && Settled(w, model) && Run(w, steps, v)
    ensures Settled(v, model) && SameModel(w, v, model)
    decreases |steps|
  {
    hide Inv, Apply, Enabled;
    if steps != [] {
      StepKeeps(w, steps[0]);
      SettledStep(w, steps[0], model);
      SettledForEver(Apply(w, steps[0]), steps[1..], v, model);
    }
  }

  predicate Returned(pc: Pc) {
    pc.Published? || pc.AlreadyPublished?
  }

  /** The table holds exactly this executor's file, with its columns and its row count. */
  predicate Holds(w: World, x: Executor) {
    && HasLoc(x.pc) && x.model in w.store.tables
    && var t := w.store.tables[x.model];
    && t.location == x.pc.loc && t.columns == x.columns
    && t.files == [File(OwnPath(x, x.pc.loc), x.rows)]
    && OwnPath(x, x.pc.loc) in w.store.parquet && w.store.parquet[OwnPath(x, x.pc.loc)] == x.rows
  }

  lemma ReturnedHolds(w: World, id: nat)
    requires Inv(w) && id in w.executors && Returned(w.executors[id].pc)
    ensures Holds(w, w.executors[id]) && Settled(w, w.executors[id].model)
  {
    assert ExecutorInv(w, id);
    assert TableInv(w, w.executors[id].model);
    hide Inv;
  }

  /** A normal return means the caller's own file is the one registered file, then and for ever. */
  lemma ReturnMeansPublished(steps: seq<Step>, v: World, id: nat, more: seq<Step>, u: World)
    requires Run(Empty, steps, v) && id in v.executors && Returned(v.executors[id].pc)
    requires Run(v, more, u)
    ensures Holds(v, v.executors[id]) && Holds(u, v.executors[id])
  {
    RunKeeps(Empty, steps, v);
    ReturnedHolds(v, id);
    SettledForEver(v, more, u, v.executors[id].model);
  }

  predicate MadeNothing(w: World, id: nat) {
    && (forall model :: model in w.store.tables ==> w.store.tables[model].maker != id)
    && (forall k :: 0 <= k < |w.store.writes| ==> w.store.writes[k].0 != id)
    && (forall k :: 0 <= k < |w.store.registrations| ==> w.store.registrations[k].0 != id)
  }

  /** Only the creator of a table is recorded as its writer and registrar. */
  lemma OnlyMakersAct(w: World, id: nat, log: seq<(nat, Path)>, least: nat)
    requires LogInv(w, log, least) && forall model :: model in w.store.tables ==> w.store.tables[model].maker != id
    ensures forall k :: 0 <= k < |log| ==> log[k].0 != id
  {
    forall k | 0 <= k < |log| ensures log[k].0 != id {
      assert MadeBy(w, log[k].1.model, log[k].0, least);
    }
  }

  /** "published" is returned by the executor that made, wrote and registered; "already_published" by one that did none of it. */
  lemma WhoPublished(steps: seq<Step>, v: World, id: nat)
    requires Run(Empty, steps, v) && id in v.executors
    ensures var x := v.executors[id];
      x.pc.Published? ==>
        && x.model in v.store.tables && v.store.tables[x.model].maker == id
        && (id, OwnPath(x, x.pc.loc)) in v.store.writes && (id, OwnPath(x, x.pc.loc)) in v.store.registrations
    ensures v.executors[id].pc.AlreadyPublished? ==> MadeNothing(v, id)
  {
    RunKeeps(Empty, steps, v);
    assert ExecutorInv(v, id);
    if v.executors[id].pc.AlreadyPublished? {
      forall model | model in v.store.tables ensures v.store.tables[model].maker != id { assert TableInv(v, model); }
      OnlyMakersAct(v, id, v.store.writes, 1);
      OnlyMakersAct(v, id, v.store.registrations, 2);
    }
  }

  /** All executors that return for a model are retries of one execution, and only one of them published. */
  lemma ReturnsAgree(steps: seq<Step>, v: World, id: nat, other: nat)
    requires Run(Empty, steps, v) && id in v.executors && other in v.executors
    requires Returned(v.executors[id].pc) && Returned(v.executors[other].pc)
    requires v.executors[id].model == v.executors[other].model
    ensures var x, y := v.executors[id], v.executors[other];
      && x.execution == y.execution && x.rows == y.rows && x.columns == y.columns
      && (x.pc.Published? && y.pc.Published? ==> id == other)
  {
    RunKeeps(Empty, steps, v);
    ReturnedHolds(v, id);
    ReturnedHolds(v, other);
    assert ExecutorInv(v, id) && ExecutorInv(v, other);
    hide Inv;
  }

  /** A creator that dies before registering leaves the model unpublishable: nothing changes, nobody returns. */
  lemma PartialForEver(steps: seq<Step>, v: World, model: string, more: seq<Step>, u: World, id: nat)
    requires Run(Empty, steps, v) && Run(v, more, u)
    requires model in v.store.tables && v.store.tables[model].files == []
    requires v.store.tables[model].maker in v.executors && v.executors[v.store.tables[model].maker].pc == Raised
    requires id in u.executors && u.executors[id].model == model
    ensures SameModel(v, u, model) && !Returned(u.executors[id].pc)
  {
    RunKeeps(Empty, steps, v);
    RunKeeps(v, more, u);
    SettledForEver(v, more, u, model);
    assert ExecutorInv(u, id);
  }

  /** One registered file: its rows are the table's. */
  lemma VerifiedMeans(st: Store, x: Executor)
    requires x.model in st.tables && |st.tables[x.model].files| == 1
    ensures Verified(st, x) <==> st.tables[x.model].columns == x.columns && st.tables[x.model].files[0].rows == x.rows
  {
    var files := st.tables[x.model].files;
    assert files == [files[0]] && files[..0] == [];
    assert Count([]) == 0;
  }

  predicate Recognized(st: Store, x: Executor) {
    && x.model in st.tables
    && st.tables[x.model].files == [File(Path(st.tables[x.model].location, x.execution, x.model), x.rows)]
    && st.tables[x.model].columns == x.columns
  }

  // ---------------------------------------------------------------- which models can still be published

  ghost predicate ReturnsFor(w: World, model: string) {
    exists id :: id in w.executors && w.executors[id].model == model && Returned(w.executors[id].pc)
  }

  /** In some continuation an executor of the model has returned. */
  ghost predicate CanReturn(w: World, model: string) {
    exists steps, v :: Run(w, steps, v) && ReturnsFor(v, model)
  }

  /** The creator of the table is dead and has registered nothing. */
  predicate Abandoned(w: World, model: string) {
    && model in w.store.tables && w.store.tables[model].files == []
    && w.store.tables[model].maker in w.executors && w.executors[w.store.tables[model].maker].pc == Raised
  }

  /** One step more at the front. */
  lemma CanReturnBefore(w: World, step: Step, model: string)
    requires Enabled(w, step) && CanReturn(Apply(w, step), model)
    ensures CanReturn(w, model)
  {
    hide Enabled, Apply, ReturnsFor;
    var steps, v :| Run(Apply(w, step), steps, v) && ReturnsFor(v, model);
    var all := [step] + steps;
    assert all[0] == step && all[1..] == steps;
    assert Run(w, all, v);
  }

  lemma CanReturnNow(w: World, model: string)
    requires ReturnsFor(w, model)
    ensures CanReturn(w, model)
  {
    hide ReturnsFor;
    assert Run(w, [], w);
  }

  /** There is always another executor number. */
  lemma {:induction false} NewId(ids: set<nat>) returns (id: nat)
    ensures forall x :: x in ids ==> x < id
    decreases |ids|
  {
    if ids == {} {
      id := 0;
    } else {
      var x :| x in ids;
      var y := NewId(ids - {x});
      id := if x < y then y else x + 1;
      forall z | z in ids ensures z < id {
        if z != x { assert z in ids - {x}; }
      }
    }
  }

  /** The place in an executor's own order of operations that leads to a return, highest first. */
  function ToGo(pc: Pc): nat {
    match pc
    case Begin => 8
    case Absent => 7
    case Present => 7
    case Made => 6
    case MadeAt(_) => 5
    case PresentAt(_) => 5
    case NoFiles(_) => 4
    case Clear(_) => 3
    case Wrote(_) => 2
    case Registered(_) => 1
    case Matched(_) => 1
    case _ => 0
  }

  /** An executor whose retry is recognized: it found the table, which holds its own file, rows and columns. */
  predicate Retrying(w: World, id: nat, model: string) {
    && id in w.executors && w.executors[id].model == model && Recognized(w.store, w.executors[id])
    && var pc := w.executors[id].pc;
    && (pc.Begin? || pc.Present? || pc.PresentAt? || pc.Matched?)
    && (HasLoc(pc) ==> pc.loc == w.store.tables[model].location)
  }

  function RetryAction(pc: Pc): Action
    requires pc.Begin? || pc.Present? || pc.PresentAt? || pc.Matched?
  {
    match pc
    case Begin => Look
    case Present => Locate
    case PresentAt(_) => ReadFiles
    case Matched(_) => Verify
  }

  lemma RetryStep(w: World, id: nat, model: string)
    requires Retrying(w, id, model)
    ensures Enabled(w, Move(id, RetryAction(w.executors[id].pc)))
    ensures var v := Apply(w, Move(id, RetryAction(w.executors[id].pc)));
      ReturnsFor(v, model) || (Retrying(v, id, model) && ToGo(v.executors[id].pc) < ToGo(w.executors[id].pc))
  {
    var x := w.executors[id];
    var step := Move(id, RetryAction(x.pc));
    VerifiedMeans(w.store, x);
    hide Verified;
    if x.pc.Matched? {
      assert Apply(w, step).executors[id].pc.AlreadyPublished?;
    }
  }

  lemma {:induction false} RetryReturns(w: World, id: nat, model: string)
    requires Retrying(w, id, model)
    ensures CanReturn(w, model)
    decreases ToGo(w.executors[id].pc)
  {
    RetryStep(w, id, model);
    var step := Move(id, RetryAction(w.executors[id].pc));
    hide Enabled, Apply, ReturnsFor, CanReturn, RetryAction;
    if ReturnsFor(Apply(w, step), model) {
      CanReturnNow(Apply(w, step), model);
    } else {
      RetryReturns(Apply(w, step), id, model);
    }
    CanReturnBefore(w, step, model);
  }

  /** A registered file can be recognized by a retry of the execution that registered it. */
  lemma RegisteredCanReturn(w: World, model: string)
    requires Inv(w) && model in w.store.tables && w.store.tables[model].files != []
    ensures CanReturn(w, model)
  {
    assert TableInv(w, model);
    var t := w.store.tables[model];
    var x := Executor(model, w.executors[t.maker].execution, t.files[0].rows, t.columns, Begin);
    var id := NewId(w.executors.Keys);
    assert id !in w.executors;
    assert t.files == [t.files[0]];
    assert Recognized(w.store, x);
    hide Inv, TableInv, CanReturn;
    var v := Apply(w, Join(id, x));
    assert v.executors[id] == x && v.store == w.store;
    assert Retrying(v, id, model);
    RetryReturns(v, id, model);
    CanReturnBefore(w, Join(id, x), model);
  }

  /** The creator is still on its way to registering. */
  predicate Creator(w: World, model: string) {
    && model in w.store.tables && w.store.tables[model].files == []
    && w.store.tables[model].maker in w.executors
    && var x := w.executors[w.store.tables[model].maker];
    && x.model == model && (x.pc.Made? || x.pc.MadeAt? || x.pc.NoFiles? || x.pc.Clear? || x.pc.Wrote?)
  }

  function CreatorAction(pc: Pc, rows: nat): Action
    requires pc.Made? || pc.MadeAt? || pc.NoFiles? || pc.Clear? || pc.Wrote?
  {
    match pc
    case Made => Locate
    case MadeAt(_) => ReadFiles
    case NoFiles(_) => CheckFile
    case Clear(_) => Write(rows, Works)
    case Wrote(_) => Register(Works)
  }

  function MakerToGo(w: World, model: string): nat
    requires Creator(w, model)
  {
    ToGo(w.executors[w.store.tables[model].maker].pc)
  }

  function CreatorMove(w: World, model: string): Step
    requires Creator(w, model)
  {
    var id := w.store.tables[model].maker;
    Move(id, CreatorAction(w.executors[id].pc, w.executors[id].rows))
  }

  /** Where the creator stands, the location it knows is the table's, and its file exists exactly if it has written. */
  predicate OnTrack(w: World, model: string)
    requires Creator(w, model)
  {
    var x := w.executors[w.store.tables[model].maker];
    HasLoc(x.pc) ==> (OwnPath(x, x.pc.loc) in w.store.parquet <==> x.pc.Wrote?)
  }

  lemma CreatorOnTrack(w: World, model: string)
    requires Inv(w) && Creator(w, model)
    ensures OnTrack(w, model)
  {
    var id := w.store.tables[model].maker;
    var x := w.executors[id];
    assert ExecutorInv(w, id);
    if HasLoc(x.pc) && Progress(x.pc) == 0 {
      NothingWritten(w, id, OwnPath(x, x.pc.loc));
    }
    hide Inv;
  }

  lemma CreatorStep(w: World, model: string)
    requires Creator(w, model) && OnTrack(w, model)
    ensures Enabled(w, CreatorMove(w, model))
    ensures var v := Apply(w, CreatorMove(w, model));
      && model in v.store.tables && v.store.tables[model].maker == w.store.tables[model].maker
      && (v.store.tables[model].files != [] || (Creator(v, model) && MakerToGo(v, model) < MakerToGo(w, model)))
  {
    hide Verified;
  }

  lemma {:induction false} CreatorCanReturn(w: World, model: string)
    requires Inv(w) && Creator(w, model)
    ensures CanReturn(w, model)
    decreases MakerToGo(w, model)
  {
    CreatorOnTrack(w, model);
    CreatorStep(w, model);
    var step := CreatorMove(w, model);
    hide Enabled, Apply, CanReturn, CreatorMove, MakerToGo, Inv;
    StepKeeps(w, step);
    var v := Apply(w, step);
    if v.store.tables[model].files != [] {
      RegisteredCanReturn(v, model);
    } else {
      CreatorCanReturn(v, model);
    }
    CanReturnBefore(w, step, model);
  }

  /** Where there is no table, a new executor can make it. */
  lemma NewModelCanReturn(w: World, model: string)
    requires Inv(w) && model !in w.store.tables
    ensures CanReturn(w, model)
  {
    var x := Executor(model, "", 0, [], Begin);
    var id := NewId(w.executors.Keys);
    assert id !in w.executors;
    var join, look, create := Join(id, x), Move(id, Look), Move(id, Create("", Works));
    var w1 := Apply(w, join);
    assert w1.store == w.store && w1.executors[id] == x;
    assert Enabled(w1, look);
    var w2 := Apply(w1, look);
    assert w2.store == w.store && w2.executors[id] == x.(pc := Absent);
    assert Enabled(w2, create);
    var w3 := Apply(w2, create);
    assert Creator(w3, model);
    hide Inv, CanReturn, Apply, Enabled, Creator;
    StepKeeps(w, join);
    StepKeeps(w1, look);
    StepKeeps(w2, create);
    CreatorCanReturn(w3, model);
    CanReturnBefore(w2, create, model);
    CanReturnBefore(w1, look, model);
    CanReturnBefore(w, join, model);
  }

  lemma AbandonedOrNot(w: World, model: string)
    requires Inv(w) && !Abandoned(w, model)
    ensures model !in w.store.tables || w.store.tables[model].files != [] || Creator(w, model)
  {
    if model in w.store.tables {
      assert TableInv(w, model);
      assert ExecutorInv(w, w.store.tables[model].maker);
    }
  }

  /**
    From any reachable state a model can still be published, or recognized as published, exactly
    when its table was not abandoned: made by an executor that died before registering a file.
  */
  lemma CanReturnExactly(steps: seq<Step>, w: World, model: string)
    requires Run(Empty, steps, w)
    ensures CanReturn(w, model) <==> !Abandoned(w, model)
  {
    RunKeeps(Empty, steps, w);
    hide Inv, Run;
    if Abandoned(w, model) {
      if CanReturn(w, model) {
        var more, v :| Run(w, more, v) && ReturnsFor(v, model);
        var id :| id in v.executors && v.executors[id].model == model && Returned(v.executors[id].pc);
        PartialForEver(steps, w, model, more, v, id);
      }
    } else {
      AbandonedOrNot(w, model);
      hide CanReturn, Abandoned;
      if model !in w.store.tables {
        NewModelCanReturn(w, model);
      } else if w.store.tables[model].files != [] {
        RegisteredCanReturn(w, model);
      } else {
        CreatorCanReturn(w, model);
      }
    }
  }

  // ---------------------------------------------------------------- one call

  /** How Trino, the object store and the process behave during one call. */
  datatype Outcomes = Outcomes(lives: nat, location: string, create: How, found: nat, write: How, register: How)

  /** The call's operations, one after another, on the warehouse. */
  ghost predicate Follows(start: Store, id: nat, x: Executor, done: seq<Action>, end: Store, pc: Pc)
    decreases |done|
  {
    if done == [] then end == start && pc == x.pc
    else Next(x.pc, done[0]) && var r := Act(start, id, x, done[0]); Follows(r.0, id, x.(pc := r.1), done[1..], end, pc)
  }

  lemma {:induction false} FollowsOn(start: Store, id: nat, x: Executor, done: seq<Action>, mid: Store, pc: Pc, a: Action)
    requires Follows(start, id, x, done, mid, pc) && Next(pc, a)
    ensures var r := Act(mid, id, x.(pc := pc), a); Follows(start, id, x, done + [a], r.0, r.1)
    decreases |done|
  {
    hide Act, Next;
    if done == [] {
      assert x.(pc := pc) == x;
      assert [a][1..] == [];
      assert done + [a] == [a];
    } else {
      var r := Act(start, id, x, done[0]);
      FollowsOn(r.0, id, x.(pc := r.1), done[1..], mid, pc, a);
      assert x.(pc := r.1).(pc := pc) == x.(pc := pc);
      assert (done + [a])[1..] == done[1..] + [a];
    }
  }

  predicate Publishable(st: Store, x: Executor, o: Outcomes) {
    && x.model !in st.tables && o.create.Works? && o.write.Works? && o.register.Works?
    && Path(o.location, x.execution, x.model) !in st.parquet && o.found == x.rows
  }

  predicate Lands(how: How) {
    how.Works? || how.landed
  }

  /**
    What a call leaves in the warehouse, however it ends: a table if there was none and the
    creation landed, a file if the table is its own and none lies there, and a registration of it.
  */
  predicate Leaves(was: Store, now: Store, id: nat, x: Executor, o: Outcomes) {
    var own := Path(o.location, x.execution, x.model);
    var made := x.model !in was.tables && o.lives >= 2 && Lands(o.create);
    var wrote := made && o.create.Works? && o.lives >= 6 && own !in was.parquet && Lands(o.write);
    var registered := wrote && o.write.Works? && o.lives >= 7 && Lands(o.register);
    && now.tables == (if !made then was.tables
                      else was.tables[x.model := Table(x.columns, o.location, if registered then [File(own, o.found)] else [], id)])
    && now.parquet == (if wrote then was.parquet[own := o.found] else was.parquet)
    && now.writes == was.writes + (if wrote then [(id, own)] else [])
    && now.registrations == was.registrations + (if registered then [(id, own)] else [])
  }

  /** What the second half of a publication leaves, for a table that is new and empty. */
  predicate Filled(was: Store, now: Store, id: nat, x: Executor, o: Outcomes) {
    var own := OwnPath(x, o.location);
    var wrote := own !in was.parquet && o.lives >= 6 && Lands(o.write);
    var registered := wrote && o.write.Works? && o.lives >= 7 && Lands(o.register);
    && x.model in was.tables
    && now.tables == (if registered then was.tables[x.model := Table(x.columns, o.location, [File(own, o.found)], id)] else was.tables)
    && now.parquet == (if wrote then was.parquet[own := o.found] else was.parquet)
    && now.writes == was.writes + (if wrote then [(id, own)] else [])
    && now.registrations == was.registrations + (if registered then [(id, own)] else [])
  }

  lemma JustWritten(was: Store, now: Store, id: nat, x: Executor, o: Outcomes)
    requires x.model in was.tables
    requires !(OwnPath(x, o.location) !in was.parquet && o.write.Works? && o.lives >= 6)
    requires now == if OwnPath(x, o.location) !in was.parquet && o.lives >= 6 && Lands(o.write)
                    then WriteFile(was, id, OwnPath(x, o.location), o.found) else was
    ensures Filled(was, now, id, x, o)
  {
  }

  lemma AlsoRegistered(was: Store, mid: Store, now: Store, id: nat, x: Executor, o: Outcomes)
    requires x.model in was.tables && was.tables[x.model] == Table(x.columns, o.location, [], id)
    requires OwnPath(x, o.location) !in was.parquet && o.write.Works? && o.lives >= 6
    requires mid == WriteFile(was, id, OwnPath(x, o.location), o.found)
    requires now == if o.lives >= 7 && Lands(o.register) then AddFile(mid, id, x.model, OwnPath(x, o.location)) else mid
    ensures Filled(was, now, id, x, o)
  {
    assert [] + [File(OwnPath(x, o.location), o.found)] == [File(OwnPath(x, o.location), o.found)];
  }

  lemma FilledLeaves(was: Store, made: Store, now: Store, id: nat, x: Executor, y: Executor, o: Outcomes)
    requires y == x.(pc := y.pc) && x.model !in was.tables && o.lives >= 2 && o.create.Works? && made == MakeTable(was, id, x, o.location)
    requires Filled(made, now, id, y, o)
    ensures Leaves(was, now, id, x, o)
  {
  }

  lemma NothingLeft(was: Store, now: Store, id: nat, x: Executor, o: Outcomes)
    requires now == if x.model !in was.tables && o.lives >= 2 && Lands(o.create) then MakeTable(was, id, x, o.location) else was
    requires !(x.model !in was.tables && o.lives >= 6 && o.create.Works?)
    ensures Leaves(was, now, id, x, o)
  {
  }

  class Warehouse {
    var store: Store

    constructor (initial: Store)
      ensures store == initial
    {
      store := initial;
    }

    /** One external operation, or the death of the process in its place. */
    method Do(id: nat, x: Executor, a: Action, dies: bool, ghost start: Store, ghost y: Executor, ghost done: seq<Action>)
      returns (z: Executor, ghost more: seq<Action>)
      requires Next(x.pc, a) && y.(pc := x.pc) == x && Follows(start, id, y, done, store, x.pc)
      modifies this
      ensures var r := Act(old(store), id, x, if dies then Die else a); store == r.0 && z == x.(pc := r.1)
      ensures more == done + [if dies then Die else a] && Follows(start, id, y, more, store, z.pc)
    {
      var b := if dies then Die else a;
      FollowsOn(start, id, y, done, store, x.pc, b);
      var r := Act(store, id, x, b);
      store := r.0;
      z := x.(pc := r.1);
      more := done + [b];
    }

    /** Check that the parquet file does not exist, then write it. */
    method WriteNew(id: nat, x: Executor, o: Outcomes, ghost start: Store, ghost y: Executor, ghost done: seq<Action>)
      returns (z: Executor, ghost more: seq<Action>)
      requires x.pc == NoFiles(o.location) && y.(pc := x.pc) == x && Follows(start, id, y, done, store, x.pc)
      modifies this
      ensures z == x.(pc := z.pc) && Follows(start, id, y, more, store, z.pc)
      ensures z.pc == if OwnPath(x, o.location) !in old(store).parquet && o.write.Works? && o.lives >= 6 then Wrote(o.location) else Raised
      ensures store == if OwnPath(x, o.location) !in old(store).parquet && o.lives >= 6 && Lands(o.write)
                       then WriteFile(old(store), id, OwnPath(x, o.location), o.found) else old(store)
    {
      hide Follows, WriteFile;
      z, more := Do(id, x, CheckFile, o.lives < 5, start, y, done);
      if z.pc.Clear? {
        z, more := Do(id, z, Write(o.found, o.write), o.lives < 6, start, y, more);
      }
    }

    /** Register the written file in the empty table, then verify the table. */
    method RegisterAndVerify(id: nat, x: Executor, o: Outcomes, ghost start: Store, ghost y: Executor, ghost done: seq<Action>)
      returns (pc: Pc, ghost more: seq<Action>)
      requires x.pc == Wrote(o.location) && y.(pc := x.pc) == x && Follows(start, id, y, done, store, x.pc)
      requires x.model in store.tables && store.tables[x.model] == Table(x.columns, o.location, [], id)
      requires OwnPath(x, o.location) in store.parquet
      modifies this
      ensures (pc.Published? || pc.Raised?) && Follows(start, id, y, more, store, pc)
      ensures pc.Published? <==> o.register.Works? && old(store).parquet[OwnPath(x, o.location)] == x.rows && o.lives >= 8
      ensures store == if o.lives >= 7 && Lands(o.register) then AddFile(old(store), id, x.model, OwnPath(x, o.location)) else old(store)
    {
      hide Follows, Verified;
      var z: Executor;
      z, more := Do(id, x, Register(o.register), o.lives < 7, start, y, done);
      if z.pc.Raised? { return z.pc, more; }
      VerifiedMeans(store, z);
      z, more := Do(id, z, Verify, o.lives < 8, start, y, more);
      pc := z.pc;
    }

    /** The second half of a publication: the table is new and empty. */
    method WriteAndRegister(id: nat, x: Executor, o: Outcomes, ghost start: Store, ghost y: Executor, ghost done: seq<Action>)
      returns (pc: Pc, ghost more: seq<Action>)
      requires x.pc == NoFiles(o.location) && y.(pc := x.pc) == x && Follows(start, id, y, done, store, x.pc)
      requires x.model in store.tables && store.tables[x.model] == Table(x.columns, o.location, [], id)
      modifies this
      ensures (pc.Published? || pc.Raised?) && Follows(start, id, y, more, store, pc)
      ensures pc.Published? <==>
                && OwnPath(x, o.location) !in old(store).parquet && o.write.Works? && o.register.Works?
                && o.found == x.rows && o.lives >= 8
      ensures Filled(old(store), store, id, x, o)
    {
      hide Follows, Filled;
      var z: Executor;
      z, more := WriteNew(id, x, o, start, y, done);
      if z.pc.Raised? {
        JustWritten(old(store), store, id, x, o);
        return z.pc, more;
      }
      ghost var mid := store;
      pc, more := RegisterAndVerify(id, z, o, start, y, more);
      AlsoRegistered(old(store), mid, store, id, x, o);
    }

    /** The first half: look for the table, and create it if there is none. */
    method FindOrCreate(id: nat, x: Executor, o: Outcomes) returns (y: Executor, ghost done: seq<Action>)
      requires x.pc == Begin
      modifies this
      ensures y == x.(pc := y.pc) && Follows(old(store), id, x, done, store, y.pc)
      ensures y.pc == (if x.model in old(store).tables then (if o.lives < 1 then Raised else Present)
                       else if o.lives >= 2 && o.create.Works? then Made else Raised)
      ensures store == if x.model !in old(store).tables && o.lives >= 2 && Lands(o.create) then MakeTable(old(store), id, x, o.location) else old(store)
    {
      ghost var start := store;
      assert x.(pc := x.pc) == x;
      assert Follows(start, id, x, [], start, Begin);
      hide Follows, MakeTable;
      y, done := Do(id, x, Look, o.lives < 1, start, x, []);
      if y.pc.Absent? {
        y, done := Do(id, y, Create(o.location, o.create), o.lives < 2, start, x, done);
      }
    }

    /**
      `execute_model`. What it does is a sequence of the operations above; an existing table is
      recognized or rejected without being touched, and a new one is published exactly when every
      operation lands, the target file does not exist yet and the file has the announced row count.
    */
    method ExecuteModel(id: nat, x: Executor, o: Outcomes) returns (pc: Pc, ghost done: seq<Action>)
      requires x.pc == Begin
      modifies this
      ensures !Running(pc) && Follows(old(store), id, x, done, store, pc)
      ensures Leaves(old(store), store, id, x, o)
      ensures pc.AlreadyPublished? <==> Recognized(old(store), x) && o.lives >= 4
      ensures pc.Published? <==> Publishable(old(store), x, o) && o.lives >= 8
    {
      ghost var start := store;
      hide Follows, Verified, Leaves, Filled;
      var y: Executor;
      y, done := FindOrCreate(id, x, o);
      if y.pc.Raised? {
        NothingLeft(start, store, id, x, o);
        return y.pc, done;
      }
      ghost var found := store;
      if !y.pc.Made? { NothingLeft(start, found, id, x, o); }
      var ops := if y.pc.Made? then 2 else 1;
      y, done := Do(id, y, Locate, o.lives < ops + 1, start, x, done);
      if y.pc.Raised? {
        NothingLeft(start, found, id, x, o);
        return y.pc, done;
      }
      y, done := Do(id, y, ReadFiles, o.lives < ops + 2, start, x, done);
      if y.pc.Raised? {
        NothingLeft(start, found, id, x, o);
        return y.pc, done;
      }
      if y.pc.Matched? {
        VerifiedMeans(store, y);
        y, done := Do(id, y, Verify, o.lives < 4, start, x, done);
        return y.pc, done;
      }
      pc, done := WriteAndRegister(id, y, o, start, x, done);
      FilledLeaves(start, found, store, id, x, y, o);
    }
  }
}
