/**
  Raw-to-Bronze publication: `execute_model` by any number of executors, interleaved one
  external operation at a time, failing and crashing anywhere.

  Creating the table with a plain CREATE TABLE is the lock: it fails when the table exists.
*/
module RawToBronze {

  /** `permanent_parquet_path`: location, execution identity and model determine the path. */
  datatype Path = Path(location: string, execution: string, model: string)

  datatype File = File(path: Path, rows: nat)

  /** `maker` remembers who created the table. */
  datatype Table = Table(columns: seq<string>, location: string, files: seq<File>, maker: nat)

  /** The warehouse, with a record of who wrote and who registered which file. */
  datatype Store = Store(tables: map<string, Table>, parquet: map<Path, nat>, writes: seq<(nat, Path)>, registrations: seq<(nat, Path)>)

  datatype Pc =
    | Begin                    // transformed row count and columns are known
    | Absent | Present         // answer of _table_exists
    | Made                     // the table was created by this executor
    | MadeAt(loc: string) | PresentAt(loc: string)
    | NoFiles(loc: string)     // the new table has no registered files
    | Clear(loc: string)       // and its parquet file does not exist
    | Wrote(loc: string)
    | Registered(loc: string)
    | Matched(loc: string)     // the existing table has exactly the expected file
    | Published(loc: string) | AlreadyPublished(loc: string)
    | Raised                   // an error left execute_model, or the executor died

  /** An executor on one model: `rows` and `columns` are what the transformation yields. */
  datatype Executor = Executor(model: string, execution: string, rows: nat, columns: seq<string>, pc: Pc)

  datatype How = Works | Breaks(landed: bool)

  datatype Action =
    | Look | Create(location: string, how: How) | Locate | ReadFiles | CheckFile
    | Write(found: nat, how: How) | Register(how: How) | Verify | Die

  predicate Running(pc: Pc) {
    !pc.Published? && !pc.AlreadyPublished? && !pc.Raised?
  }

  predicate Next(pc: Pc, a: Action) {
    match pc
    case Begin => a.Look? || a.Die?
    case Absent => a.Create? || a.Die?
    case Present => a.Locate? || a.Die?
    case Made => a.Locate? || a.Die?
    case MadeAt(_) => a.ReadFiles? || a.Die?
    case PresentAt(_) => a.ReadFiles? || a.Die?
    case NoFiles(_) => a.CheckFile? || a.Die?
    case Clear(_) => a.Write? || a.Die?
    case Wrote(_) => a.Register? || a.Die?
    case Registered(_) => a.Verify? || a.Die?
    case Matched(_) => a.Verify? || a.Die?
    case _ => false
  }

  function OwnPath(x: Executor, loc: string): Path {
    Path(loc, x.execution, x.model)
  }

  function Count(files: seq<File>): nat {
    if files == [] then 0 else Count(files[..|files| - 1]) + files[|files| - 1].rows
  }

  /** `_verify_table` */
  predicate Verified(st: Store, x: Executor) {
    x.model in st.tables && st.tables[x.model].columns == x.columns && Count(st.tables[x.model].files) == x.rows
  }

  function MakeTable(st: Store, id: nat, x: Executor, location: string): Store {
    st.(tables := st.tables[x.model := Table(x.columns, location, [], id)])
  }

  function WriteFile(st: Store, id: nat, path: Path, found: nat): Store {
    st.(parquet := st.parquet[path := found], writes := st.writes + [(id, path)])
  }

  function AddFile(st: Store, id: nat, model: string, path: Path): Store
    requires model in st.tables && path in st.parquet
  {
    var t := st.tables[model];
    st.(tables := st.tables[model := t.(files := t.files + [File(path, st.parquet[path])])],
        registrations := st.registrations + [(id, path)])
  }

  /** One external operation of executor `id`; SHOW, DESCRIBE and SELECT on a missing table raise. */
  function Act(st: Store, id: nat, x: Executor, a: Action): (Store, Pc)
    requires Next(x.pc, a)
  {
    match a
    case Die => (st, Raised)
    case Look => (st, if x.model in st.tables then Present else Absent)
    case Create(location, how) =>
      if x.model in st.tables then (st, Raised)
      else if how.Works? then (MakeTable(st, id, x, location), Made)
      else (if how.landed then MakeTable(st, id, x, location) else st, Raised)
    case Locate =>
      if x.model !in st.tables then (st, Raised)
      else (st, if x.pc.Made? then MadeAt(st.tables[x.model].location) else PresentAt(st.tables[x.model].location))
    case ReadFiles =>
      if x.model !in st.tables then (st, Raised)
      else if x.pc.PresentAt? then
        (st, if st.tables[x.model].files == [File(OwnPath(x, x.pc.loc), x.rows)] then Matched(x.pc.loc) else Raised)
      else
        (st, if st.tables[x.model].files != [] then Raised else NoFiles(x.pc.loc))
    case CheckFile => (st, if OwnPath(x, x.pc.loc) in st.parquet then Raised else Clear(x.pc.loc))
    case Write(found, how) =>
      if how.Works? then (WriteFile(st, id, OwnPath(x, x.pc.loc), found), Wrote(x.pc.loc))
      else (if how.landed then WriteFile(st, id, OwnPath(x, x.pc.loc), found) else st, Raised)
    case Register(how) =>
      if x.model !in st.tables || OwnPath(x, x.pc.loc) !in st.parquet then (st, Raised)
      else if how.Works? then (AddFile(st, id, x.model, OwnPath(x, x.pc.loc)), Registered(x.pc.loc))
      else (if how.landed then AddFile(st, id, x.model, OwnPath(x, x.pc.loc)) else st, Raised)
    case Verify =>
      (st, if !Verified(st, x) then Raised else if x.pc.Registered? then Published(x.pc.loc) else AlreadyPublished(x.pc.loc))
  }

  // ---------------------------------------------------------------- many executors

  datatype World = World(store: Store, executors: map<nat, Executor>)

  datatype Step = Join(id: nat, x: Executor) | Move(id: nat, action: Action)

  const Empty: World := World(Store(map[], map[], [], []), map[])

  predicate Enabled(w: World, step: Step) {
    match step
    case Join(id, x) => id !in w.executors && x.pc == Begin
    case Move(id, action) => id in w.executors && Next(w.executors[id].pc, action)
  }

  function Apply(w: World, step: Step): World
    requires Enabled(w, step)
  {
    match step
    case Join(id, x) => w.(executors := w.executors[id := x])
    case Move(id, action) =>
      var r := Act(w.store, id, w.executors[id], action);
      World(r.0, w.executors[id := w.executors[id].(pc := r.1)])
  }

  /** How far the creator of a table has come: 0 made, 1 may have written, 2 may have registered, 3 over. */
  function Progress(pc: Pc): nat {
    match pc
    case Begin => 0
    case Absent => 0
    case Made => 0
    case MadeAt(_) => 0
    case NoFiles(_) => 0
    case Clear(_) => 0
    case Wrote(_) => 1
    case _ => 2
  }

  predicate Creating(pc: Pc) {
    pc.Made? || pc.MadeAt? || pc.NoFiles? || pc.Clear? || pc.Wrote? || pc.Registered? || pc.Published?
  }

  predicate HasLoc(pc: Pc) {
    pc.MadeAt? || pc.PresentAt? || pc.NoFiles? || pc.Clear? || pc.Wrote? || pc.Registered? || pc.Matched? || pc.Published? || pc.AlreadyPublished?
  }

  /** The table of a model and the executor that made it agree. */
  ghost predicate TableInv(w: World, model: string)
    requires model in w.store.tables
  {
    var t := w.store.tables[model];
    && t.maker in w.executors && w.executors[t.maker].model == model && t.columns == w.executors[t.maker].columns
    && (Creating(w.executors[t.maker].pc) || w.executors[t.maker].pc == Raised)
    && |t.files| <= 1
    && (t.files != [] ==> Progress(w.executors[t.maker].pc) == 2 && t.files[0].path == OwnPath(w.executors[t.maker], t.location)
                          && t.files[0].path in w.store.parquet && w.store.parquet[t.files[0].path] == t.files[0].rows)
  }

  ghost predicate ExecutorInv(w: World, id: nat)
    requires id in w.executors
  {
    var x := w.executors[id];
    && (Creating(x.pc) ==> x.model in w.store.tables && w.store.tables[x.model].maker == id)
    && (HasLoc(x.pc) ==> x.model in w.store.tables && w.store.tables[x.model].location == x.pc.loc)
    && (x.pc.Wrote? ==> OwnPath(x, x.pc.loc) in w.store.parquet)
    && (x.pc.Registered? ==> |w.store.tables[x.model].files| == 1)
    && (x.pc.Matched? || x.pc.Published? || x.pc.AlreadyPublished? ==> w.store.tables[x.model].files == [File(OwnPath(x, x.pc.loc), x.rows)])
    && (x.pc.Published? || x.pc.AlreadyPublished? ==> w.store.tables[x.model].columns == x.columns)
    && (x.pc.Wrote? || x.pc.Registered? || x.pc.Published? ==> (id, OwnPath(x, x.pc.loc)) in w.store.writes)
    && (x.pc.Registered? || x.pc.Published? ==> (id, OwnPath(x, x.pc.loc)) in w.store.registrations)
  }

  ghost predicate AllTables(w: World) {
    forall model :: model in w.store.tables ==> TableInv(w, model)
  }

  ghost predicate AllExecutors(w: World) {
    forall id :: id in w.executors ==> ExecutorInv(w, id)
  }

  /** A model's table was made by executor `id`, which has come at least so far. */
  predicate MadeBy(w: World, model: string, id: nat, least: nat) {
    && model in w.store.tables && w.store.tables[model].maker == id
    && id in w.executors && Progress(w.executors[id].pc) >= least
  }

  /** A written file lies in its model's table, whose creator has come to writing. */
  predicate FileInv(w: World, p: Path)
    requires p in w.store.parquet
  {
    && p.model in w.store.tables && p.location == w.store.tables[p.model].location
    && MadeBy(w, p.model, w.store.tables[p.model].maker, 1)
  }

  ghost predicate AllFiles(w: World) {
    forall p :: p in w.store.parquet ==> FileInv(w, p)
  }

  /** Every entry is by the creator of the table, which has come at least so far; no model twice. */
  ghost predicate LogInv(w: World, log: seq<(nat, Path)>, least: nat) {
    && (forall i :: 0 <= i < |log| ==> MadeBy(w, log[i].1.model, log[i].0, least))
    && OncePerModel(log)
  }

  ghost predicate OncePerModel(log: seq<(nat, Path)>) {
    forall i, j :: 0 <= i < j < |log| ==> log[i].1.model != log[j].1.model
  }

  ghost predicate Inv(w: World) {
    && AllTables(w)
    && AllExecutors(w)
    && AllFiles(w)
    && LogInv(w, w.store.writes, 1)
    && LogInv(w, w.store.registrations, 2)
  }

  // ---------------------------------------------------------------- one step keeps the invariant

  predicate Forward(from: Pc, to: Pc) {
    Running(from) && Progress(from) <= Progress(to) && (Creating(from) ==> Creating(to) || to == Raised)
  }

  /** Executor `id` moved on; other executors and their control points are as they were. */
  predicate Moved(w: World, v: World, id: nat) {
    && id in w.executors && id in v.executors && v.executors == w.executors[id := v.executors[id]]
    && v.executors[id] == w.executors[id].(pc := v.executors[id].pc)
    && Forward(w.executors[id].pc, v.executors[id].pc)
  }

  predicate SameTable(w: World, v: World, model: string) {
    model in w.store.tables ==> model in v.store.tables && v.store.tables[model] == w.store.tables[model]
  }

  /** Files stay as written, and the records of who wrote and registered only grow. */
  predicate FilesGrow(w: World, v: World) {
    && (forall p :: p in w.store.parquet ==> p in v.store.parquet && v.store.parquet[p] == w.store.parquet[p])
    && w.store.writes <= v.store.writes && w.store.registrations <= v.store.registrations
  }

  /** Tables keep their creator, columns and place. */
  predicate SamePlace(w: World, v: World) {
    forall model :: model in w.store.tables ==>
      && model in v.store.tables
      && v.store.tables[model].maker == w.store.tables[model].maker
      && v.store.tables[model].location == w.store.tables[model].location
  }

  lemma TableStays(w: World, v: World, id: nat, model: string)
    requires Moved(w, v, id) && model in w.store.tables && SameTable(w, v, model) && FilesGrow(w, v)
    requires TableInv(w, model)
    ensures TableInv(v, model)
  {
    assert v.executors[id].model == w.executors[id].model;
    var t := w.store.tables[model];
    if t.files != [] {
      assert t.files[0].path in v.store.parquet;
    }
  }

  lemma ExecutorStays(w: World, v: World, id: nat, other: nat)
    requires Moved(w, v, id) && other in w.executors && other != id
    requires SameTable(w, v, w.executors[other].model) && FilesGrow(w, v)
    requires ExecutorInv(w, other)
    ensures ExecutorInv(v, other)
  {
    assert v.executors[other] == w.executors[other];
  }

  lemma MakerStays(w: World, v: World, id: nat, model: string, maker: nat, least: nat)
    requires Moved(w, v, id) && SamePlace(w, v) && MadeBy(w, model, maker, least)
    ensures MadeBy(v, model, maker, least)
  {
  }

  lemma LogStays(w: World, v: World, id: nat, log: seq<(nat, Path)>, least: nat)
    requires Moved(w, v, id) && SamePlace(w, v) && LogInv(w, log, least)
    ensures LogInv(v, log, least)
  {
    hide Moved, SamePlace, MadeBy, OncePerModel;
    forall i | 0 <= i < |log| ensures MadeBy(v, log[i].1.model, log[i].0, least) {
      MakerStays(w, v, id, log[i].1.model, log[i].0, least);
    }
  }

  /** The creator's next entry is the first of its model. */
  lemma LogGrows(w: World, v: World, id: nat, log: seq<(nat, Path)>, path: Path, least: nat)
    requires Moved(w, v, id) && SamePlace(w, v) && LogInv(w, log, least)
    requires MadeBy(v, path.model, id, least) && MadeBy(w, path.model, id, 0) && Progress(w.executors[id].pc) < least
    ensures LogInv(v, log + [(id, path)], least)
  {
    LogStays(w, v, id, log, least);
    hide Moved, SamePlace;
    forall i | 0 <= i < |log| ensures log[i].1.model != path.model {
      assert MadeBy(w, log[i].1.model, log[i].0, least);
    }
  }

  lemma FileStays(w: World, v: World, id: nat, p: Path)
    requires Moved(w, v, id) && SamePlace(w, v) && p in w.store.parquet && p in v.store.parquet && FileInv(w, p)
    ensures FileInv(v, p)
  {
    MakerStays(w, v, id, p.model, w.store.tables[p.model].maker, 1);
  }

  /** What an executor other than the mover sees is as it was. */
  lemma OthersStay(w: World, v: World, id: nat)
    requires Moved(w, v, id) && FilesGrow(w, v) && AllExecutors(w) && ExecutorInv(v, id)
    requires forall model :: SameTable(w, v, model)
    ensures AllExecutors(v)
  {
    forall other | other in v.executors ensures ExecutorInv(v, other) {
      if other != id { ExecutorStays(w, v, id, other); }
    }
  }

  /** Operations that leave the warehouse alone. */
  lemma ReadKeeps(w: World, v: World, id: nat)
    requires Inv(w) && Moved(w, v, id) && v.store == w.store && ExecutorInv(v, id)
    ensures Inv(v)
  {
    assert AllTables(v) by {
      hide Moved, TableInv;
      forall model | model in v.store.tables ensures TableInv(v, model) { TableStays(w, v, id, model); }
    }
    assert AllFiles(v) by {
      hide Moved, FileInv;
      forall p | p in v.store.parquet ensures FileInv(v, p) { FileStays(w, v, id, p); }
    }
    OthersStay(w, v, id);
    LogStays(w, v, id, w.store.writes, 1);
    LogStays(w, v, id, w.store.registrations, 2);
    hide AllTables, AllExecutors, AllFiles, LogInv, Moved;
  }

  /** A table comes into being: nothing was known of its model. */
  lemma CreateKeeps(w: World, v: World, id: nat, location: string)
    requires Inv(w) && Moved(w, v, id) && w.executors[id].pc == Absent && w.executors[id].model !in w.store.tables
    requires v.store == MakeTable(w.store, id, w.executors[id], location)
    requires v.executors[id].pc == Made || v.executors[id].pc == Raised
    ensures Inv(v)
  {
    assert AllTables(v) by {
      forall model | model in v.store.tables ensures TableInv(v, model) {
        if model in w.store.tables {
          assert TableInv(w, model);
          TableStays(w, v, id, model);
        }
      }
    }
    assert AllFiles(v) by {
      forall p | p in v.store.parquet ensures FileInv(v, p) {
        assert FileInv(w, p);
        FileStays(w, v, id, p);
      }
    }
    OthersStay(w, v, id);
    LogStays(w, v, id, w.store.writes, 1);
    LogStays(w, v, id, w.store.registrations, 2);
    hide AllTables, AllExecutors, AllFiles, LogInv, Moved;
  }

  lemma NothingWritten(w: World, id: nat, path: Path)
    requires AllFiles(w) && MadeBy(w, path.model, id, 0) && Progress(w.executors[id].pc) == 0
    ensures path !in w.store.parquet
  {
    assert path in w.store.parquet ==> FileInv(w, path);
  }

  /** The creator writes: no file of the model existed, whatever its path. */
  lemma WriteKeeps(w: World, v: World, id: nat, found: nat)
    requires Inv(w) && Moved(w, v, id) && w.executors[id].pc.Clear?
    requires v.store == WriteFile(w.store, id, OwnPath(w.executors[id], w.executors[id].pc.loc), found)
    requires v.executors[id].pc == Wrote(w.executors[id].pc.loc) || v.executors[id].pc == Raised
    ensures Inv(v)
  {
    var path := OwnPath(w.executors[id], w.executors[id].pc.loc);
    assert ExecutorInv(w, id);
    NothingWritten(w, id, path);
    assert FilesGrow(w, v);
    assert AllTables(v) by {
      hide Inv, Moved, TableInv;
      forall model | model in v.store.tables ensures TableInv(v, model) { TableStays(w, v, id, model); }
    }
    assert AllFiles(v) by {
      hide Inv;
      forall p | p in v.store.parquet ensures FileInv(v, p) {
        if p != path { FileStays(w, v, id, p); }
      }
    }
    OthersStay(w, v, id);
    LogGrows(w, v, id, w.store.writes, path, 1);
    LogStays(w, v, id, w.store.registrations, 2);
    hide AllTables, AllExecutors, AllFiles, LogInv, Moved;
  }

  /** The creator registers: until now its table had no file. */
  lemma RegisterKeepsTables(w: World, v: World, id: nat)
    requires AllTables(w) && Moved(w, v, id) && ExecutorInv(w, id) && w.executors[id].pc.Wrote?
    requires v.store == AddFile(w.store, id, w.executors[id].model, OwnPath(w.executors[id], w.executors[id].pc.loc))
    requires v.executors[id].pc == Registered(w.executors[id].pc.loc) || v.executors[id].pc == Raised
    ensures AllTables(v)
  {
    var x := w.executors[id];
    assert TableInv(w, x.model);
    assert w.store.tables[x.model].files == [];
    assert FilesGrow(w, v);
    forall model | model in v.store.tables ensures TableInv(v, model) {
      if model != x.model { TableStays(w, v, id, model); }
    }
  }

  lemma RegisterKeepsExecutors(w: World, v: World, id: nat)
    requires AllTables(w) && AllExecutors(w) && Moved(w, v, id) && w.executors[id].pc.Wrote?
    requires ExecutorInv(w, id)
    requires v.store == AddFile(w.store, id, w.executors[id].model, OwnPath(w.executors[id], w.executors[id].pc.loc))
    requires v.executors[id].pc == Registered(w.executors[id].pc.loc) || v.executors[id].pc == Raised
    ensures AllExecutors(v)
  {
    var x := w.executors[id];
    assert TableInv(w, x.model);
    assert w.store.tables[x.model].files == [];
    forall other | other in v.executors ensures ExecutorInv(v, other) {
      if other != id {
        assert ExecutorInv(w, other);
        if w.executors[other].model != x.model { ExecutorStays(w, v, id, other); }
      }
    }
  }

  lemma RegisterKeeps(w: World, v: World, id: nat)
    requires Inv(w) && Moved(w, v, id) && w.executors[id].pc.Wrote?
    requires ExecutorInv(w, id)
    requires v.store == AddFile(w.store, id, w.executors[id].model, OwnPath(w.executors[id], w.executors[id].pc.loc))
    requires v.executors[id].pc == Registered(w.executors[id].pc.loc) || v.executors[id].pc == Raised
    ensures Inv(v)
  {
    assert AllTables(v) && AllExecutors(v) by {
      hide AllTables, AllExecutors, AllFiles, LogInv, Moved, ExecutorInv;
      RegisterKeepsTables(w, v, id);
      RegisterKeepsExecutors(w, v, id);
    }
    hide AllTables, AllExecutors, OncePerModel;
    assert AllFiles(v) by {
      hide Moved, FileInv, LogInv;
      forall p | p in v.store.parquet ensures FileInv(v, p) { FileStays(w, v, id, p); }
    }
    LogStays(w, v, id, w.store.writes, 1);
    LogGrows(w, v, id, w.store.registrations, OwnPath(w.executors[id], w.executors[id].pc.loc), 2);
    hide AllTables, AllExecutors, AllFiles, LogInv, Moved;
  }

  lemma ActMoves(w: World, id: nat, action: Action)
    requires Enabled(w, Move(id, action))
    ensures Moved(w, Apply(w, Move(id, action)), id)
  {
    hide MakeTable, WriteFile, AddFile, Verified;
  }

  /** The executor's own part after an operation that changes nothing outside. */
  lemma OwnPartAfterRead(w: World, id: nat, action: Action)
    requires Enabled(w, Move(id, action)) && ExecutorInv(w, id)
    requires action.Verify? ==> VerifiedIsOwn(w, id)
    requires Apply(w, Move(id, action)).store == w.store
    requires !action.Create? && !action.Write? && !action.Register?
    ensures ExecutorInv(Apply(w, Move(id, action)), id)
  {
    hide Verified;
  }

  lemma OwnPartAfterWork(w: World, id: nat, action: Action)
    requires Enabled(w, Move(id, action)) && ExecutorInv(w, id)
    requires action.Create? || action.Write?
    ensures ExecutorInv(Apply(w, Move(id, action)), id)
  {
  }

  lemma OwnPartKeeps(w: World, id: nat, action: Action)
    requires Inv(w) && Enabled(w, Move(id, action)) && !action.Register?
    ensures ExecutorInv(Apply(w, Move(id, action)), id)
  {
    assert ExecutorInv(w, id);
    if action.Verify? { VerifiedHasFile(w, id); }
    hide Inv, ExecutorInv, VerifiedIsOwn;
    if action.Create? || action.Write? {
      OwnPartAfterWork(w, id, action);
    } else {
      OwnPartAfterRead(w, id, action);
    }
  }

  lemma JoinKeeps(w: World, id: nat, x: Executor)
    requires Inv(w) && Enabled(w, Join(id, x))
    ensures Inv(Apply(w, Join(id, x)))
  {
    var v := Apply(w, Join(id, x));
    assert AllTables(v) by {
      forall model | model in v.store.tables ensures TableInv(v, model) { assert TableInv(w, model); }
    }
    assert AllExecutors(v) by {
      forall other | other in v.executors ensures ExecutorInv(v, other) {
        if other != id { assert ExecutorInv(w, other); }
      }
    }
    assert AllFiles(v) by {
      forall p | p in v.store.parquet ensures FileInv(v, p) { assert FileInv(w, p); }
    }
    hide AllTables, AllExecutors, AllFiles;
  }

  /** A verified registration is the executor's own file with its own row count. */
  predicate VerifiedIsOwn(w: World, id: nat)
    requires id in w.executors && HasLoc(w.executors[id].pc)
  {
    var x := w.executors[id];
    Verified(w.store, x) ==>
      w.store.tables[x.model].files == [File(OwnPath(x, x.pc.loc), x.rows)] && w.store.tables[x.model].columns == x.columns
  }

  lemma VerifiedHasFile(w: World, id: nat)
    requires Inv(w) && id in w.executors && (w.executors[id].pc.Registered? || w.executors[id].pc.Matched?)
    ensures VerifiedIsOwn(w, id)
  {
    var x := w.executors[id];
    assert ExecutorInv(w, id);
    assert TableInv(w, x.model);
    hide Inv;
    var files := w.store.tables[x.model].files;
    if Verified(w.store, x) && x.pc.Registered? {
      assert files == [files[0]];
      assert Count([files[0]]) == files[0].rows by { assert [files[0]][..0] == []; }
    }
  }

  lemma RegisterStepKeeps(w: World, id: nat, action: Action)
    requires Inv(w) && Enabled(w, Move(id, action)) && action.Register?
    ensures Inv(Apply(w, Move(id, action)))
  {
    var v := Apply(w, Move(id, action));
    assert ExecutorInv(w, id);
    ActMoves(w, id, action);
    if v.store == w.store {
      assert ExecutorInv(v, id) by { hide Inv, Moved; }
      hide Inv, Moved, ExecutorInv;
      ReadKeeps(w, v, id);
    } else {
      hide Inv, Moved, ExecutorInv;
      RegisterKeeps(w, v, id);
    }
  }

  lemma ActWrites(w: World, id: nat, action: Action)
    requires Enabled(w, Move(id, action)) && Apply(w, Move(id, action)).store != w.store && !action.Register?
    ensures var v := Apply(w, Move(id, action)); var x := w.executors[id];
      || (&& action.Create? && x.pc == Absent && x.model !in w.store.tables
          && v.store == MakeTable(w.store, id, x, action.location) && (v.executors[id].pc == Made || v.executors[id].pc == Raised))
      || (&& action.Write? && x.pc.Clear? && v.store == WriteFile(w.store, id, OwnPath(x, x.pc.loc), action.found)
          && (v.executors[id].pc == Wrote(x.pc.loc) || v.executors[id].pc == Raised))
  {
    hide Verified;
  }

  /** Every operation of every executor, landing or not, keeps the invariant. */
  lemma MoveKeeps(w: World, id: nat, action: Action)
    requires Inv(w) && Enabled(w, Move(id, action))
    ensures Inv(Apply(w, Move(id, action)))
  {
    var v := Apply(w, Move(id, action));
    if action.Register? {
      RegisterStepKeeps(w, id, action);
    } else {
      ActMoves(w, id, action);
      OwnPartKeeps(w, id, action);
      hide Inv, Moved, ExecutorInv;
      if v.store == w.store {
        ReadKeeps(w, v, id);
      } else {
        ActWrites(w, id, action);
        hide Apply;
        if action.Create? {
          CreateKeeps(w, v, id, action.location);
        } else {
          WriteKeeps(w, v, id, action.found);
        }
      }
    }
  }
}
