/** The stateful half of app/db.py: `SQLiteSession`, one lazily opened connection with
    commit-on-exit scoping, and `ConnectionManager`, which keeps at most one session per
    database location. The aiosqlite connection itself is abstract: its state (not yet
    started, open, closed) and a ghost log of what was sent to it. */
module Sessions {
  import opened Outcomes
  import opened Registry
  import opened Statements

  /** `SQLiteDSN`: a file path or the ":memory:" sentinel. */
  datatype Location = Memory | File(path: string)

  /** The aiosqlite connection: created but not yet awaited, open, or closed. */
  datatype ConnState = Pending | Open | Closed

  type Params = seq<(string, Value)>

  /** What reaches the database: the connection being opened, a statement with its
      parameters (if any were passed), a commit, or the connection being closed. */
  datatype Event = Connected(location: Location) | Executed(sql: string, params: Option<Params>) | Committed | Disconnected

  /** `dict(row)` for a row the cursor yields: column name to value. */
  type Row = map<string, Value>

  /** The argument of `add`: one model instance or a list of them. */
  datatype Items = One(item: Instance) | Many(items: seq<Instance>)

  /** `add` wraps a single instance into a one-element list. */
  function ItemsOf(data: Items): (objs: seq<Instance>)
    ensures data.One? ==> objs == [data.item]
    ensures data.Many? ==> objs == data.items
  {
    match data
    case One(x) => [x]
    case Many(xs) => xs
  }

  predicate AllWellFormed(objs: seq<Instance>)
  {
    forall k | 0 <= k < |objs| :: WellFormed(objs[k])
  }

  /** The INSERT statements `add` builds, one per instance in list order up to the first
      instance whose statement cannot be built, and that instance's error, if any. */
  function BuildAll(objs: seq<Instance>, columns: map<Annot, Column>, lib: Lib): (seq<(string, Params)>, Option<DbError>)
    requires AllWellFormed(objs)
  {
    if objs == [] then ([], None)
    else
      var before := BuildAll(objs[..|objs| - 1], columns, lib);
      if before.1.Some? then before
      else match InsertStatement(objs[|objs| - 1], columns, lib)
        case Err(e) => (before.0, Some(e))
        case Ok(s) => (before.0 + [s], None)
  }

  lemma BuildAllAppend(objs: seq<Instance>, obj: Instance, columns: map<Annot, Column>, lib: Lib)
    requires AllWellFormed(objs) && WellFormed(obj)
    ensures AllWellFormed(objs + [obj])
    ensures BuildAll(objs + [obj], columns, lib) ==
      if BuildAll(objs, columns, lib).1.Some? then BuildAll(objs, columns, lib)
      else match InsertStatement(obj, columns, lib)
        case Err(e) => (BuildAll(objs, columns, lib).0, Some(e))
        case Ok(s) => (BuildAll(objs, columns, lib).0 + [s], None)
  {
    assert (objs + [obj])[..|objs|] == objs;
  }

  /** Once an instance fails to build, the instances after it are never looked at. */
  lemma {:induction false} BuildAllErrorPersists(objs: seq<Instance>, k: nat, columns: map<Annot, Column>, lib: Lib)
    requires AllWellFormed(objs) && k <= |objs| && BuildAll(objs[..k], columns, lib).1.Some?
    ensures BuildAll(objs, columns, lib) == BuildAll(objs[..k], columns, lib)
    decreases |objs| - k
  {
    if k < |objs| {
      assert objs[..k + 1] == objs[..k] + [objs[k]];
      BuildAllAppend(objs[..k], objs[k], columns, lib);
      BuildAllErrorPersists(objs, k + 1, columns, lib);
    } else {
      assert objs[..k] == objs;
    }
  }

  /** `add` on a single instance executes exactly that instance's INSERT, once, when it
      builds and the connection is open; otherwise it sends nothing and reports why. */
  lemma AddSingleInstance(obj: Instance, columns: map<Annot, Column>, lib: Lib, open: bool)
    requires WellFormed(obj)
    ensures AllWellFormed(ItemsOf(One(obj)))
    ensures AddRun(ItemsOf(One(obj)), columns, lib, open) ==
      match InsertStatement(obj, columns, lib)
      case Err(e) => ([], Some(e))
      case Ok(s) => if open then ([Executed(s.0, Some(s.1))], None) else ([], Some(ConnectionClosed))
  {
    var objs := ItemsOf(One(obj));
    assert objs[..0] == [];
    assert AddRun(objs[..0], columns, lib, open) == ([], None);
    assert objs[|objs| - 1] == obj;
    match InsertStatement(obj, columns, lib)
    case Err(e) =>
    case Ok(st) =>
      assert [] + [Executed(st.0, Some(st.1))] == [Executed(st.0, Some(st.1))];
  }

  /** The log entries of executing the given statements with their parameters. */
  function Executions(stmts: seq<(string, Params)>): (events: seq<Event>)
    ensures |events| == |stmts|
  {
    seq(|stmts|, k requires 0 <= k < |stmts| => Executed(stmts[k].0, Some(stmts[k].1)))
  }

  lemma ExecutionsAppend(stmts: seq<(string, Params)>, s: (string, Params))
    ensures Executions(stmts + [s]) == Executions(stmts) + [Executed(s.0, Some(s.1))]
  {
  }

  /** What `add` sends and reports, instance by instance: each instance's statement is
      built and then executed, so a build error or a connection that is not open stops the
      run; `open` is whether the connection was open. */
  function AddRun(objs: seq<Instance>, columns: map<Annot, Column>, lib: Lib, open: bool): (seq<Event>, Option<DbError>)
    requires AllWellFormed(objs)
  {
    if objs == [] then ([], None)
    else
      var before := AddRun(objs[..|objs| - 1], columns, lib, open);
      if before.1.Some? then before
      else match InsertStatement(objs[|objs| - 1], columns, lib)
        case Err(e) => (before.0, Some(e))
        case Ok(s) =>
          if open then (before.0 + [Executed(s.0, Some(s.1))], None)
          else (before.0, Some(ConnectionClosed))
  }

  lemma AddRunAppend(objs: seq<Instance>, obj: Instance, columns: map<Annot, Column>, lib: Lib, open: bool)
    requires AllWellFormed(objs) && WellFormed(obj)
    ensures AllWellFormed(objs + [obj])
    ensures AddRun(objs + [obj], columns, lib, open) ==
      if AddRun(objs, columns, lib, open).1.Some? then AddRun(objs, columns, lib, open)
      else match InsertStatement(obj, columns, lib)
        case Err(e) => (AddRun(objs, columns, lib, open).0, Some(e))
        case Ok(s) =>
          if open then (AddRun(objs, columns, lib, open).0 + [Executed(s.0, Some(s.1))], None)
          else (AddRun(objs, columns, lib, open).0, Some(ConnectionClosed))
  {
    assert (objs + [obj])[..|objs|] == objs;
  }

  /** Once the run stops, the instances after it are never looked at. */
  lemma {:induction false} AddRunStopPersists(objs: seq<Instance>, k: nat, columns: map<Annot, Column>, lib: Lib, open: bool)
    requires AllWellFormed(objs) && k <= |objs| && AddRun(objs[..k], columns, lib, open).1.Some?
    ensures AddRun(objs, columns, lib, open) == AddRun(objs[..k], columns, lib, open)
    decreases |objs| - k
  {
    if k < |objs| {
      assert objs[..k + 1] == objs[..k] + [objs[k]];
      AddRunAppend(objs[..k], objs[k], columns, lib, open);
      AddRunStopPersists(objs, k + 1, columns, lib, open);
    } else {
      assert objs[..k] == objs;
    }
  }

  /** On an open connection `add` executes exactly the statements that build, in order,
      and reports the first build error. */
  lemma {:induction false} AddRunOpen(objs: seq<Instance>, columns: map<Annot, Column>, lib: Lib)
    requires AllWellFormed(objs)
    ensures AddRun(objs, columns, lib, true).0 == Executions(BuildAll(objs, columns, lib).0)
    ensures AddRun(objs, columns, lib, true).1 == BuildAll(objs, columns, lib).1
  {
    if objs != [] {
      var init := objs[..|objs| - 1];
      AddRunOpen(init, columns, lib);
      var b := BuildAll(init, columns, lib);
      if b.1.None? && InsertStatement(objs[|objs| - 1], columns, lib).Ok? {
        ExecutionsAppend(b.0, InsertStatement(objs[|objs| - 1], columns, lib).value);
      }
    }
  }

  /** On a connection that is not open `add` sends nothing; it reports the first
      instance's build error, or the refused execute if that instance builds. */
  lemma {:induction false} AddRunNotOpen(objs: seq<Instance>, columns: map<Annot, Column>, lib: Lib)
    requires AllWellFormed(objs)
    ensures AddRun(objs, columns, lib, false).0 == []
    ensures AddRun(objs, columns, lib, false).1 ==
      if objs == [] then None
      else match InsertStatement(objs[0], columns, lib)
        case Err(e) => Some(e)
        case Ok(_) => Some(ConnectionClosed)
  {
    if objs != [] {
      var init := objs[..|objs| - 1];
      AddRunNotOpen(init, columns, lib);
      if init != [] {
        assert init[0] == objs[0];
      }
    }
  }

  function ToOutcome(err: Option<DbError>): Outcome<DbError>
  {
    match err
    case None => Pass
    case Some(e) => Fail(e)
  }

  /** A cursor row holds a value for every declared field: SELECT names them all. */
  predicate RowFits(rt: RecordType, row: Row)
  {
    forall i | 0 <= i < |rt.fields| :: rt.fields[i].name in row
  }

  /** `model(**dict(row))`, without pydantic's validation: each declared field takes the
      row's value for its name. */
  function FromRow(rt: RecordType, row: Row): (inst: Instance)
    requires RowFits(rt, row)
    ensures inst.rt == rt && |inst.values| == |rt.fields|
    ensures forall i | 0 <= i < |rt.fields| :: inst.values[i] == row[rt.fields[i].name]
  {
    Instance(rt, seq(|rt.fields|, i requires 0 <= i < |rt.fields| => row[rt.fields[i].name]))
  }

  /** The instances built from the cursor's rows, in cursor order. */
  function FromRows(rt: RecordType, rows: seq<Row>): (insts: seq<Instance>)
    requires forall k | 0 <= k < |rows| :: RowFits(rt, rows[k])
    ensures |insts| == |rows|
  {
    seq(|rows|, k requires 0 <= k < |rows| => FromRow(rt, rows[k]))
  }

  /** Parameter names are distinct: they are the names of distinct fields. */
  predicate DistinctKeys(ps: Params)
  {
    forall k, l | 0 <= k < l < |ps| :: ps[k].0 != ps[l].0
  }

  /** The row the database keeps for an INSERT: each bound parameter under its name, and
      the rowid the database assigns. */
  function StoredRow(ps: Params, id: Value): (row: Row)
    requires DistinctKeys(ps)
    ensures RowId in row && row[RowId] == id
    ensures forall k | 0 <= k < |ps| && ps[k].0 != RowId :: ps[k].0 in row && row[ps[k].0] == ps[k].1
  {
    (map k | 0 <= k < |ps| :: ps[k].0 := ps[k].1)[RowId := id]
  }

  /** Reading back the row an INSERT stored gives the inserted instance, with the rowid the
      database assigned in the declared rowid field, whenever each column stores its value
      unchanged (the int and str columns). */
  lemma InsertThenSelect(inst: Instance, columns: map<Annot, Column>, lib: Lib, id: Value)
    requires WellFormed(inst)
    requires InsertParams(inst.rt.fields, inst.values, columns, lib).Ok?
    requires forall i | 0 <= i < |inst.rt.fields| && inst.rt.fields[i].name != RowId ::
      inst.rt.fields[i].annot in columns && columns[inst.rt.fields[i].annot].converter == Identity
    ensures var ps := InsertParams(inst.rt.fields, inst.values, columns, lib).value;
      && DistinctKeys(ps)
      && RowFits(inst.rt, StoredRow(ps, id))
      && forall i | 0 <= i < |inst.rt.fields| ::
           FromRow(inst.rt, StoredRow(ps, id)).values[i] == if inst.rt.fields[i].name == RowId then id else inst.values[i]
  {
    var fields := inst.rt.fields;
    var ps := InsertParams(fields, inst.values, columns, lib).value;
    var idx := ColumnIndices(fields);
    InsertParamsValues(fields, inst.values, columns, lib);
    assert DistinctKeys(ps) by {
      forall k, l | 0 <= k < l < |ps|
        ensures ps[k].0 != ps[l].0
      {
        assert idx[k] < idx[l];
      }
    }
    var row := StoredRow(ps, id);
    forall i | 0 <= i < |fields| && fields[i].name != RowId
      ensures fields[i].name in row && row[fields[i].name] == inst.values[i]
    {
      var k :| 0 <= k < |idx| && idx[k] == i;
      assert ps[k].0 == fields[i].name;
    }
  }

  class SQLiteSession {
    const location: Location
    var initialized: bool
    var conn: ConnState
    ghost var log: seq<Event>

    /** `_initialized` records whether the connection was awaited; the connection is opened
        once, as the first thing in the log, and a closed connection sees nothing after
        its close. */
    ghost predicate Valid()
      reads this
    {
      && (initialized <==> conn != Pending)
      && (conn == Pending ==> log == [])
      && (conn != Pending ==> |log| > 0 && log[0] == Connected(location))
      && (forall i | 0 < i < |log| :: !log[i].Connected?)
      && (conn == Closed ==> log[|log| - 1] == Disconnected)
    }

    /** `__init__`: `connect(db_path)` creates the connection without opening it. */
    constructor(location: Location)
      ensures Valid()
      ensures this.location == location && !initialized && conn == Pending && log == []
    {
      this.location := location;
      initialized := false;
      conn := Pending;
      log := [];
    }

    /** `__aenter__`: the connection is awaited, and so opened, only on the first entry;
        later entries return the same session and leave the connection as it is. */
    method Enter() returns (s: SQLiteSession)
      requires Valid()
      modifies this
      ensures Valid() && s == this && initialized
      ensures old(conn) == Pending ==> conn == Open && log == [Connected(location)]
      ensures old(conn) != Pending ==> conn == old(conn) && log == old(log)
    {
      if !initialized {
        conn := Open;
        log := [Connected(location)];
        initialized := true;
      }
      s := this;
    }

    /** `execute`: sends one statement, with its parameters if given. */
    method Execute(sql: string, params: Option<Params>) returns (r: Outcome<DbError>)
      requires Valid()
      modifies this
      ensures Valid() && conn == old(conn) && initialized == old(initialized)
      ensures old(conn) == Open ==> r == Pass && log == old(log) + [Executed(sql, params)]
      ensures old(conn) != Open ==> r == Fail(ConnectionClosed) && log == old(log)
    {
      if conn != Open {
        return Fail(ConnectionClosed);
      }
      log := log + [Executed(sql, params)];
      r := Pass;
    }

    /** `commit`. */
    method Commit() returns (r: Outcome<DbError>)
      requires Valid()
      modifies this
      ensures Valid() && conn == old(conn) && initialized == old(initialized)
      ensures old(conn) == Open ==> r == Pass && log == old(log) + [Committed]
      ensures old(conn) != Open ==> r == Fail(ConnectionClosed) && log == old(log)
    {
      if conn != Open {
        return Fail(ConnectionClosed);
      }
      log := log + [Committed];
      r := Pass;
    }

    /** `add`: executes one INSERT per instance, in list order, and does not commit. An
        instance whose statement cannot be built stops the loop with its error, after the
        earlier instances' statements were executed. */
    method Add(data: Items, registry: TypeRegistry, lib: Lib) returns (r: Outcome<DbError>)
      requires Valid() && AllWellFormed(ItemsOf(data))
      modifies this
      ensures Valid() && conn == old(conn) && initialized == old(initialized)
      ensures log == old(log) + AddRun(ItemsOf(data), registry.columns, lib, old(conn) == Open).0
      ensures r == ToOutcome(AddRun(ItemsOf(data), registry.columns, lib, old(conn) == Open).1)
    {
      var objs := if data.One? then [data.item] else data.items;
      var columns := registry.columns;
      ghost var open := conn == Open;
      ghost var sent: seq<Event> := [];
      var i := 0;
      while i < |objs|
        invariant 0 <= i <= |objs|
        invariant Valid() && conn == old(conn) && initialized == old(initialized)
        invariant log == old(log) + sent
        invariant AddRun(objs[..i], columns, lib, open) == (sent, None)
      {
        assert objs[..i + 1] == objs[..i] + [objs[i]];
        AddRunAppend(objs[..i], objs[i], columns, lib, open);
        var built := ModelToInsertStatement(objs[i], columns, lib);
        if built.Err? {
          AddRunStopPersists(objs, i + 1, columns, lib, open);
          return Fail(built.error);
        }
        var (stmt, params) := built.value;
        var e := Execute(stmt, Some(params));
        if e.Fail? {
          AddRunStopPersists(objs, i + 1, columns, lib, open);
          return e;
        }
        sent := sent + [Executed(stmt, Some(params))];
        i := i + 1;
      }
      assert objs[..i] == objs;
      r := Pass;
    }

    /** `select_all`: executes the SELECT and builds one instance per row, eagerly, in
        cursor order. The rows the engine yields are the parameter `cursor`. */
    method SelectAll(rt: RecordType, lib: Lib, cursor: seq<Row>) returns (r: Result<seq<Instance>, DbError>)
      requires Valid() && forall k | 0 <= k < |cursor| :: RowFits(rt, cursor[k])
      modifies this
      ensures Valid() && conn == old(conn) && initialized == old(initialized)
      ensures old(conn) == Open ==> r == Ok(FromRows(rt, cursor)) && log == old(log) + [Executed(SelectStatement(rt, lib), None)]
      ensures old(conn) != Open ==> r == Err(ConnectionClosed) && log == old(log)
    {
      var stmt := SelectStatement(rt, lib);
      var e := Execute(stmt, None);
      if e.Fail? {
        return Err(e.error);
      }
      var results: seq<Instance> := [];
      for k := 0 to |cursor|
        invariant |results| == k
        invariant forall j | 0 <= j < k :: results[j] == FromRow(rt, cursor[j])
      {
        results := results + [FromRow(rt, cursor[k])];
      }
      assert results == FromRows(rt, cursor);
      r := Ok(results);
    }

    /** `select`: the same statement and the same row-to-instance mapping as `select_all`,
        handed out one instance at a time; the sequence it yields is the one `select_all`
        returns. */
    method Select(rt: RecordType, lib: Lib, cursor: seq<Row>) returns (r: Result<seq<Instance>, DbError>)
      requires Valid() && forall k | 0 <= k < |cursor| :: RowFits(rt, cursor[k])
      modifies this
      ensures Valid() && conn == old(conn) && initialized == old(initialized)
      ensures old(conn) == Open ==> r == Ok(FromRows(rt, cursor)) && log == old(log) + [Executed(SelectStatement(rt, lib), None)]
      ensures old(conn) != Open ==> r == Err(ConnectionClosed) && log == old(log)
    {
      var stmt := SelectStatement(rt, lib);
      var e := Execute(stmt, None);
      if e.Fail? {
        return Err(e.error);
      }
      var yielded: seq<Instance> := [];
      var k := 0;
      while k < |cursor|
        invariant 0 <= k <= |cursor|
        invariant yielded == FromRows(rt, cursor[..k])
      {
        yielded := yielded + [FromRow(rt, cursor[k])];
        k := k + 1;
      }
      assert cursor[..k] == cursor;
      r := Ok(yielded);
    }

    /** `__aexit__`: commits whether or not the scope's body raised; `exc` is that error. */
    method Exit(exc: Option<DbError>) returns (r: Outcome<DbError>)
      requires Valid()
      modifies this
      ensures Valid() && conn == old(conn) && initialized == old(initialized)
      ensures old(conn) == Open ==> r == Pass && log == old(log) + [Committed]
      ensures old(conn) != Open ==> r == Fail(ConnectionClosed) && log == old(log)
    {
      r := Commit();
    }

    /** `close`: closes an open connection; on a connection never opened or already closed
        it does nothing. */
    method Close()
      requires Valid()
      modifies this
      ensures Valid() && initialized == old(initialized)
      ensures old(conn) == Open ==> conn == Closed && log == old(log) + [Disconnected]
      ensures old(conn) != Open ==> conn == old(conn) && log == old(log)
    {
      if conn == Open {
        conn := Closed;
        log := log + [Disconnected];
      }
    }
  }

  /** The log entries `load_schema` adds to a session that was already registered, given
      the state of its connection. */
  function SchemaEvents(before: ConnState, location: Location, stmt: string): seq<Event>
  {
    match before
    case Pending => [Connected(location), Executed(stmt, None), Committed, Committed]
    case Open => [Executed(stmt, None), Committed, Committed]
    case Closed => []
  }

  class ConnectionManager {
    var connections: map<Location, SQLiteSession>
    const defaultLocation: Location

    /** Each registered session serves the location it is registered under, so no two
        locations share a session and no location has two. */
    ghost predicate Valid()
      reads this, connections.Values
    {
      forall l | l in connections :: connections[l].location == l && connections[l].Valid()
    }

    constructor(defaultLocation: Location)
      ensures Valid() && connections == map[] && this.defaultLocation == defaultLocation
    {
      connections := map[];
      this.defaultLocation := defaultLocation;
    }

    /** A missing location means the default one. */
    function Resolve(location: Option<Location>): Location
    {
      if location.None? then defaultLocation else location.value
    }

    /** `session`: the session registered for the location, or a new unopened one that is
        registered under it and leaves every other entry as it was. */
    method Session(location: Option<Location>) returns (s: SQLiteSession)
      requires Valid()
      modifies this
      ensures Valid()
      ensures var l := Resolve(location); l in connections && s == connections[l]
      ensures Resolve(location) in old(connections) ==> connections == old(connections)
      ensures Resolve(location) !in old(connections) ==>
        && fresh(s) && connections == old(connections)[Resolve(location) := s]
        && !s.initialized && s.conn == Pending && s.log == []
    {
      var l := if location.None? then defaultLocation else location.value;
      if l in connections {
        return connections[l];
      }
      s := new SQLiteSession(l);
      connections := connections[l := s];
    }

    /** `close_connections`: closes every registered session. */
    method CloseConnections()
      requires Valid()
      modifies connections.Values
      ensures Valid()
      ensures forall s | s in connections.Values ::
        && (old(s.conn) == Open ==> s.conn == Closed && s.log == old(s.log) + [Disconnected])
        && (old(s.conn) != Open ==> s.conn == old(s.conn) && s.log == old(s.log))
    {
      var todo := connections.Values;
      while todo != {}
        invariant todo <= connections.Values
        invariant Valid()
        invariant forall s | s in connections.Values - todo ::
          && (old(s.conn) == Open ==> s.conn == Closed && s.log == old(s.log) + [Disconnected])
          && (old(s.conn) != Open ==> s.conn == old(s.conn) && s.log == old(s.log))
        invariant forall s | s in todo :: s.conn == old(s.conn) && s.log == old(s.log)
        decreases todo
      {
        var s :| s in todo;
        s.Close();
        todo := todo - {s};
      }
    }

    /** `load_schema`: builds the CREATE statement first (a failure changes nothing), then
        executes it in the resolved location's session, commits, and commits again on
        leaving the scope. */
    method LoadSchema(rt: RecordType, location: Option<Location>, registry: TypeRegistry, lib: Lib)
      returns (r: Outcome<DbError>)
      requires Valid()
      modifies this, connections.Values
      ensures Valid()
      ensures var create := CreateTable(rt, registry.columns, lib);
        create.Err? ==> r == Fail(create.error) && connections == old(connections)
      ensures var create := CreateTable(rt, registry.columns, lib);
        create.Ok? ==>
          var l := Resolve(location);
          && l in connections
          && (l in old(connections) ==>
                && connections == old(connections)
                && connections[l].log == old(connections[l].log) + SchemaEvents(old(connections[l].conn), l, create.value)
                && connections[l].conn == (if old(connections[l].conn) == Pending then Open else old(connections[l].conn))
                && r == (if old(connections[l].conn) == Closed then Fail(ConnectionClosed) else Pass))
          && (l !in old(connections) ==>
                && fresh(connections[l]) && connections == old(connections)[l := connections[l]]
                && connections[l].log == [Connected(l), Executed(create.value, None), Committed, Committed]
                && connections[l].conn == Open
                && r == Pass)
      ensures forall s | s in old(connections.Values) ::
        (CreateTable(rt, registry.columns, lib).Err? || Resolve(location) !in old(connections) || s != old(connections)[Resolve(location)]) ==>
        s.log == old(s.log) && s.conn == old(s.conn)
    {
      var l := if location.None? then defaultLocation else location.value;
      var create := GenerateCreateTableStatement(rt, registry.columns, lib);
      if create.Err? {
        return Fail(create.error);
      }
      var s := Session(Some(l));
      r := CreateInScope(s, create.value);
    }

    /** The body of `load_schema`'s `async with` block: enter the session, execute the
        CREATE statement, commit, and commit again on leaving; an error inside the block
        still passes through the exit, whose own error takes precedence. */
    static method CreateInScope(s: SQLiteSession, stmt: string) returns (r: Outcome<DbError>)
      requires s.Valid()
      modifies s
      ensures s.Valid()
      ensures s.log == old(s.log) + SchemaEvents(old(s.conn), s.location, stmt)
      ensures s.conn == (if old(s.conn) == Pending then Open else old(s.conn))
      ensures r == (if old(s.conn) == Closed then Fail(ConnectionClosed) else Pass)
    {
      var scope := s.Enter();
      var e := scope.Execute(stmt, None);
      if e.Fail? {
        var x := scope.Exit(Some(e.error));
        return if x.Fail? then x else e;
      }
      // the execute succeeded, so the connection is open and the commit succeeds too
      var c := scope.Commit();
      r := scope.Exit(None);
    }
  }
}
