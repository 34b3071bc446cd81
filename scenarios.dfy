/** The integration scenario of tests/integration/test_persistence.py, evaluated on the
    model: a record type with a declared `rowid`, an `int` and a `str` field, the builtin
    registry, and a name converter that maps "TestModel" to "test_model". */
module Scenarios {
  import opened Outcomes
  import opened Registry
  import opened Text
  import opened Statements
  import opened Sessions

  /** `TestModel`: `rowid: int | None = None`, `power_level: int`, `name: str`. */
  const TestModel := RecordType("TestModel", [
    Field("rowid", OtherType("int | None")),
    Field("power_level", IntType),
    Field("name", StrType)
  ])

  /** The column definitions of `TestModel`: rowid skipped, then one per field. */
  lemma TestModelColumnDefs()
    ensures ColumnDefs(TestModel.fields, BuiltinColumns()) == Ok(["power_level INTEGER", "name TEXT"])
  {
    var fs := TestModel.fields;
    var cols := BuiltinColumns();
    assert fs[..0] == [] && fs[..3] == fs;
    ColumnDefsSkip(fs, 0, cols);
    assert ResolveAnnotation(fs[1], cols) == Ok(IntegerColumn);
    ColumnDefsAppend(fs, 1, cols);
    assert ResolveAnnotation(fs[2], cols) == Ok(TextColumn);
    ColumnDefsAppend(fs, 2, cols);
    var d1, d2 := FieldDef(fs[1], IntegerColumn), FieldDef(fs[2], TextColumn);
    assert d1 == "power_level INTEGER" && d2 == "name TEXT";
    assert ColumnDefs(fs[..2], cols) == Ok([] + [d1]);
    assert [] + [d1] == [d1];
    assert ColumnDefs(fs, cols) == Ok([d1] + [d2]);
    assert [d1] + [d2] == ["power_level INTEGER", "name TEXT"];
  }

  /** The statement the test expects, "CREATE TABLE test_model (", then "power_level
      INTEGER," and "name TEXT" on lines of their own, then ")", written as the pieces the
      builder concatenates. */
  const ExpectedCreate := "CREATE TABLE " + "test_model" + " (" + ("\n" + ("power_level INTEGER" + ",\n" + "name TEXT")) + "\n)"

  /** The table is created with the two non-rowid columns, one per line. */
  lemma TestModelCreate(lib: Lib)
    requires lib.camelToSnake("TestModel") == "test_model"
    ensures CreateTable(TestModel, BuiltinColumns(), lib) == Ok(ExpectedCreate)
  {
    TestModelColumnDefs();
    var defs := ["power_level INTEGER", "name TEXT"];
    assert defs[..1] == ["power_level INTEGER"];
    var body := "power_level INTEGER" + ",\n" + "name TEXT";
    assert Join(defs, ",\n") == body;
    assert TableName(TestModel, lib) == "test_model";
    assert CreateTable(TestModel, BuiltinColumns(), lib) == Ok(CreateTableText("test_model", defs));
    assert CreateTableText("test_model", defs) == ExpectedCreate;
  }

  /** `TestModel(power_level=1, name="test")`, its rowid left at None. */
  const Added := Instance(TestModel, [NoneV, IntV(1), StrV("test")])

  /** The parameters bound for it: rowid skipped, the int and the str bound as they are. */
  lemma AddedParams(lib: Lib)
    ensures InsertParams(TestModel.fields, Added.values, BuiltinColumns(), lib)
         == Ok([("power_level", IntV(1)), ("name", StrV("test"))])
  {
    var fs, vs, cols := TestModel.fields, Added.values, BuiltinColumns();
    assert fs[..0] == [] && vs[..0] == [] && fs[..3] == fs && vs[..3] == vs;
    InsertParamsStep(fs, vs, 0, cols, lib);
    InsertParamsStep(fs, vs, 1, cols, lib);
    InsertParamsStep(fs, vs, 2, cols, lib);
    assert BindField(fs[1], vs[1], cols, lib) == Ok(Some(("power_level", IntV(1))));
    assert BindField(fs[2], vs[2], cols, lib) == Ok(Some(("name", StrV("test"))));
    var p1, p2 := ("power_level", IntV(1)), ("name", StrV("test"));
    assert InsertParams(fs[..1], vs[..1], cols, lib) == Ok([]);
    assert InsertParams(fs[..2], vs[..2], cols, lib) == Ok([] + [p1]);
    assert [] + [p1] == [p1];
    assert InsertParams(fs, vs, cols, lib) == Ok([p1] + [p2]);
    assert [p1] + [p2] == [p1, p2];
  }

  /** The statement the test's insert runs, written as the pieces the builder
      concatenates: the quoted column list and the placeholder list in the same order. */
  const ExpectedInsert := "INSERT INTO " + "test_model" + " (" + ("\"power_level\"" + ", " + "\"name\"")
    + ") VALUES (" + (":power_level" + ", " + ":name") + ")"

  /** The column list and the placeholder list of the test's insert. */
  lemma AddedNameLists()
    ensures Join(Quoted(["power_level", "name"]), ", ") == "\"power_level\"" + ", " + "\"name\""
    ensures Join(Placeholders(["power_level", "name"]), ", ") == ":power_level" + ", " + ":name"
  {
    var qs, hs := Quoted(["power_level", "name"]), Placeholders(["power_level", "name"]);
    assert qs[0] == "\"power_level\"" && qs[1] == "\"name\"";
    assert hs[0] == ":power_level" && hs[1] == ":name";
    assert qs[..1] == ["\"power_level\""] && hs[..1] == [":power_level"];
  }

  lemma AddedInsert(lib: Lib)
    requires lib.camelToSnake("TestModel") == "test_model"
    ensures InsertStatement(Added, BuiltinColumns(), lib)
         == Ok((ExpectedInsert, [("power_level", IntV(1)), ("name", StrV("test"))]))
  {
    AddedParams(lib);
    AddedNameLists();
    assert Keys([("power_level", IntV(1)), ("name", StrV("test"))]) == ["power_level", "name"];
  }

  /** Both SELECT builders read every declared field, the declared rowid included, and
      then rowid again. */
  lemma TestModelSelect(lib: Lib)
    requires lib.camelToSnake("TestModel") == "test_model"
    ensures SelectColumns(TestModel) == ["rowid", "power_level", "name", "rowid"]
    ensures SelectStatement(TestModel, lib)
         == "SELECT " + ("rowid" + ", " + "power_level" + ", " + "name" + ", " + "rowid") + " FROM " + "test_model"
  {
    var cs := SelectColumns(TestModel);
    assert Names(TestModel.fields) == ["rowid", "power_level", "name"];
    assert cs == ["rowid", "power_level", "name", "rowid"];
    assert cs[..3] == ["rowid", "power_level", "name"];
    assert cs[..3][..2] == ["rowid", "power_level"];
    assert cs[..3][..2][..1] == ["rowid"];
    assert Join(cs[..3][..2], ", ") == "rowid" + ", " + "power_level";
    assert Join(cs[..3], ", ") == "rowid" + ", " + "power_level" + ", " + "name";
    assert Join(cs, ", ") == "rowid" + ", " + "power_level" + ", " + "name" + ", " + "rowid";
  }

  /** A field typed with something the registry does not know makes both builders fail
      with the same error. */
  lemma UnregisteredFieldFails(lib: Lib)
    ensures var rt := RecordType("Broken", [Field("when", OtherType("float"))]);
      && CreateTable(rt, BuiltinColumns(), lib) == Err(UnregisteredType(OtherType("float")))
      && InsertStatement(Instance(rt, [NoneV]), BuiltinColumns(), lib) == Err(UnregisteredType(OtherType("float")))
  {
    var rt := RecordType("Broken", [Field("when", OtherType("float"))]);
    assert rt.fields[..0] == [] && [NoneV][..0] == [];
    assert OtherType("float") !in BuiltinColumns();
    assert ResolveAnnotation(rt.fields[0], BuiltinColumns()) == Err(UnregisteredType(OtherType("float")));
    assert InsertParams(rt.fields, [NoneV], BuiltinColumns(), lib) == Err(UnregisteredType(OtherType("float")));
  }

  /** The row the test's insert stores, with rowid 1, reads back as the added instance with
      its rowid filled in. */
  lemma AddedReadBack(lib: Lib)
    ensures var ps := [("power_level", IntV(1)), ("name", StrV("test"))];
      && DistinctKeys(ps)
      && RowFits(TestModel, StoredRow(ps, IntV(1)))
      && FromRows(TestModel, [StoredRow(ps, IntV(1))]) == [Instance(TestModel, [IntV(1), IntV(1), StrV("test")])]
  {
    var ps := [("power_level", IntV(1)), ("name", StrV("test"))];
    AddedRowValues(lib);
    var row := StoredRow(ps, IntV(1));
    var back := FromRow(TestModel, row);
    ThreeValues(back.values, IntV(1), IntV(1), StrV("test"));
    assert FromRows(TestModel, [row])[0] == back;
  }

  /** Field by field, the stored row reads back as rowid 1, then the added values. */
  lemma AddedRowValues(lib: Lib)
    ensures var ps := [("power_level", IntV(1)), ("name", StrV("test"))];
      && DistinctKeys(ps)
      && RowFits(TestModel, StoredRow(ps, IntV(1)))
      && var vs := FromRow(TestModel, StoredRow(ps, IntV(1))).values;
         |vs| == 3 && vs[0] == IntV(1) && vs[1] == IntV(1) && vs[2] == StrV("test")
  {
    AddedParams(lib);
    InsertThenSelect(Added, BuiltinColumns(), lib, IntV(1));
    assert TestModel.fields[0].name == RowId && TestModel.fields[1].name != RowId && TestModel.fields[2].name != RowId;
  }

  lemma ThreeValues(vs: seq<Value>, a: Value, b: Value, c: Value)
    requires |vs| == 3 && vs[0] == a && vs[1] == b && vs[2] == c
    ensures vs == [a, b, c]
  {
  }

  /** The first scope of test_select_from_table on an open session: enter, add the
      instance, commit, and commit again on leaving. `sent` is the parameter dictionary the
      INSERT carried, as the session logged it. */
  method AddInScope(s: SQLiteSession, registry: TypeRegistry, lib: Lib) returns (r: Outcome<DbError>, sent: Params)
    requires s.Valid() && s.conn == Open && registry.columns == BuiltinColumns()
    requires lib.camelToSnake("TestModel") == "test_model"
    modifies s
    ensures s.Valid() && s.conn == Open && r == Pass
    ensures s.log == old(s.log) + [Executed(ExpectedInsert, Some(sent)), Committed, Committed]
    ensures sent == [("power_level", IntV(1)), ("name", StrV("test"))]
  {
    var scope := s.Enter();
    AddedInsert(lib);
    var built := ModelToInsertStatement(Added, registry.columns, lib);
    sent := built.value.1;
    assert ItemsOf(One(Added)) == [Added] && [Added][..0] == [];
    r := scope.Add(One(Added), registry, lib);
    var committed := scope.Commit();
    var exited := scope.Exit(None);
  }

  /** The fixtures of test_select_from_table: a manager whose default location is the
      in-memory database, the builtin registry, and the schema of `TestModel` loaded, which
      leaves the one registered session open. */
  method LoadTestSchema(lib: Lib) returns (manager: ConnectionManager, registry: TypeRegistry, s: SQLiteSession)
    requires lib.camelToSnake("TestModel") == "test_model"
    ensures fresh(manager) && fresh(registry) && fresh(s)
    ensures manager.Valid() && manager.defaultLocation == Memory && manager.connections == map[Memory := s]
    ensures registry.columns == BuiltinColumns()
    ensures s.Valid() && s.conn == Open
    ensures s.log == [Connected(Memory), Executed(ExpectedCreate, None), Committed, Committed]
  {
    registry := new TypeRegistry.WithBuiltins();
    manager := new ConnectionManager(Memory);
    TestModelCreate(lib);
    var created := manager.LoadSchema(TestModel, None, registry, lib);
    s := manager.connections[Memory];
    assert s.log[|s.log| - 1] == Committed;
  }

  /** test_select_from_table on the model: the schema is loaded into the default in-memory
      session, the instance is added in one scope, and a later scope on the same session
      selects it back. The cursor yields the one row the INSERT stored, under rowid 1, so
      the single result carries rowid 1 and the added power level and name. */
  method SelectFromTable(lib: Lib) returns (r: Result<seq<Instance>, DbError>)
    requires lib.camelToSnake("TestModel") == "test_model"
    ensures r == Ok([Instance(TestModel, [IntV(1), IntV(1), StrV("test")])])
  {
    var manager, registry, s := LoadTestSchema(lib);
    var first := manager.Session(None);
    var added, sent := AddInScope(first, registry, lib);

    // The engine stores the parameters the INSERT carried as the table's first row.
    AddedReadBack(lib);
    var row := StoredRow(sent, IntV(1));

    var again := manager.Session(None);
    assert again == first;
    var scope := again.Enter();
    r := scope.SelectAll(TestModel, lib, [row]);
  }
}
