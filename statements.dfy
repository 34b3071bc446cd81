/** The SQL text app/db.py generates from a record type's declared fields: the CREATE TABLE
    statement (`_generate_create_table_statement`, `_get_field_create_statement`), the
    INSERT statement with its parameters (`model_to_insert_statement`) and the SELECT
    statement shared by `select_all` and `select`. */
module Statements {
  import opened Outcomes
  import opened Text
  import opened Registry

  /** A declared field: its name and its annotation (`model_fields` entry). */
  datatype Field = Field(name: string, annot: Annot)

  /** A pydantic model class: its class name and its fields in declaration order. */
  datatype RecordType = RecordType(name: string, fields: seq<Field>)

  /** A model instance: the value of each declared field, in declaration order. */
  datatype Instance = Instance(rt: RecordType, values: seq<Value>)

  /** The name of SQLite's implicit identity column, which the builders treat specially. */
  const RowId := "rowid"

  /** `model_fields` is a dictionary, so no two fields share a name. */
  predicate DistinctNames(fields: seq<Field>)
  {
    forall i, j | 0 <= i < j < |fields| :: fields[i].name != fields[j].name
  }

  predicate WellFormed(inst: Instance)
  {
    DistinctNames(inst.rt.fields) && |inst.values| == |inst.rt.fields|
  }

  function TableName(rt: RecordType, lib: Lib): string
  {
    lib.camelToSnake(rt.name)
  }

  function Names(fields: seq<Field>): (names: seq<string>)
    ensures |names| == |fields| && forall i | 0 <= i < |fields| :: names[i] == fields[i].name
  {
    seq(|fields|, i requires 0 <= i < |fields| => fields[i].name)
  }

  /** The positions of the fields that get a column: every field except one named rowid. */
  function ColumnIndices(fields: seq<Field>): (idx: seq<nat>)
    ensures forall k | 0 <= k < |idx| :: idx[k] < |fields| && fields[idx[k]].name != RowId
    ensures forall k, l | 0 <= k < l < |idx| :: idx[k] < idx[l]
    ensures forall i | 0 <= i < |fields| && fields[i].name != RowId :: i in idx
  {
    if fields == [] then []
    else
      var n := |fields| - 1;
      if fields[n].name == RowId then ColumnIndices(fields[..n]) else ColumnIndices(fields[..n]) + [n]
  }

  /** The registry lookup both builders perform for a non-rowid field: a field without
      annotation raises NotImplementedError, an annotation without a column raises KeyError. */
  function ResolveAnnotation(f: Field, columns: map<Annot, Column>): (r: Result<Column, DbError>)
  {
    if f.annot == NoAnnotation then Err(UnsupportedFieldType(f.name))
    else if f.annot !in columns then Err(UnregisteredType(f.annot))
    else Ok(columns[f.annot])
  }

  /** In a registry keyed by type, a field resolves exactly when it is annotated with a
      registered type, and then to the column class registered for that very type; the
      missing annotation is reported before the registry is consulted. */
  lemma ResolvedColumnMatches(f: Field, columns: map<Annot, Column>)
    requires KeyedByType(columns)
    ensures ResolveAnnotation(f, columns).Ok? <==> f.annot != NoAnnotation && f.annot in columns
    ensures ResolveAnnotation(f, columns).Ok? ==> ResolveAnnotation(f, columns).value.pythonType == f.annot
    ensures f.annot == NoAnnotation ==> ResolveAnnotation(f, columns) == Err(UnsupportedFieldType(f.name))
  {
  }

  /** A column definition of the CREATE statement. */
  function FieldDef(f: Field, c: Column): (def: string)
    ensures |def| > 0 && def[|def| - 1] !in {',', '\n'}
  {
    f.name + " " + StorageName(c.sqliteType)
  }

  //
  // CREATE TABLE
  //

  /** The column definitions of the non-rowid fields in order, or the failure of the first
      field that has none. */
  function ColumnDefs(fields: seq<Field>, columns: map<Annot, Column>): Result<seq<string>, DbError>
  {
    if fields == [] then Ok([])
    else
      var n := |fields| - 1;
      match ColumnDefs(fields[..n], columns)
      case Err(e) => Err(e)
      case Ok(defs) =>
        if fields[n].name == RowId then Ok(defs)
        else match ResolveAnnotation(fields[n], columns)
          case Err(e) => Err(e)
          case Ok(c) => Ok(defs + [FieldDef(fields[n], c)])
  }

  /** The text of the CREATE statement for the given column definitions. */
  function CreateTableText(table: string, defs: seq<string>): string
  {
    "CREATE TABLE " + table + " (" + (if defs == [] then "" else "\n" + Join(defs, ",\n")) + "\n)"
  }

  /** What `_generate_create_table_statement` returns for `rt`, or the error it raises. */
  function CreateTable(rt: RecordType, columns: map<Annot, Column>, lib: Lib): Result<string, DbError>
  {
    match ColumnDefs(rt.fields, columns)
    case Err(e) => Err(e)
    case Ok(defs) => Ok(CreateTableText(TableName(rt, lib), defs))
  }

  /** `_get_field_create_statement`: one column definition followed by the separator. */
  function FieldCreateStatement(f: Field, columns: map<Annot, Column>): (r: Result<string, DbError>)
    ensures r.Ok? <==> f.annot != NoAnnotation && f.annot in columns
    ensures r.Ok? ==> r.value == f.name + " " + StorageName(columns[f.annot].sqliteType) + ",\n"
    ensures r.Ok? ==> |r.value| >= 3 && r.value[..|r.value| - 2] == FieldDef(f, columns[f.annot])
                      && r.value[|r.value| - 3] !in {',', '\n'}
    ensures r.Err? ==> r.error == if f.annot == NoAnnotation then UnsupportedFieldType(f.name) else UnregisteredType(f.annot)
  {
    match ResolveAnnotation(f, columns)
    case Err(e) => Err(e)
    case Ok(c) => Ok(FieldDef(f, c) + ",\n")
  }

  /** `_generate_create_table_statement`: appends one definition and separator per
      non-rowid field, strips the trailing separator with `rstrip(",\n")` and closes the
      parenthesis. The result is the layout CreateTableText describes, without a trailing
      separator: rstrip removes the last ",\n" and nothing more, since no storage type name
      ends in ',' or a newline. */
  method GenerateCreateTableStatement(rt: RecordType, columns: map<Annot, Column>, lib: Lib)
    returns (r: Result<string, DbError>)
    ensures r == CreateTable(rt, columns, lib)
  {
    var fields := rt.fields;
    var table := lib.camelToSnake(rt.name);
    var head := "CREATE TABLE " + table + " (\n";
    var stmt := head;
    ghost var defs: seq<string> := [];
    var i := 0;
    while i < |fields|
      invariant 0 <= i <= |fields|
      invariant ColumnDefs(fields[..i], columns) == Ok(defs)
      invariant stmt == head + Terminated(defs, ",\n")
    {
      var f := fields[i];
      if f.name == RowId {
        ColumnDefsSkip(fields, i, columns);
        i := i + 1;
        continue;
      }
      var def := FieldCreateStatement(f, columns);
      if def.Err? {
        ColumnDefsFailsAt(fields, i, columns);
        return Err(def.error);
      }
      var c := ResolveAnnotation(f, columns).value;
      ColumnDefsAppend(fields, i, columns);
      TerminatedStep(head, defs, FieldDef(f, c), ",\n");
      stmt := stmt + def.value;
      defs := defs + [FieldDef(f, c)];
      i := i + 1;
    }
    assert fields[..i] == fields;
    ColumnDefsEndings(fields, columns);
    StripFinalSeparator(table, defs);
    stmt := RStrip(stmt, {',', '\n'});
    stmt := stmt + "\n)";
    r := Ok(stmt);
  }

  /** One more field: ColumnDefs of the longer prefix in terms of the shorter one. */
  lemma ColumnDefsStep(fields: seq<Field>, i: nat, columns: map<Annot, Column>)
    requires i < |fields|
    ensures ColumnDefs(fields[..i + 1], columns) ==
      match ColumnDefs(fields[..i], columns)
      case Err(e) => Err(e)
      case Ok(defs) =>
        if fields[i].name == RowId then Ok(defs)
        else match ResolveAnnotation(fields[i], columns)
          case Err(e) => Err(e)
          case Ok(c) => Ok(defs + [FieldDef(fields[i], c)])
  {
    assert fields[..i + 1][..i] == fields[..i];
  }

  lemma ColumnDefsSkip(fields: seq<Field>, i: nat, columns: map<Annot, Column>)
    requires i < |fields| && fields[i].name == RowId
    ensures ColumnDefs(fields[..i + 1], columns) == ColumnDefs(fields[..i], columns)
  {
    ColumnDefsStep(fields, i, columns);
  }

  lemma ColumnDefsAppend(fields: seq<Field>, i: nat, columns: map<Annot, Column>)
    requires i < |fields| && ColumnDefs(fields[..i], columns).Ok?
    requires fields[i].name != RowId && ResolveAnnotation(fields[i], columns).Ok?
    ensures ColumnDefs(fields[..i + 1], columns)
         == Ok(ColumnDefs(fields[..i], columns).value + [FieldDef(fields[i], ResolveAnnotation(fields[i], columns).value)])
  {
    ColumnDefsStep(fields, i, columns);
  }

  /** The first failing field decides the failure of the whole list. */
  lemma ColumnDefsFailsAt(fields: seq<Field>, i: nat, columns: map<Annot, Column>)
    requires i < |fields| && ColumnDefs(fields[..i], columns).Ok?
    requires fields[i].name != RowId && ResolveAnnotation(fields[i], columns).Err?
    ensures ColumnDefs(fields, columns) == Err(ResolveAnnotation(fields[i], columns).error)
  {
    ColumnDefsStep(fields, i, columns);
    ColumnDefsErrorPersists(fields, i + 1, columns);
  }

  lemma TerminatedStep(head: string, parts: seq<string>, p: string, sep: string)
    ensures head + Terminated(parts + [p], sep) == (head + Terminated(parts, sep)) + (p + sep)
  {
    assert (parts + [p])[..|parts|] == parts;
  }

  /** No column definition is empty or ends in a separator character. */
  lemma {:induction false} ColumnDefsEndings(fields: seq<Field>, columns: map<Annot, Column>)
    ensures ColumnDefs(fields, columns).Ok? ==>
      var defs := ColumnDefs(fields, columns).value;
      forall k | 0 <= k < |defs| :: |defs[k]| > 0 && defs[k][|defs[k]| - 1] !in {',', '\n'}
  {
    if fields != [] {
      var n := |fields| - 1;
      ColumnDefsEndings(fields[..n], columns);
      if ColumnDefs(fields, columns).Ok? && fields[n].name != RowId {
        var c := ResolveAnnotation(fields[n], columns).value;
        var d := FieldDef(fields[n], c);
        assert ColumnDefs(fields, columns).value == ColumnDefs(fields[..n], columns).value + [d];
      } else if fields[n].name == RowId {
        assert ColumnDefs(fields, columns) == ColumnDefs(fields[..n], columns);
      }
    }
  }

  /** The trailing ",\n" of the accumulated definitions is exactly what rstrip removes;
      with no definitions it removes the newline after the opening parenthesis. */
  lemma StripFinalSeparator(table: string, defs: seq<string>)
    requires forall k | 0 <= k < |defs| :: |defs[k]| > 0 && defs[k][|defs[k]| - 1] !in {',', '\n'}
    ensures RStrip("CREATE TABLE " + table + " (\n" + Terminated(defs, ",\n"), {',', '\n'}) + "\n)"
            == CreateTableText(table, defs)
  {
    var head := "CREATE TABLE " + table + " (\n";
    if defs == [] {
      RStripRemovesSuffix("CREATE TABLE " + table + " (", "\n", {',', '\n'});
      assert head + Terminated(defs, ",\n") == ("CREATE TABLE " + table + " (") + "\n";
    } else {
      TerminatedIsJoinPlusSep(defs, ",\n");
      JoinEndsWithLastPart(defs, ",\n");
      var body := head + Join(defs, ",\n");
      assert head + Terminated(defs, ",\n") == body + ",\n";
      RStripRemovesSuffix(body, ",\n", {',', '\n'});
    }
  }

  /** Once a prefix of the fields fails, the whole field list fails the same way: the loop
      raises at the first failing field. */
  lemma {:induction false} ColumnDefsErrorPersists(fields: seq<Field>, k: nat, columns: map<Annot, Column>)
    requires k <= |fields| && ColumnDefs(fields[..k], columns).Err?
    ensures ColumnDefs(fields, columns) == ColumnDefs(fields[..k], columns)
    decreases |fields| - k
  {
    if k < |fields| {
      var n := |fields| - 1;
      assert fields[..n][..k] == fields[..k];
      ColumnDefsErrorPersists(fields[..n], k, columns);
    } else {
      assert fields[..k] == fields;
    }
  }

  //
  // INSERT
  //

  /** The parameter a non-rowid field contributes: `to_sqlite_type` of its registered
      column applied to the field's value; or nothing for rowid; or the failure raised. */
  function BindField(f: Field, v: Value, columns: map<Annot, Column>, lib: Lib): Result<Option<(string, Value)>, DbError>
  {
    if f.name == RowId then Ok(None)
    else match ResolveAnnotation(f, columns)
      case Err(e) => Err(e)
      case Ok(c) => match Convert(c.converter, v, lib)
        case Err(e) => Err(e)
        case Ok(x) => Ok(Some((f.name, x)))
  }

  /** The `params` dictionary of `model_to_insert_statement`, in insertion order, or the
      failure of the first field that raises. */
  function InsertParams(fields: seq<Field>, values: seq<Value>, columns: map<Annot, Column>, lib: Lib)
    : Result<seq<(string, Value)>, DbError>
    requires |values| == |fields|
  {
    if fields == [] then Ok([])
    else
      var n := |fields| - 1;
      match InsertParams(fields[..n], values[..n], columns, lib)
      case Err(e) => Err(e)
      case Ok(ps) =>
        match BindField(fields[n], values[n], columns, lib)
        case Err(e) => Err(e)
        case Ok(None) => Ok(ps)
        case Ok(Some(p)) => Ok(ps + [p])
  }

  function Keys(ps: seq<(string, Value)>): (names: seq<string>)
    ensures |names| == |ps| && forall k | 0 <= k < |ps| :: names[k] == ps[k].0
  {
    seq(|ps|, k requires 0 <= k < |ps| => ps[k].0)
  }

  /** The column list of the INSERT statement: each name in double quotes. */
  function Quoted(names: seq<string>): seq<string>
  {
    seq(|names|, k requires 0 <= k < |names| => "\"" + names[k] + "\"")
  }

  /** The VALUES list of the INSERT statement: a named placeholder per name. */
  function Placeholders(names: seq<string>): seq<string>
  {
    seq(|names|, k requires 0 <= k < |names| => ":" + names[k])
  }

  /** The INSERT text built from the parameter names: both lists come from the same
      names, so they have the same length and order. */
  function InsertText(table: string, names: seq<string>): string
  {
    "INSERT INTO " + table + " (" + Join(Quoted(names), ", ") + ") VALUES (" + Join(Placeholders(names), ", ") + ")"
  }

  /** What `model_to_insert_statement` returns for `inst`, or the error it raises. */
  function InsertStatement(inst: Instance, columns: map<Annot, Column>, lib: Lib)
    : Result<(string, seq<(string, Value)>), DbError>
    requires |inst.values| == |inst.rt.fields|
  {
    match InsertParams(inst.rt.fields, inst.values, columns, lib)
    case Err(e) => Err(e)
    case Ok(ps) => Ok((InsertText(TableName(inst.rt, lib), Keys(ps)), ps))
  }

  /** `model_to_insert_statement`: fills `params` field by field, skipping rowid, raising on
      a field without annotation or with an unregistered one, and converting each value
      with its column's converter; then builds the statement from the keys of `params`. */
  method ModelToInsertStatement(inst: Instance, columns: map<Annot, Column>, lib: Lib)
    returns (r: Result<(string, seq<(string, Value)>), DbError>)
    requires WellFormed(inst)
    ensures r == InsertStatement(inst, columns, lib)
  {
    var fields, values := inst.rt.fields, inst.values;
    var table := lib.camelToSnake(inst.rt.name);
    var params: seq<(string, Value)> := [];
    var i := 0;
    while i < |fields|
      invariant 0 <= i <= |fields|
      invariant InsertParams(fields[..i], values[..i], columns, lib) == Ok(params)
    {
      var f := fields[i];
      InsertParamsStep(fields, values, i, columns, lib);
      if f.name == RowId {
        i := i + 1;
        continue;
      }
      if f.annot == NoAnnotation {
        InsertParamsErrorPersists(fields, values, i + 1, columns, lib);
        return Err(UnsupportedFieldType(f.name));
      }
      if f.annot !in columns {
        InsertParamsErrorPersists(fields, values, i + 1, columns, lib);
        return Err(UnregisteredType(f.annot));
      }
      var column := columns[f.annot];
      var raw := values[i];
      var value := Convert(column.converter, raw, lib);
      if value.Err? {
        InsertParamsErrorPersists(fields, values, i + 1, columns, lib);
        return Err(value.error);
      }
      params := params + [(f.name, value.value)];
      i := i + 1;
    }
    assert fields[..i] == fields && values[..i] == values;
    var names := Keys(params);
    r := Ok((InsertText(table, names), params));
  }

  lemma InsertParamsStep(fields: seq<Field>, values: seq<Value>, i: nat, columns: map<Annot, Column>, lib: Lib)
    requires |values| == |fields| && i < |fields|
    ensures InsertParams(fields[..i + 1], values[..i + 1], columns, lib) ==
      match InsertParams(fields[..i], values[..i], columns, lib)
      case Err(e) => Err(e)
      case Ok(ps) =>
        match BindField(fields[i], values[i], columns, lib)
        case Err(e) => Err(e)
        case Ok(None) => Ok(ps)
        case Ok(Some(p)) => Ok(ps + [p])
  {
    assert fields[..i + 1][..i] == fields[..i];
    assert values[..i + 1][..i] == values[..i];
  }

  lemma {:induction false} InsertParamsErrorPersists(fields: seq<Field>, values: seq<Value>, k: nat,
                                                     columns: map<Annot, Column>, lib: Lib)
    requires |values| == |fields| && k <= |fields|
    requires InsertParams(fields[..k], values[..k], columns, lib).Err?
    ensures InsertParams(fields, values, columns, lib) == InsertParams(fields[..k], values[..k], columns, lib)
    decreases |fields| - k
  {
    if k < |fields| {
      var n := |fields| - 1;
      assert fields[..n][..k] == fields[..k];
      assert values[..n][..k] == values[..k];
      InsertParamsErrorPersists(fields[..n], values[..n], k, columns, lib);
    } else {
      assert fields[..k] == fields && values[..k] == values;
    }
  }

  //
  // Properties of the CREATE and INSERT statements
  //

  /** The names of the columns CREATE defines and INSERT fills: every field but rowid, in
      declaration order. */
  function ColumnNames(fields: seq<Field>): (names: seq<string>)
    ensures |names| == |ColumnIndices(fields)|
  {
    var idx := ColumnIndices(fields);
    seq(|idx|, k requires 0 <= k < |idx| => fields[idx[k]].name)
  }

  lemma ColumnIndicesStep(fields: seq<Field>)
    requires fields != []
    ensures var n := |fields| - 1;
      ColumnIndices(fields) == if fields[n].name == RowId then ColumnIndices(fields[..n]) else ColumnIndices(fields[..n]) + [n]
  {
  }

  /** CREATE succeeds exactly when every field other than rowid has a registered
      annotation. */
  lemma {:induction false} ColumnDefsOk(fields: seq<Field>, columns: map<Annot, Column>)
    ensures ColumnDefs(fields, columns).Ok? <==>
      forall i | 0 <= i < |fields| && fields[i].name != RowId :: ResolveAnnotation(fields[i], columns).Ok?
  {
    if fields != [] {
      var n := |fields| - 1;
      var pre := fields[..n];
      ColumnDefsOk(pre, columns);
      assert forall i | 0 <= i < n :: pre[i] == fields[i];
      if !ColumnDefs(pre, columns).Ok? {
        var j :| 0 <= j < n && pre[j].name != RowId && !ResolveAnnotation(pre[j], columns).Ok?;
        assert fields[j] == pre[j];
      }
    }
  }

  /** A successful CREATE defines one column per field other than rowid, in declaration
      order, with the field's name and its column's storage type. */
  lemma {:induction false} ColumnDefsValues(fields: seq<Field>, columns: map<Annot, Column>)
    requires ColumnDefs(fields, columns).Ok?
    ensures var defs := ColumnDefs(fields, columns).value;
      var idx := ColumnIndices(fields);
      && |defs| == |idx|
      && forall k | 0 <= k < |idx| :: fields[idx[k]].annot in columns
           && defs[k] == fields[idx[k]].name + " " + StorageName(columns[fields[idx[k]].annot].sqliteType)
  {
    if fields != [] {
      var n := |fields| - 1;
      var pre := fields[..n];
      assert ColumnDefs(pre, columns).Ok?;
      ColumnDefsValues(pre, columns);
      ColumnIndicesStep(fields);
      assert forall i | 0 <= i < n :: pre[i] == fields[i];
    }
  }

  /** When CREATE fails, the failure is that of the first non-rowid field without a
      registered annotation. */
  lemma {:induction false} ColumnDefsFirstError(fields: seq<Field>, columns: map<Annot, Column>)
    requires ColumnDefs(fields, columns).Err?
    ensures exists i | 0 <= i < |fields| ::
      && fields[i].name != RowId
      && ResolveAnnotation(fields[i], columns) == Err(ColumnDefs(fields, columns).error)
      && forall j | 0 <= j < i && fields[j].name != RowId :: ResolveAnnotation(fields[j], columns).Ok?
  {
    var n := |fields| - 1;
    var pre := fields[..n];
    assert forall i | 0 <= i < n :: pre[i] == fields[i];
    if ColumnDefs(pre, columns).Err? {
      ColumnDefsFirstError(pre, columns);
      var i :| 0 <= i < |pre| && pre[i].name != RowId
        && ResolveAnnotation(pre[i], columns) == Err(ColumnDefs(pre, columns).error)
        && forall j | 0 <= j < i && pre[j].name != RowId :: ResolveAnnotation(pre[j], columns).Ok?;
      assert fields[i] == pre[i];
    } else {
      ColumnDefsOk(pre, columns);
      assert fields[n].name != RowId && ResolveAnnotation(fields[n], columns) == Err(ColumnDefs(fields, columns).error);
    }
  }

  /** The layout of the CREATE statement: "CREATE TABLE <table> (", a newline, the column
      definitions joined by ",\n", a newline and ")"; with no column the rstrip leaves
      "(\n)". Either way the character before the closing "\n)" is never a comma. */
  lemma CreateLayout(rt: RecordType, columns: map<Annot, Column>, lib: Lib)
    requires CreateTable(rt, columns, lib).Ok?
    ensures var r := CreateTable(rt, columns, lib).value;
      var defs := ColumnDefs(rt.fields, columns).value;
      var t := TableName(rt, lib);
      && ColumnDefs(rt.fields, columns).Ok?
      && |defs| == |ColumnIndices(rt.fields)|
      && (defs != [] ==> r == "CREATE TABLE " + t + " (\n" + Join(defs, ",\n") + "\n)")
      && (defs == [] ==> r == "CREATE TABLE " + t + " (\n)")
      && |r| >= 3 && r[|r| - 2..] == "\n)" && r[|r| - 3] != ','
  {
    ColumnDefsValues(rt.fields, columns);
    ColumnDefsEndings(rt.fields, columns);
    CreateTextShape(TableName(rt, lib), ColumnDefs(rt.fields, columns).value);
  }

  lemma CreateTextShape(t: string, defs: seq<string>)
    requires forall k | 0 <= k < |defs| :: |defs[k]| > 0 && defs[k][|defs[k]| - 1] !in {',', '\n'}
    ensures var r := CreateTableText(t, defs);
      && (defs != [] ==> r == "CREATE TABLE " + t + " (\n" + Join(defs, ",\n") + "\n)")
      && (defs == [] ==> r == "CREATE TABLE " + t + " (\n)")
      && |r| >= 3 && r[|r| - 2..] == "\n)" && r[|r| - 3] != ','
  {
    var r := CreateTableText(t, defs);
    if defs != [] {
      JoinEndsWithLastPart(defs, ",\n");
      var body := "CREATE TABLE " + t + " (\n" + Join(defs, ",\n");
      assert r == body + "\n)";
      var last := defs[|defs| - 1];
      assert body[|body| - 1] == last[|last| - 1];
    } else {
      assert r == "CREATE TABLE " + t + " (" + "\n)";
    }
  }

  /** INSERT succeeds exactly when every non-rowid field has a registered annotation whose
      converter accepts the field's value. */
  lemma {:induction false} InsertParamsOk(fields: seq<Field>, values: seq<Value>, columns: map<Annot, Column>, lib: Lib)
    requires |values| == |fields|
    ensures InsertParams(fields, values, columns, lib).Ok? <==>
      forall i | 0 <= i < |fields| && fields[i].name != RowId ::
        ResolveAnnotation(fields[i], columns).Ok? && Convert(columns[fields[i].annot].converter, values[i], lib).Ok?
  {
    if fields != [] {
      var n := |fields| - 1;
      var pre, pvs := fields[..n], values[..n];
      InsertParamsOk(pre, pvs, columns, lib);
      assert forall i | 0 <= i < n :: pre[i] == fields[i] && pvs[i] == values[i];
      if !InsertParams(pre, pvs, columns, lib).Ok? {
        var j :| 0 <= j < n && pre[j].name != RowId &&
          !(ResolveAnnotation(pre[j], columns).Ok? && Convert(columns[pre[j].annot].converter, pvs[j], lib).Ok?);
        assert fields[j] == pre[j] && values[j] == pvs[j];
      }
    }
  }

  /** The parameters INSERT binds: one per non-rowid field, in declaration order, each the
      field's name and its registered converter applied to the field's value. */
  lemma {:induction false} InsertParamsValues(fields: seq<Field>, values: seq<Value>, columns: map<Annot, Column>, lib: Lib)
    requires |values| == |fields|
    requires InsertParams(fields, values, columns, lib).Ok?
    ensures var ps := InsertParams(fields, values, columns, lib).value;
      var idx := ColumnIndices(fields);
      && |ps| == |idx|
      && forall k | 0 <= k < |idx| :: fields[idx[k]].annot in columns
           && Convert(columns[fields[idx[k]].annot].converter, values[idx[k]], lib).Ok?
           && ps[k] == (fields[idx[k]].name, Convert(columns[fields[idx[k]].annot].converter, values[idx[k]], lib).value)
  {
    if fields != [] {
      var n := |fields| - 1;
      var pre, pvs := fields[..n], values[..n];
      InsertParamsValues(pre, pvs, columns, lib);
      ColumnIndicesStep(fields);
      assert forall i | 0 <= i < n :: pre[i] == fields[i] && pvs[i] == values[i];
    }
  }

  /** The INSERT column names are the CREATE column names. */
  lemma InsertNamesAreColumnNames(fields: seq<Field>, values: seq<Value>, columns: map<Annot, Column>, lib: Lib)
    requires |values| == |fields|
    requires InsertParams(fields, values, columns, lib).Ok?
    ensures Keys(InsertParams(fields, values, columns, lib).value) == ColumnNames(fields)
  {
    InsertParamsValues(fields, values, columns, lib);
  }

  /** A built INSERT names, in both its column list and its VALUES list, exactly the
      columns CREATE defines, in declaration order, and binds one parameter per name. */
  lemma InsertColumnAgreement(inst: Instance, columns: map<Annot, Column>, lib: Lib)
    requires WellFormed(inst)
    requires InsertStatement(inst, columns, lib).Ok?
    ensures var (stmt, ps) := InsertStatement(inst, columns, lib).value;
      var names := ColumnNames(inst.rt.fields);
      && stmt == InsertText(TableName(inst.rt, lib), names)
      && |Quoted(names)| == |Placeholders(names)| == |ps| == |names|
      && forall k | 0 <= k < |ps| :: ps[k].0 == names[k]
  {
    InsertNamesAreColumnNames(inst.rt.fields, inst.values, columns, lib);
  }

  /** INSERT and CREATE agree whenever no converter rejects a value: they fail on the same
      field with the same error, and otherwise INSERT binds exactly the columns CREATE
      defines, in the same order. */
  lemma {:induction false} InsertAgreesWithCreate(fields: seq<Field>, values: seq<Value>, columns: map<Annot, Column>, lib: Lib)
    requires |values| == |fields|
    requires forall i | 0 <= i < |fields| && fields[i].annot in columns ::
      Convert(columns[fields[i].annot].converter, values[i], lib).Ok?
    ensures InsertParams(fields, values, columns, lib).Ok? <==> ColumnDefs(fields, columns).Ok?
    ensures InsertParams(fields, values, columns, lib).Err? ==>
      InsertParams(fields, values, columns, lib).error == ColumnDefs(fields, columns).error
    ensures InsertParams(fields, values, columns, lib).Ok? ==>
      |InsertParams(fields, values, columns, lib).value| == |ColumnDefs(fields, columns).value|
  {
    if fields != [] {
      var n := |fields| - 1;
      assert forall i | 0 <= i < n :: fields[..n][i] == fields[i] && values[..n][i] == values[i];
      InsertAgreesWithCreate(fields[..n], values[..n], columns, lib);
    }
  }

  //
  // SELECT
  //

  /** The columns `select_all` and `select` read: every declared field, a declared rowid
      included, then rowid. */
  function SelectColumns(rt: RecordType): seq<string>
  {
    Names(rt.fields) + [RowId]
  }

  /** The statement both `select_all` and `select` execute. */
  function SelectStatement(rt: RecordType, lib: Lib): string
  {
    "SELECT " + Join(SelectColumns(rt), ", ") + " FROM " + TableName(rt, lib)
  }

  /** The SELECT column list: the declared fields in order, then rowid. A declared rowid is
      not skipped here, so rowid is read twice exactly when the record declares it. */
  lemma {:induction false} SelectColumnsLayout(rt: RecordType)
    requires DistinctNames(rt.fields)
    ensures var cols := SelectColumns(rt);
      && |cols| == |rt.fields| + 1 && cols[|rt.fields|] == RowId
      && (forall i | 0 <= i < |rt.fields| :: cols[i] == rt.fields[i].name)
      && multiset(cols)[RowId] == if exists i | 0 <= i < |rt.fields| :: rt.fields[i].name == RowId then 2 else 1
  {
    NamesRowIdCount(rt.fields);
  }

  lemma {:induction false} NamesRowIdCount(fields: seq<Field>)
    requires DistinctNames(fields)
    ensures multiset(Names(fields))[RowId] == if exists i | 0 <= i < |fields| :: fields[i].name == RowId then 1 else 0
  {
    if fields != [] {
      var n := |fields| - 1;
      var pre := fields[..n];
      assert forall i | 0 <= i < n :: pre[i] == fields[i];
      NamesRowIdCount(pre);
      assert Names(fields) == Names(pre) + [fields[n].name];
      if fields[n].name == RowId {
        assert !exists i | 0 <= i < n :: pre[i].name == RowId;
      } else if exists i | 0 <= i < |fields| :: fields[i].name == RowId {
        var i :| 0 <= i < |fields| && fields[i].name == RowId;
        assert pre[i].name == RowId;
      }
    }
  }

  /** SELECT reads back every column INSERT writes, at the position of its field, plus the
      identity column last. */
  lemma SelectCoversInsert(inst: Instance, columns: map<Annot, Column>, lib: Lib)
    requires |inst.values| == |inst.rt.fields|
    requires InsertParams(inst.rt.fields, inst.values, columns, lib).Ok?
    ensures var cols := SelectColumns(inst.rt); var idx := ColumnIndices(inst.rt.fields);
      var ps := InsertParams(inst.rt.fields, inst.values, columns, lib).value;
      && |cols| == |inst.rt.fields| + 1 && cols[|cols| - 1] == RowId
      && |ps| == |idx|
      && forall k | 0 <= k < |ps| :: cols[idx[k]] == ps[k].0
  {
    InsertParamsValues(inst.rt.fields, inst.values, columns, lib);
    var ps := InsertParams(inst.rt.fields, inst.values, columns, lib).value;
    assert forall k | 0 <= k < |ps| :: ps[k].0 == Keys(ps)[k];
  }
}
