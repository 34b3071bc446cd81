/** The type registry of app/db.py: the Column classes, their storage kinds and their
    one-way converters, and the dictionary from Python annotation to Column class that
    every Column subclass adds itself to when it is defined. */
module Registry {
  import opened Outcomes

  /** A field's type annotation, as far as the registry can tell them apart. `NoAnnotation`
      is Python's `None`; `OtherType` is any annotation no built-in column handles
      (`int | None`, `float`, ...). */
  datatype Annot = IntType | StrType | PathType | DateTimeType | JsonType | NoAnnotation | OtherType(name: string)

  /** An object of a library type (a pathlib.Path, a datetime, a parsed Json document)
      that the model does not look inside. */
  datatype LibObject = LibObject(id: nat)

  /** A Python value held by a record field or bound as a statement parameter. */
  datatype Value = IntV(i: int) | StrV(s: string) | PathV(path: LibObject)
                 | DateTimeV(moment: LibObject) | JsonV(doc: LibObject) | NoneV

  /** The library functions the core calls but does not define: `camel_to_snake` from
      app/utils, `str()` and `datetime.isoformat()`. They are uninterpreted here. */
  datatype Lib = Lib(camelToSnake: string -> string, str: Value -> string, isoformat: LibObject -> string)

  /** The four storage classes a Column may declare as its SQLITE_TYPE. */
  datatype StorageType = INTEGER | REAL | TEXT | BLOB

  /** The code of a column's `to_sqlite_type`: return the value, `str(value)`, or
      `value.isoformat()`. */
  datatype Converter = Identity | ToStr | IsoFormat

  /** A Column subclass: its class name, PYTHON_TYPE, SQLITE_TYPE and converter. */
  datatype Column = Column(className: string, pythonType: Annot, sqliteType: StorageType, converter: Converter)

  /** The failures the core raises. `UnsupportedFieldType` is the NotImplementedError for a
      field without annotation, `UnregisteredType` the KeyError of the registry lookup,
      `AttributeError` a converter applied to a value lacking the method it calls, and
      `ConnectionClosed` the error of a statement sent to a connection that is not open. */
  datatype DbError = UnsupportedFieldType(field: string) | UnregisteredType(annot: Annot)
                   | AttributeError(attribute: string) | ConnectionClosed

  function StorageName(t: StorageType): (name: string)
    ensures name in {"INTEGER", "REAL", "TEXT", "BLOB"}
    ensures |name| > 0 && name[|name| - 1] !in {',', '\n'}
  {
    match t
    case INTEGER => "INTEGER"
    case REAL => "REAL"
    case TEXT => "TEXT"
    case BLOB => "BLOB"
  }

  /** Whether `v` is a value pydantic accepts for a field annotated `a`. */
  predicate Matches(a: Annot, v: Value)
  {
    match a
    case IntType => v.IntV?
    case StrType => v.StrV?
    case PathType => v.PathV?
    case DateTimeType => v.DateTimeV?
    case JsonType => v.JsonV?
    case _ => true
  }

  /** `column_class.to_sqlite_type(value)`. */
  function Convert(conv: Converter, v: Value, lib: Lib): Result<Value, DbError>
  {
    match conv
    case Identity => Ok(v)
    case ToStr => Ok(StrV(lib.str(v)))
    case IsoFormat =>
      if v.DateTimeV? then Ok(StrV(lib.isoformat(v.moment))) else Err(AttributeError("isoformat"))
  }

  /** A converter fails only by calling `isoformat` on a value that is not a datetime;
      `return value` and `str(value)` accept every value. */
  lemma ConvertFailure(conv: Converter, v: Value, lib: Lib)
    ensures Convert(conv, v, lib).Err? <==> conv == IsoFormat && !v.DateTimeV?
    ensures Convert(conv, v, lib).Err? ==> Convert(conv, v, lib).error == AttributeError("isoformat")
    ensures Convert(conv, v, lib).Ok? && conv != Identity ==> Convert(conv, v, lib).value.StrV?
  {
  }

  const IntegerColumn := Column("IntegerColumn", IntType, INTEGER, Identity)
  const TextColumn := Column("TextColumn", StrType, TEXT, Identity)
  const PathColumn := Column("PathColumn", PathType, TEXT, ToStr)
  const DateTimeColumn := Column("DateTimeColumn", DateTimeType, TEXT, IsoFormat)
  const JsonColumn := Column("JsonColumn", JsonType, TEXT, ToStr)

  /** The Column subclasses app/db.py defines, in definition order. */
  function Builtins(): seq<Column>
  {
    [IntegerColumn, TextColumn, PathColumn, DateTimeColumn, JsonColumn]
  }

  /** Every entry is keyed by its own column's PYTHON_TYPE. */
  ghost predicate KeyedByType(columns: map<Annot, Column>)
  {
    forall a | a in columns :: columns[a].pythonType == a
  }

  /** The dictionary after defining the classes `cs` in order, starting from `m`. */
  function Registered(m: map<Annot, Column>, cs: seq<Column>): map<Annot, Column>
    decreases |cs|
  {
    if cs == [] then m else Registered(m[cs[0].pythonType := cs[0]], cs[1..])
  }

  /** The last class among `cs` whose PYTHON_TYPE is `a`, if any. */
  function LastFor(cs: seq<Column>, a: Annot): Option<Column>
  {
    if cs == [] then None
    else if cs[|cs| - 1].pythonType == a then Some(cs[|cs| - 1])
    else LastFor(cs[..|cs| - 1], a)
  }

  /** Registration order decides: the last class defined for a type is the one registered,
      types no class names keep their old entry, and nothing else is added. */
  lemma {:induction false} RegisteredLastWins(m: map<Annot, Column>, cs: seq<Column>, a: Annot)
    ensures a in Registered(m, cs) <==> a in m || LastFor(cs, a).Some?
    ensures LastFor(cs, a).Some? ==> Registered(m, cs)[a] == LastFor(cs, a).value
    ensures LastFor(cs, a).None? && a in m ==> Registered(m, cs)[a] == m[a]
    decreases |cs|
  {
    if cs != [] {
      var m' := m[cs[0].pythonType := cs[0]];
      RegisteredLastWins(m', cs[1..], a);
      LastForCons(cs, a);
    }
  }

  /** LastFor seen from the front of the sequence. */
  lemma {:induction false} LastForCons(cs: seq<Column>, a: Annot)
    requires cs != []
    ensures LastFor(cs, a) == if LastFor(cs[1..], a).Some? then LastFor(cs[1..], a)
                             else if cs[0].pythonType == a then Some(cs[0]) else None
  {
    if |cs| > 1 {
      assert cs[1..][..|cs[1..]| - 1] == cs[..|cs| - 1][1..];
      LastForCons(cs[..|cs| - 1], a);
    } else {
      assert cs[..0] == [];
    }
  }

  /** Registering keeps every entry keyed by its own PYTHON_TYPE. */
  lemma {:induction false} RegisteredKeyedByType(m: map<Annot, Column>, cs: seq<Column>)
    requires KeyedByType(m)
    ensures KeyedByType(Registered(m, cs))
    decreases |cs|
  {
    if cs != [] {
      RegisteredKeyedByType(m[cs[0].pythonType := cs[0]], cs[1..]);
    }
  }

  /** The registry once app/db.py is loaded: one entry per built-in column and no other. */
  function BuiltinColumns(): map<Annot, Column>
  {
    map[IntType := IntegerColumn, StrType := TextColumn, PathType := PathColumn,
        DateTimeType := DateTimeColumn, JsonType := JsonColumn]
  }

  lemma BuiltinsRegistered()
    ensures Registered(map[], Builtins()) == BuiltinColumns()
  {
    var cs := Builtins();
    calc {
      Registered(map[], cs);
      Registered(map[IntType := IntegerColumn], cs[1..]);
      Registered(map[IntType := IntegerColumn, StrType := TextColumn], cs[2..]);
      Registered(map[IntType := IntegerColumn, StrType := TextColumn, PathType := PathColumn], cs[3..]);
      Registered(map[IntType := IntegerColumn, StrType := TextColumn, PathType := PathColumn,
                     DateTimeType := DateTimeColumn], cs[4..]);
      Registered(BuiltinColumns(), cs[5..]);
    }
  }

  /** Each built-in converter on a value of its own type: int and str pass through, a Path and
      a Json value become `str(value)`, a datetime becomes `value.isoformat()`; the result
      is an integer exactly for an INTEGER column and a string exactly for a TEXT column. */
  lemma ConverterMapping(a: Annot, v: Value, lib: Lib)
    requires a in BuiltinColumns() && Matches(a, v)
    ensures var c := BuiltinColumns()[a]; var r := Convert(c.converter, v, lib);
      && r.Ok?
      && r.value == (match a
                     case PathType => StrV(lib.str(v))
                     case JsonType => StrV(lib.str(v))
                     case DateTimeType => StrV(lib.isoformat(v.moment))
                     case _ => v)
      && (r.value.IntV? <==> c.sqliteType == INTEGER)
      && (r.value.StrV? <==> c.sqliteType == TEXT)
  {
  }

  /** The global dictionary `python_to_sqlite_types`. */
  class TypeRegistry {
    var columns: map<Annot, Column>

    ghost predicate Valid()
      reads this
    {
      KeyedByType(columns)
    }

    /** The dictionary before any Column subclass is defined. */
    constructor Empty()
      ensures Valid() && columns == map[]
    {
      columns := map[];
    }

    /** The dictionary once app/db.py has defined its five Column subclasses. */
    constructor WithBuiltins()
      ensures Valid() && columns == BuiltinColumns()
    {
      columns := map[];
      new;
      RegisterAll(Builtins());
      BuiltinsRegistered();
    }

    /** `__init_subclass__`: a new Column class registers itself under its PYTHON_TYPE,
        replacing any earlier class for that type. */
    method Register(c: Column)
      requires Valid()
      modifies this
      ensures Valid()
      ensures columns == old(columns)[c.pythonType := c]
    {
      columns := columns[c.pythonType := c];
    }

    /** Defines the classes `cs` one after another. */
    method RegisterAll(cs: seq<Column>)
      requires Valid()
      modifies this
      ensures Valid()
      ensures columns == Registered(old(columns), cs)
    {
      var i := 0;
      while i < |cs|
        invariant 0 <= i <= |cs|
        invariant Valid()
        invariant Registered(old(columns), cs) == Registered(columns, cs[i..])
      {
        assert cs[i..][1..] == cs[i + 1..];
        Register(cs[i]);
        i := i + 1;
      }
    }
  }
}
