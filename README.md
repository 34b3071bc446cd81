# A verified model of the persistence core and the JUnit result classifier

This project models two parts of a small report-ingestion service in Dafny.

**The mini-ORM of `app/db.py`.** It has five pieces:

- **The type registry.** `python_to_sqlite_types` maps a Python annotation to a `Column` class. Each class has a storage kind (`INTEGER`, `REAL`, `TEXT` or `BLOB`) and a one-way `to_sqlite_type` converter. Defining a subclass registers it, and a later class for the same type replaces the earlier one.
- **The CREATE TABLE compiler.** It works field by field and skips `rowid`. It appends `"name TYPE,\n"` for each field, strips the final separator with `rstrip(",\n")` and closes with `"\n)"`.
- **The INSERT builder.** It builds a `params` dictionary field by field, skipping `rowid`. It then writes the quoted column list and the `:name` placeholder list from the same keys.
- **The SELECT statement.** `select_all` and `select` share it.
- **Two stateful objects.**
  - `SQLiteSession` opens its aiosqlite connection lazily, on the first `async with`, and commits on every scope exit.
  - `ConnectionManager` keeps one session per database location.

**`TestResult.set_result` of `app/schema.py`.** This pydantic validator reads a parsed JUnit `<testcase>` dictionary and records `"xfail"`, `"skipped"`, `"fail"` or `"xpass"` under `"result"`. If it records nothing and the input carries no `"result"` key, the field takes its default, `"pass"`.

Files:

- `outcomes.dfy`: the `Option`, `Result` and `Outcome` datatypes. Every raised exception of the source is an error value of these types.
- `text.dfy`: `str.join` and `str.rstrip`.
- `registry.dfy`:
  - the annotations, values, `Column` classes and converters;
  - the `TypeRegistry` class, whose `columns` map is the global dictionary.
- `statements.dfy`: the CREATE, INSERT and SELECT builders. The CREATE and INSERT loops are methods, each proved equal to a function that states the result. Lemmas about those functions give the layout, the failure conditions and how CREATE and INSERT agree.
- `sessions.dfy`: the `SQLiteSession` and `ConnectionManager` classes.
  - The aiosqlite connection is a state: `Pending` (created by `connect` but not awaited), `Open` or `Closed`.
  - A ghost log records what reaches the database: the connection opening, each executed statement with its parameters, each commit, and the close.
- `schema.dfy`: the classifier.
  - `SetResult` has the loop of the source.
  - It is proved equal to the decision function `Classify` applied through `Apply`.
  - The branch-by-branch properties are lemmas about `Classify`.
- `scenarios.dfy`: the record type and instance of `tests/integration/test_persistence.py`, evaluated on the model, with the exact CREATE, INSERT and SELECT text. It includes the end-to-end test that loads the schema, adds an instance and reads it back.

The library calls the core does not define are fields of a `Lib` value and stay uninterpreted: `camel_to_snake`, `str()` and `datetime.isoformat()`. The scenarios assume only the one known point, `camel_to_snake("TestModel") == "test_model"`.

Behaviour of app/db.py worth noting:

- The CREATE statement puts each column on its own line: `"CREATE TABLE t (\n" + defs joined by ",\n" + "\n)"`.
- The INSERT column list quotes each name, as in `"power_level"`.
- A field with no annotation raises `NotImplementedError` (`UnsupportedFieldType`) before the registry is consulted. An annotation missing from the registry raises `KeyError` at the lookup (`UnregisteredType`).
- `add` over a list executes the INSERTs of the instances before the first failing one, and does not roll them back.
- `__aexit__` commits whether or not the scope raised. This is modelled as written: `Exit` ignores its error argument.
- With no column at all, `rstrip` also eats the newline after `(`. The statement is then `"CREATE TABLE t (\n)"`, and `CreateLayout` states that case separately.

## Model

| member | source | states |
|---|---|---|
| Registry.StorageName | app/db.py:37 | A storage type name is one of INTEGER, REAL, TEXT, BLOB; it is non-empty and never ends in ',' or a newline, so `rstrip(",\n")` cannot eat into it |
| Registry.RegisteredLastWins | app/db.py:39-41 | After defining classes in order, a type is registered iff it was before or some class names it; the last class naming it wins; other entries are unchanged |
| Registry.RegisteredKeyedByType | app/db.py:39-41 | Registration keeps every entry keyed by its own class's PYTHON_TYPE |
| Registry.BuiltinsRegistered | app/db.py:53-94 | Defining the five built-in classes in source order yields exactly the map int→IntegerColumn, str→TextColumn, Path→PathColumn, datetime→DateTimeColumn, Json→JsonColumn |
| Registry.ConverterMapping | app/db.py:57-94 | On a value of its own type each built-in converter succeeds: int and str pass through, Path and Json become `str(value)`, datetime becomes `isoformat()`; the result is an integer iff the column is INTEGER and a string iff it is TEXT |
| Registry.ConvertFailure | app/db.py:83-86 | A converter fails exactly when `isoformat` is called on a value that is not a datetime, with an AttributeError; `str(value)` and `isoformat()` always produce a string |
| Registry.TypeRegistry.Empty | app/db.py:31 | The registry starts as an empty dictionary |
| Registry.TypeRegistry.WithBuiltins | app/db.py:53-94 | Once the module is loaded the registry holds exactly the five built-in columns |
| Registry.TypeRegistry.Register | app/db.py:39-41 | `__init_subclass__` sets the entry for the class's PYTHON_TYPE to the class, overwriting any earlier one, and keeps the registry keyed by type |
| Registry.TypeRegistry.RegisterAll | app/db.py:39-41 | Defining classes one after another yields the `Registered` map, whose meaning `RegisteredLastWins` states |
| Text.RStrip | app/db.py:216 | `rstrip` returns a prefix of its input that does not end in a stripped character, and every removed character is a stripped one |
| Text.RStripRemovesSuffix | app/db.py:216 | rstrip removes exactly a suffix of stripped characters when the text before it does not end in one |
| Text.TerminatedIsJoinPlusSep | app/db.py:211-216 | Appending `part + sep` for every part equals joining the parts with `sep` and adding one `sep` |
| Statements.ColumnIndices | app/db.py:211-213 | The positions that get a column are exactly the fields not named rowid, in increasing order |
| Statements.ResolvedColumnMatches | app/db.py:221-225 | In a registry keyed by type, a field resolves iff it is annotated with a registered type, and then to the class registered for that very type; a missing annotation is reported as NotImplementedError before any lookup |
| Statements.FieldCreateStatement | app/db.py:220-226 | `_get_field_create_statement` succeeds iff the field is annotated with a registered type, and then returns `name TYPE` followed by `",\n"`, where the part before the separator does not end in a separator character; otherwise it raises NotImplementedError for a missing annotation and KeyError for an unregistered one |
| Statements.FieldDef | app/db.py:226 | A column definition is non-empty and does not end in ',' or a newline |
| Statements.GenerateCreateTableStatement | app/db.py:208-218 | The loop with `+=`, `continue`, the raise and the final rstrip returns exactly `CreateTable`: the statement for the column definitions, or the first field's error |
| Statements.ColumnDefsFailsAt | app/db.py:211-214 | The first non-rowid field whose annotation does not resolve decides the error of the whole statement |
| Statements.ColumnDefsErrorPersists | app/db.py:211-214 | Once a prefix of the fields fails, the whole field list fails with the same error |
| Statements.ColumnDefsEndings | app/db.py:226 | No column definition is empty or ends in a separator character |
| Statements.StripFinalSeparator | app/db.py:216-217 | rstrip followed by `"\n)"` removes exactly the last `",\n"` and no character of a column definition |
| Statements.ColumnDefsOk | app/db.py:211-225 | CREATE succeeds iff every non-rowid field has an annotation that is registered |
| Statements.ColumnDefsValues | app/db.py:211-226 | A successful CREATE has one definition per non-rowid field, in declaration order, each `name + " " + storage type` of the field's registered column |
| Statements.ColumnDefsFirstError | app/db.py:211-225 | A failing CREATE fails with the error of the first non-rowid field whose annotation is missing or unregistered, and every earlier such field resolves |
| Statements.CreateLayout | app/db.py:208-218 | The statement is "CREATE TABLE t (\n" + definitions joined by ",\n" + "\n)"; with no definition it is "CREATE TABLE t (\n)"; the character before the closing "\n)" is never a comma |
| Statements.ModelToInsertStatement | app/db.py:96-115 | The loop skipping rowid, raising on a missing or unregistered annotation and converting each value returns exactly `InsertStatement`: the INSERT text built from the parameter names, and the parameters |
| Statements.InsertParamsErrorPersists | app/db.py:99-109 | Once a prefix of the fields fails to bind, the whole INSERT fails with the same error |
| Statements.InsertParamsOk | app/db.py:99-109 | INSERT succeeds iff every non-rowid field has a registered annotation whose converter accepts the field's value |
| Statements.InsertParamsValues | app/db.py:99-109 | The parameters are one per non-rowid field, in declaration order, each the field's name and its registered converter applied to its value |
| Statements.InsertNamesAreColumnNames | app/db.py:99-109 | The INSERT parameter names are the CREATE column names, in the same order |
| Statements.InsertColumnAgreement | app/db.py:111-114 | The quoted column list and the placeholder list are both built from the CREATE column names, have the same length as the parameters, and name the parameters in order |
| Statements.InsertAgreesWithCreate | app/db.py:99-109 | When no converter rejects a value, INSERT and CREATE succeed together; when they fail, they fail with the same error; on success INSERT binds as many values as CREATE defines columns |
| Statements.SelectColumnsLayout | app/db.py:146-148 | The SELECT columns are the declared fields in order and then rowid; because a declared rowid is not skipped, rowid is read twice exactly when the record declares it |
| Statements.SelectCoversInsert | app/db.py:145-149 | SELECT names every declared field at its position, then rowid; every INSERT parameter's name is the SELECT column at its field's position |
| Sessions.AddSingleInstance | app/db.py:139-143 | `add` on a single instance sends exactly that instance's one INSERT when it builds and the connection is open; otherwise it sends nothing and reports the build error or the closed connection |
| Sessions.BuildAllErrorPersists | app/db.py:141-143 | Once an instance fails to build, the instances after it are never built |
| Sessions.AddRunStopPersists | app/db.py:141-143 | Once the add loop stops, on a build error or a refused execute, later instances are not looked at |
| Sessions.AddRunOpen | app/db.py:138-143 | On an open connection `add` executes exactly the built INSERTs with their parameters, in list order, up to the first build error, which it reports |
| Sessions.AddRunNotOpen | app/db.py:138-143 | On a connection that is not open `add` sends nothing; it reports the first instance's build error, or the closed connection |
| Sessions.FromRows | app/db.py:150-155 | One instance per cursor row |
| Sessions.InsertThenSelect | app/db.py:145-155 | Reading back the row an INSERT stored gives the inserted instance, with the assigned rowid in a declared rowid field, when each column stores its value unchanged |
| Sessions.SQLiteSession.constructor | app/db.py:119-121 | A new session has a created but unopened connection, is not initialized, and has sent nothing |
| Sessions.SQLiteSession.Enter | app/db.py:123-128 | The first entry opens the connection, which is the first thing in the log; later entries change nothing; the session itself is returned |
| Sessions.SQLiteSession.Execute | app/db.py:130-133 | On an open connection the statement is sent with its parameters, if given; otherwise it fails and nothing is sent |
| Sessions.SQLiteSession.Commit | app/db.py:135-136 | On an open connection a commit is sent; otherwise it fails and nothing is sent |
| Sessions.SQLiteSession.Add | app/db.py:138-143 | The log grows by exactly the INSERTs of `AddRun`, one per instance in order, with no commit; the result is the run's first error, if any |
| Sessions.SQLiteSession.SelectAll | app/db.py:145-155 | On an open connection it executes `SelectStatement` without parameters and returns one instance per cursor row, in cursor order; otherwise it fails and sends nothing |
| Sessions.SQLiteSession.Select | app/db.py:157-165 | The same statement and the same instance sequence as `SelectAll` |
| Sessions.SQLiteSession.Exit | app/db.py:168-170 | Leaving a scope commits, whatever error the scope raised |
| Sessions.SQLiteSession.Close | app/db.py:172-173 | An open connection is closed and the close is logged; otherwise nothing changes |
| Sessions.ConnectionManager.constructor | app/db.py:178-180 | A manager starts with no session and the given default location |
| Sessions.ConnectionManager.Session | app/db.py:182-191 | A missing location means the default one; a registered location returns its session and changes nothing; a new location adds exactly one entry, a fresh unopened session, and leaves the others unchanged |
| Sessions.ConnectionManager.CloseConnections | app/db.py:193-195 | Every registered session is closed: open ones get a logged close, the others are unchanged |
| Sessions.ConnectionManager.LoadSchema | app/db.py:197-206 | A CREATE build error fails before any session is touched: the map and every session's log and connection state are unchanged; otherwise the resolved location's session, existing or new, receives the CREATE, a commit and the exit commit, ends open unless it was closed (a closed one stays closed and fails), and no other session changes |
| Sessions.ConnectionManager.CreateInScope | app/db.py:204-206 | Inside the scope: open if needed, execute the CREATE, commit, commit on exit; the session ends open, except that a closed session stays closed, fails and receives nothing |
| Schema.ParseVerdict | app/schema.py:49-56 | A value the `result` literal accepts is exactly the text of one verdict |
| Schema.VerdictRoundTrip | app/schema.py:49-56 | Every verdict's string is accepted by the literal as that verdict |
| Schema.VerdictNamesDistinct | app/schema.py:49-56 | Distinct verdicts have distinct strings |
| Schema.Classify | app/schema.py:17-47 | The validator only ever records xfail, skipped, fail or xpass |
| Schema.Apply | app/schema.py:17-47 | Only the "result" key is written: every other entry is unchanged, a recorded verdict's string lands under "result", and with no verdict the dict is returned as it was |
| Schema.SetResult | app/schema.py:17-47 | The branches and the early-exit loop over the property list return exactly `Apply(value, Classify(value))` |
| Schema.SkippedPrecedence | app/schema.py:18-22 | With a skipped element the outcome depends on nothing else: failure and properties are not looked at |
| Schema.SkippedVerdicts | app/schema.py:18-22 | xfail is recorded iff the skipped element is a dict whose `@type` is "pytest.xfail"; skipped iff it is a dict with any other `@type` |
| Schema.FailureVerdict | app/schema.py:23-24 | fail is recorded iff there is no skipped element and there is a failure element, whatever the properties |
| Schema.ScanOutcome | app/schema.py:29-36 | The list scan finds a marker iff a marker comes before any non-dict element, and raises AttributeError iff a non-dict element comes first |
| Schema.XPassVerdict | app/schema.py:25-42 | xpass is recorded iff skipped and failure are absent, properties is a dict, and its property is a marker dict or a list whose first marker precedes any non-dict element |
| Schema.ValueErrorCase | app/schema.py:44-45 | The explicit ValueError is raised iff skipped and failure are absent and the property is a plain string |
| Schema.DefaultPass | app/schema.py:47-56 | With no skipped, failure or properties element nothing is recorded, and the field defaults to "pass" |
| Schema.RecordedVerdict | app/schema.py:49-56 | A recorded verdict is the one the validated field holds |
| Schema.NeverRecordsError | app/schema.py:49-56 | The field is "error" only if the input already said so and no branch fired |
| Scenarios.TestModelColumnDefs | tests/integration/test_persistence.py:8-11 | TestModel's column definitions are "power_level INTEGER" and "name TEXT"; rowid is skipped |
| Scenarios.TestModelCreate | tests/integration/test_persistence.py:45-50 | The CREATE statement for TestModel is the text the test expects |
| Scenarios.AddedParams | tests/integration/test_persistence.py:58-60 | The instance added binds power_level to 1 and name to "test", and rowid is not bound |
| Scenarios.AddedNameLists | app/db.py:111-114 | The INSERT column list is `"power_level", "name"` and the placeholder list is `:power_level, :name` |
| Scenarios.AddedInsert | tests/integration/test_persistence.py:58-61 | The INSERT for the added instance is the expected statement with the two parameters |
| Scenarios.TestModelSelect | tests/integration/test_persistence.py:87-88 | `select_all(TestModel)` reads rowid, power_level, name and then rowid again from test_model |
| Scenarios.UnregisteredFieldFails | app/db.py:106 | A field of an unregistered type makes both CREATE and INSERT fail with the same error |
| Scenarios.AddedReadBack | tests/integration/test_persistence.py:90-95 | The stored row reads back as the added instance with rowid 1 |
| Scenarios.AddedRowValues | tests/integration/test_persistence.py:93-95 | Field by field the stored row reads back as rowid 1, power_level 1 and name "test" |
| Scenarios.LoadTestSchema | tests/integration/test_persistence.py:14-26 | The fixtures leave one open in-memory session that received the expected CREATE and two commits |
| Scenarios.AddInScope | tests/integration/test_persistence.py:83-85 | Adding the instance in a scope sends its INSERT with the parameters it returns, then the explicit commit and the exit commit |
| Scenarios.SelectFromTable | tests/integration/test_persistence.py:77-95 | The whole test on the model: the second scope reuses the same session, the row read back is the parameters the logged INSERT carried with rowid 1, and `select_all` returns one instance with rowid 1, power_level 1 and name "test" |

## Left out

- Asynchrony: every `await`, and the suspension points between them, are modelled as ordinary sequential calls.
- Sessions.SQLiteSession.Select: `select` is an async generator, so it sends its SELECT only when first iterated, and never if nobody iterates it. The model sends the statement at the call and returns the whole sequence the generator would yield, which is the one `select_all` returns.
- The aiosqlite engine itself is not modelled:
  - no table contents and no SQL evaluation;
  - no engine-side failures such as an existing table, a disk error or a constraint.

  The only engine behaviour modelled is that statements and commits on a connection that is not open fail. The rows a SELECT returns are a parameter (`cursor`).
- Rowid assignment is not modelled: identities 1..N for N inserts are engine behaviour. `InsertThenSelect` takes the assigned rowid as a parameter.
- Sessions.InsertThenSelect: states the round trip only for columns whose converter is the identity (int and str). For Path, datetime and Json columns the row holds a string, and turning it back into the library value is pydantic's work.
- Pydantic is not modelled. This covers:
  - `model(**dict(row))` validation and coercion;
  - `model_fields` introspection;
  - `FieldInfo`.

  A record type is an explicit, ordered field list with distinct names. Reconstruction takes each field's value from the row by name.
- `camel_to_snake` (app/utils is not part of this model), `str()` and `datetime.isoformat()` are uninterpreted functions.
- Sessions.ConnectionManager.CloseConnections: does not fix the order in which sessions are closed, because the model iterates a set. The source follows the dictionary's insertion order; each close touches only its own session, so the final state is the same.
- Schema.SetResult: the in-place assignment to the caller's dictionary is modelled as returning the updated map. In the source the caller's dict, and every other reference to it, also gains the "result" key; nothing in the code reads that key afterwards, but the model does not capture this aliasing.
- The `row_factory` assignment in `__aenter__` is not modelled; it only shapes how rows are presented.
- The demo `main()` of app/db.py is not modelled: it does file I/O and printing.
- app/main.py's copy of the classifier is not modelled separately; it is the same code.
- `TestResult.save` is not modelled: it calls `execute()` without a statement.
- Float fields such as `time` and `duration`, and `SuiteReport`'s alias parsing, are not modelled.
- Thread or task interleaving is not modelled: the code is single-threaded.
