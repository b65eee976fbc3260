/**
 * The schema builder of pg_driver.py: mapping field annotations to SQL types, rendering one
 * `CREATE TABLE IF NOT EXISTS` statement per model, and choosing which models need one.
 */
module PgDriver {
  import opened Results
  import opened Dataclass
  import opened Text

  /** `_PY2SQL`: the eight Python classes with a dedicated SQL type. */
  const Py2Sql: map<PyClass, string> := map[
    IntClass := "INT",
    BoolClass := "BOOLEAN",
    FloatClass := "DOUBLE PRECISION",
    StrClass := "TEXT",
    BytesClass := "BYTEA",
    DatetimeClass := "TIMESTAMPTZ",
    DateClass := "DATE",
    TimeClass := "TIME"
  ]

  /**
   * The first component `_unwrap_optional` returns: a type, or, for a union with None and more
   * than one other member, the Python list of those members.
   */
  datatype Unwrapped = Single(tp: PyType) | Several(tps: seq<PyType>)

  /** The exceptions `build_create_table_ddl` raises. */
  datatype DdlError =
    | NotADataclass   // TypeError: the model is not a dataclass
    | NoTable         // ValueError: `__table__` is missing or empty
    | Unhashable      // TypeError: `_PY2SQL.get` was handed a list

  function Members(u: Unwrapped): seq<PyType>
  {
    match u
    case Single(t) => [t]
    case Several(ts) => ts
  }

  /** The union members that are not `NoneType`, in their order. */
  function WithoutNone(members: seq<PyType>): (r: seq<PyType>)
    ensures forall t :: t in r <==> t in members && t != Plain(NoneClass)
    ensures |r| <= |members|
  {
    if members == [] then []
    else if members[0] == Plain(NoneClass) then WithoutNone(members[1..])
    else [members[0]] + WithoutNone(members[1..])
  }

  /**
   * `_unwrap_optional`: an annotation is optional exactly when it is a union that lists None;
   * then the other members come back (alone when there is one), otherwise the annotation itself.
   */
  function UnwrapOptional(tp: PyType): (r: (Unwrapped, bool))
    ensures r.1 <==> tp.Union? && Plain(NoneClass) in tp.members
    ensures !r.1 ==> r.0 == Single(tp)
    ensures r.1 ==> forall t :: t in Members(r.0) <==> t in tp.members && t != Plain(NoneClass)
  {
    match tp
    case Union(members) =>
      if Plain(NoneClass) in members then
        var others := WithoutNone(members);
        (if |others| == 1 then Single(others[0]) else Several(others), true)
      else
        (Single(tp), false)
    case _ => (Single(tp), false)
  }

  /**
   * `_sql_type`: a class of the type table gets its SQL type, any other type gets TEXT, and a list
   * (which a dictionary lookup cannot hash) raises.
   */
  function SqlType(u: Unwrapped): (r: Result<string, DdlError>)
    ensures r.Err? <==> u.Several?
    ensures r.Err? ==> r.error == Unhashable
    ensures r.Ok? ==> r.value in Py2Sql.Values
    ensures u.Single? && u.tp.Plain? && u.tp.cls in Py2Sql ==> r == Ok(Py2Sql[u.tp.cls])
    ensures u.Single? && !(u.tp.Plain? && u.tp.cls in Py2Sql) ==> r == Ok("TEXT")
  {
    match u
    case Several(_) => Err(Unhashable)
    case Single(t) =>
      assert Py2Sql[StrClass] == "TEXT";
      Ok(if t.Plain? && t.cls in Py2Sql then Py2Sql[t.cls] else "TEXT")
  }

  /**
   * The SQL type of a field: its annotation with None unwrapped, looked up. Only a union of None
   * with no other type or with several others raises; an annotation without None is looked up as is.
   */
  function FieldSqlType(f: FieldDesc): (r: Result<string, DdlError>)
    ensures r.Err? <==>
      f.annotation.Union? && Plain(NoneClass) in f.annotation.members && |WithoutNone(f.annotation.members)| != 1
    ensures !(f.annotation.Union? && Plain(NoneClass) in f.annotation.members) ==> r == SqlType(Single(f.annotation))
  {
    SqlType(UnwrapOptional(f.annotation).0)
  }

  /** Timestamp bookkeeping columns get a server-side default. */
  predicate DefaultsToNow(name: string, sqlType: string)
  {
    (name == "created_at" || name == "updated_at") && sqlType == "TIMESTAMPTZ"
  }

  /**
   * The column definition rendered for one field once its SQL type is known: `id` is the serial
   * primary key whatever its type; any other field is its name, a space and its SQL type, with
   * ` DEFAULT now()` after a TIMESTAMPTZ `created_at` or `updated_at`.
   */
  function ColumnDef(f: FieldDesc, sqlType: string): (r: string)
    ensures f.name == "id" ==> r == "id SERIAL PRIMARY KEY"
    ensures f.name != "id" && DefaultsToNow(f.name, sqlType) ==> r == f.name + " " + sqlType + " DEFAULT now()"
    ensures f.name != "id" && !DefaultsToNow(f.name, sqlType) ==> r == f.name + " " + sqlType
  {
    if f.name == "id" then "id SERIAL PRIMARY KEY"
    else if DefaultsToNow(f.name, sqlType) then
      var words := [f.name, sqlType] + ["DEFAULT now()"];
      assert words[1..] == [sqlType, "DEFAULT now()"] && words[1..][1..] == ["DEFAULT now()"];
      assert Join(" ", words[1..]) == sqlType + " " + "DEFAULT now()";
      var plain := f.name + " " + sqlType;
      assert |plain + " DEFAULT now()"| == |plain| + 14;
      assert Join(" ", words) == plain + " DEFAULT now()";
      Join(" ", words)
    else
      var words := [f.name, sqlType] + [];
      assert words[1..] == [sqlType];
      assert Join(" ", words) == f.name + " " + sqlType;
      Join(" ", words)
  }

  /** The column definitions of all fields, in field order; the first field whose type raises aborts. */
  function ColumnDefs(fields: seq<FieldDesc>): (r: Result<seq<string>, DdlError>)
    ensures r.Ok? <==> forall k :: 0 <= k < |fields| ==> FieldSqlType(fields[k]).Ok?
    ensures r.Ok? ==> |r.value| == |fields|
    ensures r.Ok? ==> forall k :: 0 <= k < |fields| ==> r.value[k] == ColumnDef(fields[k], FieldSqlType(fields[k]).value)
    ensures r.Err? ==> exists k :: 0 <= k < |fields| && FieldSqlType(fields[k]) == Err(r.error)
  {
    if fields == [] then Ok([])
    else
      match FieldSqlType(fields[0])
      case Err(e) => Err(e)
      case Ok(t) =>
        match ColumnDefs(fields[1..])
        case Err(e) => assert fields[1..][0] == fields[1]; Err(e)
        case Ok(rest) => Ok([ColumnDef(fields[0], t)] + rest)
  }

  /** The foreign-key clause for one `__fkeys__` entry. */
  function FkClause(name: string, fk: FKey): string
  {
    "FOREIGN KEY (" + name + ") REFERENCES " + fk.refTable + "(" + fk.refColumn + ") ON DELETE " + fk.onDelete
  }

  /**
   * The foreign-key clauses, one per field named in `fkeys`, in field order; `id` is never given one,
   * so there are at most as many clauses as fields. `FkClausesFromKeyedFields` says which they are.
   */
  function FkClauses(fields: seq<FieldDesc>, fkeys: map<string, FKey>): (r: seq<string>)
    ensures |r| <= |fields|
  {
    if fields == [] then []
    else
      var name := fields[0].name;
      (if name != "id" && name in fkeys then [FkClause(name, fkeys[name])] else [])
        + FkClauses(fields[1..], fkeys)
  }

  /** The first line of the statement. */
  function Header(table: string): string
  {
    "CREATE TABLE IF NOT EXISTS " + table + " ("
  }

  /** `build_create_table_ddl`. */
  function BuildCreateTableDdl(m: ModelDesc): (r: Result<string, DdlError>)
    ensures !m.isDataclass <==> r == Err(NotADataclass)
    ensures r == Err(NoTable) <==> m.isDataclass && (m.table.None? || m.table.value == "")
    ensures r.Ok? <==> m.isDataclass && m.table.Some? && m.table.value != "" && ColumnDefs(m.fields).Ok?
  {
    if !m.isDataclass then Err(NotADataclass)
    else if m.table.None? || m.table.value == "" then Err(NoTable)
    else
      match ColumnDefs(m.fields)
      case Err(e) => assert e == Unhashable; Err(e)
      case Ok(cols) =>
        Ok("CREATE TABLE IF NOT EXISTS " + m.table.value + " (\n  "
           + Join(",\n  ", cols + FkClauses(m.fields, m.fkeys)) + "\n);")
  }

  /** A plain class is not optional and comes back unchanged. */
  lemma UnwrapPlain(c: PyClass)
    ensures UnwrapOptional(Plain(c)) == (Single(Plain(c)), false)
  {
  }

  /**
   * A union of None and exactly one other type (`X | None`, `Optional[X]`, `Union[None, X]`) is
   * optional in that type.
   */
  lemma UnwrapSingleOptional(x: PyType)
    requires x != Plain(NoneClass)
    ensures UnwrapOptional(Union([x, Plain(NoneClass)])) == (Single(x), true)
    ensures UnwrapOptional(Union([Plain(NoneClass), x])) == (Single(x), true)
  {
    assert [x, Plain(NoneClass)][1..] == [Plain(NoneClass)];
    assert [Plain(NoneClass), x][1..] == [x];
    assert WithoutNone([Plain(NoneClass)]) == [];
    assert WithoutNone([x]) == [x];
    assert WithoutNone([x, Plain(NoneClass)]) == [x];
    assert WithoutNone([Plain(NoneClass), x]) == [x];
  }

  /** A union of None and several other types hands back the list of those types, which `_sql_type` cannot look up. */
  lemma UnwrapSeveralOptional(x: PyType, y: PyType)
    requires x != Plain(NoneClass) && y != Plain(NoneClass)
    ensures UnwrapOptional(Union([x, y, Plain(NoneClass)])) == (Several([x, y]), true)
    ensures FieldSqlType(FieldDesc("f", Union([x, y, Plain(NoneClass)]))) == Err(Unhashable)
  {
    var members := [x, y, Plain(NoneClass)];
    assert members[1..] == [y, Plain(NoneClass)] && members[1..][1..] == [Plain(NoneClass)];
    assert WithoutNone([Plain(NoneClass)]) == [];
    assert WithoutNone([y, Plain(NoneClass)]) == [y];
    assert WithoutNone(members) == [x, y];
  }

  /** A union without None is not optional and comes back unchanged. */
  lemma UnwrapUnionWithoutNone(members: seq<PyType>)
    requires Plain(NoneClass) !in members
    ensures UnwrapOptional(Union(members)) == (Single(Union(members)), false)
  {
  }

  /** An SQL type other than TEXT names exactly one Python class: the type table is injective there. */
  lemma SqlTypeDeterminesClass(t1: PyType, t2: PyType, name: string)
    requires SqlType(Single(t1)) == Ok(name) && SqlType(Single(t2)) == Ok(name)
    requires name != "TEXT"
    ensures t1 == t2 && t1.Plain? && t1.cls in Py2Sql
  {
    assert t1.Plain? && t1.cls in Py2Sql;
    assert t2.Plain? && t2.cls in Py2Sql;
    assert Py2Sql[t1.cls] == Py2Sql[t2.cls];
    match t1.cls {
      case IntClass =>
      case BoolClass =>
      case FloatClass =>
      case StrClass =>
      case BytesClass =>
      case DatetimeClass =>
      case DateClass =>
      case TimeClass =>
    }
  }

  /**
   * The shapes of a non-`id` column tell the cases apart: a field is rendered with `DEFAULT now()`
   * exactly when it is a TIMESTAMPTZ `created_at` or `updated_at`, and as its bare name and SQL type
   * exactly otherwise. No other clause (NOT NULL among them) is ever emitted.
   */
  lemma ColumnDefShapes(f: FieldDesc, sqlType: string)
    ensures f.name == "id" ==> ColumnDef(f, sqlType) == "id SERIAL PRIMARY KEY"
    ensures f.name != "id" ==>
      (ColumnDef(f, sqlType) == f.name + " " + sqlType + " DEFAULT now()" <==> DefaultsToNow(f.name, sqlType))
    ensures f.name != "id" ==>
      (ColumnDef(f, sqlType) == f.name + " " + sqlType <==> !DefaultsToNow(f.name, sqlType))
  {
  }

  /** Foreign-key clauses follow field order: the clauses of `a + b` are those of `a`, then those of `b`. */
  lemma {:induction false} FkClausesAppend(a: seq<FieldDesc>, b: seq<FieldDesc>, fkeys: map<string, FKey>)
    ensures FkClauses(a + b, fkeys) == FkClauses(a, fkeys) + FkClauses(b, fkeys)
    decreases |a|
  {
    if a == [] {
      assert a + b == b;
    } else {
      assert (a + b)[1..] == a[1..] + b;
      FkClausesAppend(a[1..], b, fkeys);
    }
  }

  /**
   * Each field named in `__fkeys__` (other than `id`) contributes exactly one clause, at its
   * place in field order; every other field contributes none.
   */
  lemma FkClausesOfField(a: seq<FieldDesc>, f: FieldDesc, b: seq<FieldDesc>, fkeys: map<string, FKey>)
    ensures f.name != "id" && f.name in fkeys ==>
      FkClauses(a + [f] + b, fkeys) == FkClauses(a, fkeys) + [FkClause(f.name, fkeys[f.name])] + FkClauses(b, fkeys)
    ensures !(f.name != "id" && f.name in fkeys) ==>
      FkClauses(a + [f] + b, fkeys) == FkClauses(a, fkeys) + FkClauses(b, fkeys)
  {
    var own := if f.name != "id" && f.name in fkeys then [FkClause(f.name, fkeys[f.name])] else [];
    assert [f][1..] == [];
    assert FkClauses([f], fkeys) == own + FkClauses([], fkeys);
    assert FkClauses([f], fkeys) == own;
    FkClausesAppend(a, [f], fkeys);
    FkClausesAppend(a + [f], b, fkeys);
    assert FkClauses(a + [f] + b, fkeys) == FkClauses(a, fkeys) + own + FkClauses(b, fkeys);
    if own == [] {
      assert FkClauses(a, fkeys) + own == FkClauses(a, fkeys);
    }
  }

  /** Every clause comes from a non-`id` field named in `fkeys`, and every such field has its clause. */
  lemma {:induction false} FkClausesFromKeyedFields(fields: seq<FieldDesc>, fkeys: map<string, FKey>)
    ensures forall c :: c in FkClauses(fields, fkeys) ==>
      exists k :: 0 <= k < |fields| && fields[k].name != "id" && fields[k].name in fkeys &&
                  c == FkClause(fields[k].name, fkeys[fields[k].name])
    ensures forall k :: 0 <= k < |fields| && fields[k].name != "id" && fields[k].name in fkeys ==>
      FkClause(fields[k].name, fkeys[fields[k].name]) in FkClauses(fields, fkeys)
    decreases |fields|
  {
    if fields != [] {
      var rest := fields[1..];
      FkClausesFromKeyedFields(rest, fkeys);
      assert forall k :: 1 <= k < |fields| ==> rest[k - 1] == fields[k];
      forall c | c in FkClauses(fields, fkeys)
        ensures exists k :: 0 <= k < |fields| && fields[k].name != "id" && fields[k].name in fkeys &&
                            c == FkClause(fields[k].name, fkeys[fields[k].name])
      {
        if c !in FkClauses(rest, fkeys) {
          assert c == FkClause(fields[0].name, fkeys[fields[0].name]);
        } else {
          var j :| 0 <= j < |rest| && rest[j].name != "id" && rest[j].name in fkeys &&
                   c == FkClause(rest[j].name, fkeys[rest[j].name]);
          assert fields[j + 1] == rest[j];
        }
      }
    }
  }

  /** `__fkeys__` entries that name no field (and an entry for `id`) change nothing. */
  lemma {:induction false} FkClausesIgnoreUnusedKeys(fields: seq<FieldDesc>, fkeys: map<string, FKey>, other: map<string, FKey>)
    requires forall k :: 0 <= k < |fields| && fields[k].name != "id" ==>
      (fields[k].name in fkeys <==> fields[k].name in other) &&
      (fields[k].name in fkeys ==> fkeys[fields[k].name] == other[fields[k].name])
    ensures FkClauses(fields, fkeys) == FkClauses(fields, other)
    decreases |fields|
  {
    if fields != [] {
      assert forall k :: 1 <= k < |fields| ==> fields[1..][k - 1] == fields[k];
      FkClausesIgnoreUnusedKeys(fields[1..], fkeys, other);
    }
  }

  /** A model without foreign keys gets no FOREIGN KEY clause. */
  lemma {:induction false} NoFkeysNoClauses(fields: seq<FieldDesc>)
    ensures FkClauses(fields, map[]) == []
    decreases |fields|
  {
    if fields != [] {
      NoFkeysNoClauses(fields[1..]);
    }
  }

  /** Each clause on its own line, indented by two spaces, with a comma after every clause but the last. */
  function Indent(parts: seq<string>): (lines: seq<string>)
  {
    seq(|parts|, i requires 0 <= i < |parts| => "  " + parts[i] + (if i + 1 < |parts| then "," else ""))
  }

  lemma {:induction false} JoinIndent(parts: seq<string>)
    requires |parts| > 0
    ensures "  " + Join(",\n  ", parts) == Join("\n", Indent(parts))
    decreases |parts|
  {
    if |parts| > 1 {
      var rest := parts[1..];
      JoinIndent(rest);
      assert Indent(parts)[1..] == Indent(rest);
      assert Indent(parts)[0] == "  " + parts[0] + ",";
      calc {
        "  " + Join(",\n  ", parts);
        "  " + (parts[0] + ",\n  " + Join(",\n  ", rest));
        ("  " + parts[0] + ",") + "\n" + ("  " + Join(",\n  ", rest));
        Indent(parts)[0] + "\n" + Join("\n", Indent(rest));
      }
    }
  }

  /**
   * The layout of a successful statement: a header line, one indented line per column definition
   * (in field order), then one per foreign-key clause, then the closing `);`. The field-less case,
   * where the middle line is left holding only its indent, is `DdlNoFields`.
   */
  lemma DdlLayout(m: ModelDesc)
    requires BuildCreateTableDdl(m).Ok?
    requires |m.fields| > 0
    ensures BuildCreateTableDdl(m).value ==
      Join("\n", [Header(m.table.value)] + Indent(ColumnDefs(m.fields).value + FkClauses(m.fields, m.fkeys)) + [");"])
  {
    var parts := ColumnDefs(m.fields).value + FkClauses(m.fields, m.fkeys);
    var body := Indent(parts);
    JoinIndent(parts);
    JoinAppend("\n", [Header(m.table.value)], body);
    JoinAppend("\n", [Header(m.table.value)] + body, [");"]);
    assert Join("\n", [Header(m.table.value)]) == Header(m.table.value);
    assert Join("\n", [");"]) == ");";
    assert BuildCreateTableDdl(m).value ==
      "CREATE TABLE IF NOT EXISTS " + m.table.value + " (\n  " + Join(",\n  ", parts) + "\n);";
    Regroup(m.table.value, Join(",\n  ", parts));
  }

  /**
   * A dataclass without fields still gets a statement, for a table without columns: a header line,
   * a line holding only the two-space indent, and the closing `);`.
   */
  lemma DdlNoFields(m: ModelDesc)
    requires BuildCreateTableDdl(m).Ok?
    requires m.fields == []
    ensures BuildCreateTableDdl(m).value == Header(m.table.value) + "\n  \n);"
  {
  }

  /** The statement text split at its line breaks. */
  lemma Regroup(table: string, body: string)
    ensures "CREATE TABLE IF NOT EXISTS " + table + " (\n  " + body + "\n);" ==
            Header(table) + "\n" + ("  " + body) + "\n" + ");"
  {
    var lhs := "CREATE TABLE IF NOT EXISTS " + table + " (\n  " + body + "\n);";
    var rhs := Header(table) + "\n" + ("  " + body) + "\n" + ");";
    assert |lhs| == |rhs|;
    forall k | 0 <= k < |lhs| ensures lhs[k] == rhs[k] {
    }
  }

  /** A model takes part in `ensure_schema` only when its `__table__` is set and non-empty. */
  predicate HasTable(m: ModelDesc)
  {
    m.table.Some? && m.table.value != ""
  }

  /** The models `ensure_schema` builds a statement for, in input order: those whose table does not exist yet. */
  function Missing(models: seq<ModelDesc>, existing: set<string>): (r: seq<ModelDesc>)
    ensures forall m :: m in r <==> m in models && HasTable(m) && m.table.value !in existing
    ensures |r| <= |models|
  {
    if models == [] then []
    else
      var m := models[0];
      (if HasTable(m) && m.table.value !in existing then [m] else []) + Missing(models[1..], existing)
  }

  /** The values of a run of calls in order, or the error of the first call that raised. */
  function Sequence(results: seq<Result<string, DdlError>>): (r: Result<seq<string>, DdlError>)
    ensures r.Ok? <==> forall k :: 0 <= k < |results| ==> results[k].Ok?
    ensures r.Ok? ==> |r.value| == |results|
    ensures r.Ok? ==> forall k :: 0 <= k < |results| ==> r.value[k] == results[k].value
    ensures r.Err? ==>
      exists k :: 0 <= k < |results| && results[k] == Err(r.error) && forall j :: 0 <= j < k ==> results[j].Ok?
  {
    if results == [] then Ok([])
    else
      match results[0]
      case Err(e) => Err(e)
      case Ok(ddl) =>
        assert forall k :: 1 <= k < |results| ==> results[1..][k - 1] == results[k];
        match Sequence(results[1..])
        case Err(e) =>
          var k :| 0 <= k < |results| - 1 && results[1..][k] == Err(e) && forall j :: 0 <= j < k ==> results[1..][j].Ok?;
          assert results[k + 1] == Err(e) && forall j :: 0 <= j < k + 1 ==> results[j].Ok?;
          Err(e)
        case Ok(rest) => Ok([ddl] + rest)
  }

  /** The statements for the given models in order; the first model whose statement raises aborts. */
  function BuildAll(models: seq<ModelDesc>): (r: Result<seq<string>, DdlError>)
    ensures r.Ok? <==> forall k :: 0 <= k < |models| ==> BuildCreateTableDdl(models[k]).Ok?
    ensures r.Ok? ==> |r.value| == |models|
    ensures r.Ok? ==> forall k :: 0 <= k < |models| ==> r.value[k] == BuildCreateTableDdl(models[k]).value
    ensures r.Err? ==>
      exists k :: 0 <= k < |models| && BuildCreateTableDdl(models[k]) == Err(r.error) &&
                  forall j :: 0 <= j < k ==> BuildCreateTableDdl(models[j]).Ok?
  {
    var results := seq(|models|, k requires 0 <= k < |models| => BuildCreateTableDdl(models[k]));
    assert forall k :: 0 <= k < |models| ==> results[k] == BuildCreateTableDdl(models[k]);
    Sequence(results)
  }

  /** What `ensure_schema` ends with: no call at all, or one `create_tables` call with these statements. */
  datatype SchemaAction = NothingToCreate | CreateTables(ddls: seq<string>)

  /**
   * `ensure_schema`, with the tables that already exist given as a set: models without a table
   * are skipped, a statement is built for every other model whose table is missing, and
   * `create_tables` is called only when there is at least one statement. A model that reaches
   * the builder has a table, so the missing-table error cannot surface here.
   */
  function EnsureSchema(models: seq<ModelDesc>, existing: set<string>): (r: Result<SchemaAction, DdlError>)
    ensures r == Ok(NothingToCreate) <==> Missing(models, existing) == []
    ensures r.Ok? && r.value.CreateTables? ==>
      |r.value.ddls| == |Missing(models, existing)| > 0 &&
      forall k :: 0 <= k < |r.value.ddls| ==> BuildCreateTableDdl(Missing(models, existing)[k]) == Ok(r.value.ddls[k])
    ensures r.Err? <==> exists m :: m in Missing(models, existing) && BuildCreateTableDdl(m).Err?
    ensures r.Err? ==>
      exists k :: 0 <= k < |Missing(models, existing)| && BuildCreateTableDdl(Missing(models, existing)[k]) == Err(r.error) &&
                  forall j :: 0 <= j < k ==> BuildCreateTableDdl(Missing(models, existing)[j]).Ok?
    ensures r.Err? ==> r.error != NoTable
  {
    var todo := Missing(models, existing);
    match BuildAll(todo)
    case Err(e) =>
      var k :| 0 <= k < |todo| && BuildCreateTableDdl(todo[k]) == Err(e) &&
               forall j :: 0 <= j < k ==> BuildCreateTableDdl(todo[j]).Ok?;
      assert todo[k] in todo && HasTable(todo[k]);
      Err(e)
    case Ok(ddls) =>
      AllBuilt(todo);
      if ddls == [] then Ok(NothingToCreate) else Ok(CreateTables(ddls))
  }

  lemma AllBuilt(todo: seq<ModelDesc>)
    requires BuildAll(todo).Ok?
    ensures forall m :: m in todo ==> BuildCreateTableDdl(m).Ok?
  {
    forall m | m in todo
      ensures BuildCreateTableDdl(m).Ok?
    {
      var k :| 0 <= k < |todo| && todo[k] == m;
    }
  }

  /** The selection keeps input order: the models missing from `a + b` are those of `a`, then those of `b`. */
  lemma {:induction false} MissingAppend(a: seq<ModelDesc>, b: seq<ModelDesc>, existing: set<string>)
    ensures Missing(a + b, existing) == Missing(a, existing) + Missing(b, existing)
    decreases |a|
  {
    if a == [] {
      assert a + b == b;
    } else {
      assert (a + b)[1..] == a[1..] + b;
      MissingAppend(a[1..], b, existing);
    }
  }

  /** When every model's table already exists, nothing is missing. */
  lemma {:induction false} MissingNoneWhenAllExist(models: seq<ModelDesc>, existing: set<string>)
    requires forall k :: 0 <= k < |models| && HasTable(models[k]) ==> models[k].table.value in existing
    ensures Missing(models, existing) == []
    decreases |models|
  {
    if models != [] {
      assert forall k :: 1 <= k < |models| ==> models[1..][k - 1] == models[k];
      MissingNoneWhenAllExist(models[1..], existing);
    }
  }

  /** Once the tables it asked for exist, a second `ensure_schema` over the same models issues nothing. */
  lemma EnsureSchemaSettles(models: seq<ModelDesc>, existing: set<string>)
    ensures EnsureSchema(models, existing + set m | m in Missing(models, existing) :: m.table.value)
      == Ok(NothingToCreate)
  {
    var created := set m | m in Missing(models, existing) :: m.table.value;
    forall k | 0 <= k < |models| && HasTable(models[k])
      ensures models[k].table.value in existing + created
    {
      if models[k].table.value !in existing {
        assert models[k] in Missing(models, existing);
      }
    }
    MissingNoneWhenAllExist(models, existing + created);
  }
}
