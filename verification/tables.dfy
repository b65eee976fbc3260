/** The `Table` record (models/tables.py): a frozen dataclass and its row mappers. */
module TableModel {
  import opened Results
  import opened Values
  import opened Dataclass

  /** `Table.__table__`. */
  const TableName := "tables"

  /** The declared fields of `Table` in declaration order, each with the class its annotation names. */
  const Fields: seq<(string, Kind)> := [
    ("id", IntKind), ("number", IntKind), ("capacity", IntKind), ("zone", TextKind),
    ("status", TextKind), ("notes", TextKind), ("created_at", StampKind), ("updated_at", StampKind)
  ]

  /** `Table.__fkeys__`: a table references nothing. */
  const FKeys: map<string, FKey> := map[]

  /** The column list of the INSERT that `create_table_rec` issues. */
  const InsertColumns: seq<string> := ["number", "capacity", "zone", "status", "notes"]

  /** The placeholders of the UPDATE that `update_table_rec` issues: the SET columns, then `WHERE id=%s`. */
  const UpdatePlaceholders: seq<string> := InsertColumns + ["id"]

  /** The model class as the schema builder sees it. */
  const Desc: ModelDesc := Describe(TableName, Fields, FKeys)

  datatype Table = Table(
    id: Option<int>,
    number: Option<int>,
    capacity: Option<int>,
    zone: Option<string>,
    status: Option<string>,
    notes: Option<string>,
    created_at: Option<Time>,
    updated_at: Option<Time>)

  /** `getattr(t, name)` as a cell; Null for a name `Table` does not declare. */
  function Attr(t: Table, name: string): Value
  {
    match name
    case "id" => OfInt(t.id)
    case "number" => OfInt(t.number)
    case "capacity" => OfInt(t.capacity)
    case "zone" => OfText(t.zone)
    case "status" => OfText(t.status)
    case "notes" => OfText(t.notes)
    case "created_at" => OfStamp(t.created_at)
    case "updated_at" => OfStamp(t.updated_at)
    case _ => Null
  }

  /** `Table.from_row`: each declared field is read from the column of the same name. */
  function FromRow(row: Row): (t: Table)
    ensures WellTyped(row, Fields) ==>
      forall k :: 0 <= k < |Fields| ==> Attr(t, Fields[k].0) == Get(row, Fields[k].0)
  {
    Table(
      id := AsInt(Get(row, "id")),
      number := AsInt(Get(row, "number")),
      capacity := AsInt(Get(row, "capacity")),
      zone := AsText(Get(row, "zone")),
      status := AsText(Get(row, "status")),
      notes := AsText(Get(row, "notes")),
      created_at := AsStamp(Get(row, "created_at")),
      updated_at := AsStamp(Get(row, "updated_at")))
  }

  /** `Table.to_insert_params`: the k-th parameter is the attribute the k-th INSERT column names. */
  function ToInsertParams(t: Table): (p: seq<Value>)
    ensures |p| == |InsertColumns|
    ensures forall k :: 0 <= k < |p| ==> p[k] == Attr(t, InsertColumns[k])
  {
    [OfInt(t.number), OfInt(t.capacity), OfText(t.zone), OfText(t.status), OfText(t.notes)]
  }

  /** `Table.to_update_params`: the insert parameters followed by the id that fills `WHERE id=%s`. */
  function ToUpdateParams(t: Table): (p: seq<Value>)
    ensures p == ToInsertParams(t) + [Attr(t, "id")]
    ensures |p| == |UpdatePlaceholders|
    ensures forall k :: 0 <= k < |p| ==> p[k] == Attr(t, UpdatePlaceholders[k])
  {
    [OfInt(t.number), OfInt(t.capacity), OfText(t.zone), OfText(t.status), OfText(t.notes), OfInt(t.id)]
  }

  /** The dictionary row `SELECT * FROM tables` returns for a stored table: each attribute under its field name. */
  function RowOf(t: Table): (row: Row)
    ensures WellTyped(row, Fields)
    ensures forall k :: 0 <= k < |Fields| ==> Get(row, Fields[k].0) == Attr(t, Fields[k].0)
  {
    map["id" := OfInt(t.id), "number" := OfInt(t.number), "capacity" := OfInt(t.capacity),
        "zone" := OfText(t.zone), "status" := OfText(t.status), "notes" := OfText(t.notes),
        "created_at" := OfStamp(t.created_at), "updated_at" := OfStamp(t.updated_at)]
  }

  /** `from_row` inverts that row: reading back a table's row gives the table. */
  lemma RecordRoundTrip(t: Table)
    ensures FromRow(RowOf(t)) == t
  {
  }

  /** `from_row` reads nothing but the declared columns. */
  lemma FromRowReadsDeclaredOnly(r1: Row, r2: Row)
    requires forall k :: 0 <= k < |Fields| ==> Get(r1, Fields[k].0) == Get(r2, Fields[k].0)
    ensures FromRow(r1) == FromRow(r2)
  {
    assert Fields[0].0 == "id" && Fields[1].0 == "number" && Fields[2].0 == "capacity";
    assert Fields[3].0 == "zone" && Fields[4].0 == "status" && Fields[5].0 == "notes";
    assert Fields[6].0 == "created_at" && Fields[7].0 == "updated_at";
  }

  /** A declared column the row lacks becomes None. */
  lemma MissingColumnsReadAsNone(row: Row)
    ensures forall k :: 0 <= k < |Fields| && Fields[k].0 !in row ==> Attr(FromRow(row), Fields[k].0) == Null
  {
  }

  /** Reading a row and binding it for INSERT gives back the row's number, capacity, zone, status and notes. */
  lemma InsertRoundTrip(row: Row)
    requires WellTyped(row, Fields)
    ensures ToInsertParams(FromRow(row)) == seq(|InsertColumns|, k requires 0 <= k < |InsertColumns| => Get(row, InsertColumns[k]))
  {
    forall k | 0 <= k < |InsertColumns|
      ensures InsertColumns[k] == Fields[k + 1].0
    {
    }
  }

  /**
   * Binding the parameters to the statements' placeholders gives every listed column the
   * attribute of the same name: arity and order agree with the SQL text.
   */
  lemma ParamsBindByName(t: Table)
    ensures forall k :: 0 <= k < |InsertColumns| ==>
      Bind(InsertColumns, ToInsertParams(t))[InsertColumns[k]] == Attr(t, InsertColumns[k])
    ensures forall k :: 0 <= k < |UpdatePlaceholders| ==>
      Bind(UpdatePlaceholders, ToUpdateParams(t))[UpdatePlaceholders[k]] == Attr(t, UpdatePlaceholders[k])
  {
    assert Distinct(InsertColumns);
    assert Distinct(UpdatePlaceholders);
  }
}
