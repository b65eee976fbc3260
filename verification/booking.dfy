/** The `Booking` record (models/booking.py): a frozen dataclass and its row mappers. */
module BookingModel {
  import opened Results
  import opened Values
  import opened Dataclass

  /** `Booking.__table__`. */
  const TableName := "bookings"

  /** The declared fields of `Booking` in declaration order, each with the class its annotation names. */
  const Fields: seq<(string, Kind)> := [
    ("id", IntKind), ("user_id", IntKind), ("table_id", IntKind),
    ("starts_at", StampKind), ("ends_at", StampKind), ("guest_count", IntKind),
    ("status", TextKind), ("contact_name", TextKind), ("contact_phone", TextKind),
    ("notes", TextKind), ("created_at", StampKind), ("updated_at", StampKind)
  ]

  /** `Booking.__fkeys__`: a user's bookings go with the user; a booked table cannot be deleted. */
  const FKeys: map<string, FKey> := map[
    "user_id" := FKey("users", "id", "CASCADE"),
    "table_id" := FKey("tables", "id", "RESTRICT")
  ]

  /** The column list of the INSERT that `create_booking` issues. */
  const InsertColumns: seq<string> := [
    "user_id", "table_id", "starts_at", "ends_at", "guest_count",
    "status", "contact_name", "contact_phone", "notes"
  ]

  /**
   * The order of `Booking.to_update_params`: the columns of the INSERT, then the id, as an
   * `UPDATE bookings SET <insert columns> WHERE id=%s` would need them. No operation of the backend
   * issues that statement: `update_booking_times` binds its own list (start, end, guests, id).
   */
  const UpdatePlaceholders: seq<string> := InsertColumns + ["id"]

  /** The model class as the schema builder sees it. */
  const Desc: ModelDesc := Describe(TableName, Fields, FKeys)

  datatype Booking = Booking(
    id: Option<int>,
    user_id: Option<int>,
    table_id: Option<int>,
    starts_at: Option<Time>,
    ends_at: Option<Time>,
    guest_count: Option<int>,
    status: Option<string>,
    contact_name: Option<string>,
    contact_phone: Option<string>,
    notes: Option<string>,
    created_at: Option<Time>,
    updated_at: Option<Time>)

  /** `getattr(b, name)` as a cell; Null for a name `Booking` does not declare. */
  function Attr(b: Booking, name: string): Value
  {
    match name
    case "id" => OfInt(b.id)
    case "user_id" => OfInt(b.user_id)
    case "table_id" => OfInt(b.table_id)
    case "starts_at" => OfStamp(b.starts_at)
    case "ends_at" => OfStamp(b.ends_at)
    case "guest_count" => OfInt(b.guest_count)
    case "status" => OfText(b.status)
    case "contact_name" => OfText(b.contact_name)
    case "contact_phone" => OfText(b.contact_phone)
    case "notes" => OfText(b.notes)
    case "created_at" => OfStamp(b.created_at)
    case "updated_at" => OfStamp(b.updated_at)
    case _ => Null
  }

  /** `Booking.from_row`: each declared field is read from the column of the same name. */
  function FromRow(row: Row): (b: Booking)
    ensures WellTyped(row, Fields) ==>
      forall k :: 0 <= k < |Fields| ==> Attr(b, Fields[k].0) == Get(row, Fields[k].0)
  {
    Booking(
      id := AsInt(Get(row, "id")),
      user_id := AsInt(Get(row, "user_id")),
      table_id := AsInt(Get(row, "table_id")),
      starts_at := AsStamp(Get(row, "starts_at")),
      ends_at := AsStamp(Get(row, "ends_at")),
      guest_count := AsInt(Get(row, "guest_count")),
      status := AsText(Get(row, "status")),
      contact_name := AsText(Get(row, "contact_name")),
      contact_phone := AsText(Get(row, "contact_phone")),
      notes := AsText(Get(row, "notes")),
      created_at := AsStamp(Get(row, "created_at")),
      updated_at := AsStamp(Get(row, "updated_at")))
  }

  /** `Booking.to_insert_params`: the k-th parameter is the attribute the k-th INSERT column names. */
  function ToInsertParams(b: Booking): (p: seq<Value>)
    ensures |p| == |InsertColumns|
    ensures forall k :: 0 <= k < |p| ==> p[k] == Attr(b, InsertColumns[k])
  {
    [OfInt(b.user_id), OfInt(b.table_id), OfStamp(b.starts_at), OfStamp(b.ends_at), OfInt(b.guest_count),
     OfText(b.status), OfText(b.contact_name), OfText(b.contact_phone), OfText(b.notes)]
  }

  /** `Booking.to_update_params`, which the backend never calls: the insert parameters followed by the id. */
  function ToUpdateParams(b: Booking): (p: seq<Value>)
    ensures p == ToInsertParams(b) + [Attr(b, "id")]
    ensures |p| == |UpdatePlaceholders|
    ensures forall k :: 0 <= k < |p| ==> p[k] == Attr(b, UpdatePlaceholders[k])
  {
    [OfInt(b.user_id), OfInt(b.table_id), OfStamp(b.starts_at), OfStamp(b.ends_at), OfInt(b.guest_count),
     OfText(b.status), OfText(b.contact_name), OfText(b.contact_phone), OfText(b.notes), OfInt(b.id)]
  }

  /** The dictionary row holding each attribute of `b` under its field name. */
  function RowOf(b: Booking): (row: Row)
    ensures WellTyped(row, Fields)
    ensures forall k :: 0 <= k < |Fields| ==> Get(row, Fields[k].0) == Attr(b, Fields[k].0)
  {
    map["id" := OfInt(b.id), "user_id" := OfInt(b.user_id), "table_id" := OfInt(b.table_id),
        "starts_at" := OfStamp(b.starts_at), "ends_at" := OfStamp(b.ends_at),
        "guest_count" := OfInt(b.guest_count), "status" := OfText(b.status),
        "contact_name" := OfText(b.contact_name), "contact_phone" := OfText(b.contact_phone),
        "notes" := OfText(b.notes), "created_at" := OfStamp(b.created_at), "updated_at" := OfStamp(b.updated_at)]
  }

  /** `from_row` inverts that row: reading back a booking's row gives the booking. */
  lemma RecordRoundTrip(b: Booking)
    ensures FromRow(RowOf(b)) == b
  {
  }

  /** `from_row` reads nothing but the declared columns: extra columns such as `canceled_at` are dropped. */
  lemma FromRowReadsDeclaredOnly(r1: Row, r2: Row)
    requires forall k :: 0 <= k < |Fields| ==> Get(r1, Fields[k].0) == Get(r2, Fields[k].0)
    ensures FromRow(r1) == FromRow(r2)
  {
    assert Fields[0].0 == "id" && Fields[1].0 == "user_id" && Fields[2].0 == "table_id";
    assert Fields[3].0 == "starts_at" && Fields[4].0 == "ends_at" && Fields[5].0 == "guest_count";
    assert Fields[6].0 == "status" && Fields[7].0 == "contact_name" && Fields[8].0 == "contact_phone";
    assert Fields[9].0 == "notes" && Fields[10].0 == "created_at" && Fields[11].0 == "updated_at";
  }

  /** A declared column the row lacks becomes None. */
  lemma MissingColumnsReadAsNone(row: Row)
    ensures forall k :: 0 <= k < |Fields| && Fields[k].0 !in row ==> Attr(FromRow(row), Fields[k].0) == Null
  {
  }

  /** Reading a row and binding it for INSERT gives back the row's cells for the nine INSERT columns. */
  lemma InsertRoundTrip(row: Row)
    requires WellTyped(row, Fields)
    ensures ToInsertParams(FromRow(row)) == seq(|InsertColumns|, k requires 0 <= k < |InsertColumns| => Get(row, InsertColumns[k]))
  {
    forall k | 0 <= k < |InsertColumns|
      ensures InsertColumns[k] == Fields[k + 1].0
    {
    }
  }

  /**
   * Binding the parameters to the statements' placeholders gives every listed column the
   * attribute of the same name: arity and order agree with the SQL text.
   */
  lemma ParamsBindByName(b: Booking)
    ensures forall k :: 0 <= k < |InsertColumns| ==>
      Get(Bind(InsertColumns, ToInsertParams(b)), InsertColumns[k]) == Attr(b, InsertColumns[k])
    ensures forall k :: 0 <= k < |UpdatePlaceholders| ==>
      Get(Bind(UpdatePlaceholders, ToUpdateParams(b)), UpdatePlaceholders[k]) == Attr(b, UpdatePlaceholders[k])
  {
    InsertColumnsDistinct();
    UpdatePlaceholdersDistinct();
  }

  lemma InsertColumnsDistinct()
    ensures Distinct(InsertColumns)
  {
  }

  lemma UpdatePlaceholdersDistinct()
    ensures Distinct(UpdatePlaceholders)
  {
    InsertColumnsDistinct();
    assert "id" !in InsertColumns;
    forall i, j | 0 <= i < j < |UpdatePlaceholders|
      ensures UpdatePlaceholders[i] != UpdatePlaceholders[j]
    {
      assert UpdatePlaceholders[i] == InsertColumns[i];
      if j < |InsertColumns| { assert UpdatePlaceholders[j] == InsertColumns[j]; }
    }
  }
}
