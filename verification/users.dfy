/** The `User` record (models/users.py): a frozen dataclass and its row mappers. */
module UserModel {
  import opened Results
  import opened Values
  import opened Dataclass

  /** `User.__table__`. */
  const TableName := "users"

  /** The declared fields of `User` in declaration order, each with the class its annotation names. */
  const Fields: seq<(string, Kind)> := [
    ("id", IntKind), ("email", TextKind), ("full_name", TextKind), ("phone", TextKind),
    ("created_at", StampKind), ("updated_at", StampKind)
  ]

  /** `User.__fkeys__`: a user references nothing. */
  const FKeys: map<string, FKey> := map[]

  /** The column list of the INSERT that `create_user` issues. */
  const InsertColumns: seq<string> := ["email", "full_name", "phone"]

  /** The placeholders of the UPDATE that `update_user` issues: the SET columns, then `WHERE id=%s`. */
  const UpdatePlaceholders: seq<string> := InsertColumns + ["id"]

  /** The model class as the schema builder sees it. */
  const Desc: ModelDesc := Describe(TableName, Fields, FKeys)

  datatype User = User(
    id: Option<int>,
    email: Option<string>,
    full_name: Option<string>,
    phone: Option<string>,
    created_at: Option<Time>,
    updated_at: Option<Time>)

  /** `getattr(u, name)` as a cell; Null for a name `User` does not declare. */
  function Attr(u: User, name: string): Value
  {
    match name
    case "id" => OfInt(u.id)
    case "email" => OfText(u.email)
    case "full_name" => OfText(u.full_name)
    case "phone" => OfText(u.phone)
    case "created_at" => OfStamp(u.created_at)
    case "updated_at" => OfStamp(u.updated_at)
    case _ => Null
  }

  /** `User.from_row`: each declared field is read from the column of the same name. */
  function FromRow(row: Row): (u: User)
    ensures WellTyped(row, Fields) ==>
      forall k :: 0 <= k < |Fields| ==> Attr(u, Fields[k].0) == Get(row, Fields[k].0)
  {
    User(
      id := AsInt(Get(row, "id")),
      email := AsText(Get(row, "email")),
      full_name := AsText(Get(row, "full_name")),
      phone := AsText(Get(row, "phone")),
      created_at := AsStamp(Get(row, "created_at")),
      updated_at := AsStamp(Get(row, "updated_at")))
  }

  /** `User.to_insert_params`: the k-th parameter is the attribute the k-th INSERT column names. */
  function ToInsertParams(u: User): (p: seq<Value>)
    ensures |p| == |InsertColumns|
    ensures forall k :: 0 <= k < |p| ==> p[k] == Attr(u, InsertColumns[k])
  {
    [OfText(u.email), OfText(u.full_name), OfText(u.phone)]
  }

  /** `User.to_update_params`: the insert parameters followed by the id that fills `WHERE id=%s`. */
  function ToUpdateParams(u: User): (p: seq<Value>)
    ensures p == ToInsertParams(u) + [Attr(u, "id")]
    ensures |p| == |UpdatePlaceholders|
    ensures forall k :: 0 <= k < |p| ==> p[k] == Attr(u, UpdatePlaceholders[k])
  {
    [OfText(u.email), OfText(u.full_name), OfText(u.phone), OfInt(u.id)]
  }

  /** The dictionary row `SELECT * FROM users` returns for a stored user: each attribute under its field name. */
  function RowOf(u: User): (row: Row)
    ensures WellTyped(row, Fields)
    ensures forall k :: 0 <= k < |Fields| ==> Get(row, Fields[k].0) == Attr(u, Fields[k].0)
  {
    map["id" := OfInt(u.id), "email" := OfText(u.email), "full_name" := OfText(u.full_name),
        "phone" := OfText(u.phone), "created_at" := OfStamp(u.created_at), "updated_at" := OfStamp(u.updated_at)]
  }

  /** `from_row` inverts that row: reading back a user's row gives the user. */
  lemma RecordRoundTrip(u: User)
    ensures FromRow(RowOf(u)) == u
  {
  }

  /** `from_row` reads nothing but the declared columns. */
  lemma FromRowReadsDeclaredOnly(r1: Row, r2: Row)
    requires forall k :: 0 <= k < |Fields| ==> Get(r1, Fields[k].0) == Get(r2, Fields[k].0)
    ensures FromRow(r1) == FromRow(r2)
  {
    assert Fields[0].0 == "id" && Fields[1].0 == "email" && Fields[2].0 == "full_name";
    assert Fields[3].0 == "phone" && Fields[4].0 == "created_at" && Fields[5].0 == "updated_at";
  }

  /** A declared column the row lacks becomes None. */
  lemma MissingColumnsReadAsNone(row: Row)
    ensures forall k :: 0 <= k < |Fields| && Fields[k].0 !in row ==> Attr(FromRow(row), Fields[k].0) == Null
  {
  }

  /** Reading a row and binding it for INSERT gives back the row's email, full name and phone. */
  lemma InsertRoundTrip(row: Row)
    requires WellTyped(row, Fields)
    ensures ToInsertParams(FromRow(row)) == seq(|InsertColumns|, k requires 0 <= k < |InsertColumns| => Get(row, InsertColumns[k]))
  {
    forall k | 0 <= k < |InsertColumns|
      ensures InsertColumns[k] == Fields[k + 1].0
    {
    }
  }

  /**
   * Binding the parameters to the statements' placeholders gives every listed column the
   * attribute of the same name: arity and order agree with the SQL text.
   */
  lemma ParamsBindByName(u: User)
    ensures forall k :: 0 <= k < |InsertColumns| ==>
      Bind(InsertColumns, ToInsertParams(u))[InsertColumns[k]] == Attr(u, InsertColumns[k])
    ensures forall k :: 0 <= k < |UpdatePlaceholders| ==>
      Bind(UpdatePlaceholders, ToUpdateParams(u))[UpdatePlaceholders[k]] == Attr(u, UpdatePlaceholders[k])
  {
    assert Distinct(InsertColumns);
    assert Distinct(UpdatePlaceholders);
  }
}
