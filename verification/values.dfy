/** Cells and rows as the PostgreSQL driver hands them to the record mappers. */
module Values {
  import opened Results

  /** A `datetime`, as a number of seconds on one time line. */
  type Time = int

  /** One cell of a result row: SQL NULL (Python `None`), an integer, a text or a timestamp. */
  datatype Value = Null | Int(i: int) | Text(s: string) | Stamp(t: Time)

  /** A row as a dictionary cursor returns it: column name to cell. */
  type Row = map<string, Value>

  /** `row.get(key)`: the cell under `key`, or None when the row has no such column. */
  function Get(row: Row, key: string): Value
  {
    if key in row then row[key] else Null
  }

  /** The class a field's annotation names besides None: `int`, `str` or `datetime`. */
  datatype Kind = IntKind | TextKind | StampKind

  /** A cell fits a field of kind `k` when it is NULL or a value of that kind. */
  predicate Fits(v: Value, k: Kind)
  {
    match v
    case Null => true
    case Int(_) => k == IntKind
    case Text(_) => k == TextKind
    case Stamp(_) => k == StampKind
  }

  /** Every declared column of `row` holds a value its annotation allows (missing ones read as NULL). */
  predicate WellTyped(row: Row, fields: seq<(string, Kind)>)
  {
    forall k :: 0 <= k < |fields| ==> Fits(Get(row, fields[k].0), fields[k].1)
  }

  /** The cell an `int | None` attribute is bound as. */
  function OfInt(x: Option<int>): (v: Value)
    ensures Fits(v, IntKind)
  {
    match x
    case None => Null
    case Some(i) => Int(i)
  }

  /** The `int | None` attribute a cell populates. */
  function AsInt(v: Value): (x: Option<int>)
    ensures Fits(v, IntKind) ==> OfInt(x) == v
  {
    if v.Int? then Some(v.i) else None
  }

  /** The cell a `str | None` attribute is bound as. */
  function OfText(x: Option<string>): (v: Value)
    ensures Fits(v, TextKind)
  {
    match x
    case None => Null
    case Some(s) => Text(s)
  }

  /** The `str | None` attribute a cell populates. */
  function AsText(v: Value): (x: Option<string>)
    ensures Fits(v, TextKind) ==> OfText(x) == v
  {
    if v.Text? then Some(v.s) else None
  }

  /** The cell a `datetime | None` attribute is bound as. */
  function OfStamp(x: Option<Time>): (v: Value)
    ensures Fits(v, StampKind)
  {
    match x
    case None => Null
    case Some(t) => Stamp(t)
  }

  /** The `datetime | None` attribute a cell populates. */
  function AsStamp(v: Value): (x: Option<Time>)
    ensures Fits(v, StampKind) ==> OfStamp(x) == v
  {
    if v.Stamp? then Some(v.t) else None
  }

  predicate Distinct(names: seq<string>)
  {
    forall i, j :: 0 <= i < j < |names| ==> names[i] != names[j]
  }

  /** Positional parameter binding: the k-th `%s` of a column list receives the k-th parameter. */
  function Bind(columns: seq<string>, params: seq<Value>): (row: Row)
    requires |columns| == |params|
    ensures row.Keys == set c | c in columns
    ensures Distinct(columns) ==> forall k :: 0 <= k < |columns| ==> row[columns[k]] == params[k]
    decreases |columns|
  {
    if columns == [] then map[]
    else
      var rest := Bind(columns[1..], params[1..]);
      assert Distinct(columns) ==> Distinct(columns[1..]);
      assert forall k :: 1 <= k < |columns| ==> columns[k] == columns[1..][k - 1];
      rest[columns[0] := params[0]]
  }
}
