/**
 * The booking core of backend.py over an abstract `bookings` table: the availability query and
 * the four booking mutations, each returning the new table with its result or its exception.
 * The server clock (`now()`) is the parameter `now`.
 */
module Backend {
  import opened Results
  import opened Values
  import opened Sql
  import opened BookingModel

  /** The status `cancel_booking` writes; the availability query skips this exact string only. */
  const Canceled := "canceled"

  /** A row of the `bookings` table: the record's twelve columns and the two cancellation columns. */
  datatype BookingRow = BookingRow(
    id: int,
    user_id: Option<int>,
    table_id: Option<int>,
    starts_at: Option<Time>,
    ends_at: Option<Time>,
    guest_count: Option<int>,
    status: Option<string>,
    contact_name: Option<string>,
    contact_phone: Option<string>,
    notes: Option<string>,
    created_at: Option<Time>,
    updated_at: Option<Time>,
    canceled_at: Option<Time>,
    cancel_reason: Option<string>)

  /** The `bookings` table, keyed by id, and the next value of its `id` sequence. */
  datatype Store = Store(rows: map<int, BookingRow>, nextId: int)

  /** Every row sits under its own id, and every id was drawn from the sequence, which starts at 1. */
  predicate Valid(st: Store)
  {
    && st.nextId >= 1
    && forall id :: id in st.rows ==> st.rows[id].id == id && 1 <= id < st.nextId
  }

  /** The cell a row holds under a column name; Null for a name the table does not have. */
  function Cell(b: BookingRow, column: string): Value
  {
    match column
    case "id" => Int(b.id)
    case "user_id" => OfInt(b.user_id)
    case "table_id" => OfInt(b.table_id)
    case "starts_at" => OfStamp(b.starts_at)
    case "ends_at" => OfStamp(b.ends_at)
    case "guest_count" => OfInt(b.guest_count)
    case "status" => OfText(b.status)
    case "contact_name" => OfText(b.contact_name)
    case "contact_phone" => OfText(b.contact_phone)
    case "notes" => OfText(b.notes)
    case "created_at" => OfStamp(b.created_at)
    case "updated_at" => OfStamp(b.updated_at)
    case "canceled_at" => OfStamp(b.canceled_at)
    case "cancel_reason" => OfText(b.cancel_reason)
    case _ => Null
  }

  /** The names of the table's columns. */
  const ColumnNames: set<string> := {
    "id", "user_id", "table_id", "starts_at", "ends_at", "guest_count", "status", "contact_name",
    "contact_phone", "notes", "created_at", "updated_at", "canceled_at", "cancel_reason"
  }

  /** The row as `SELECT *` hands it over through a dictionary cursor: one entry per table column. */
  function AsDict(b: BookingRow): Row
  {
    map c | c in ColumnNames :: Cell(b, c)
  }

  /**
   * `get_booking`: None for an unknown id; otherwise the record `from_row` builds from the stored
   * row, which carries the twelve record columns and drops the two cancellation columns.
   */
  function GetBooking(st: Store, id: int): (r: Option<Booking>)
    ensures r.Some? <==> id in st.rows
    ensures r.Some? ==>
      var b := st.rows[id];
      r.value == Booking(Some(b.id), b.user_id, b.table_id, b.starts_at, b.ends_at, b.guest_count,
                         b.status, b.contact_name, b.contact_phone, b.notes, b.created_at, b.updated_at)
  {
    if id in st.rows then
      ReadBack(st.rows[id]);
      Some(FromRow(AsDict(st.rows[id])))
    else None
  }

  /** Each column of the dictionary row holds the stored cell under that name. */
  lemma ReadBack(b: BookingRow)
    ensures FromRow(AsDict(b)) == Booking(Some(b.id), b.user_id, b.table_id, b.starts_at, b.ends_at, b.guest_count,
                                          b.status, b.contact_name, b.contact_phone, b.notes, b.created_at, b.updated_at)
  {
  }

  /**
   * The WHERE clause of the availability query on one row, evaluated as SQL evaluates it. A row
   * whose compared cells and parameters are all set gets a definite answer; only a NULL among them
   * can leave the clause UNKNOWN. The excluded booking itself never satisfies it.
   */
  function ConflictClause(b: BookingRow, tableId: Option<int>, s: Option<Time>, e: Option<Time>, exclude: Option<int>): (r: Truth)
    ensures r == IsUnknown ==>
      b.table_id.None? || tableId.None? || b.status.None? || b.starts_at.None? || b.ends_at.None? || s.None? || e.None?
    ensures exclude == Some(b.id) ==> r != IsTrue
  {
    var clause := And(And(EqInt(b.table_id, tableId), NeText(b.status, Some(Canceled))),
                      Not(Or(Le(b.ends_at, s), Ge(b.starts_at, e))));
    if exclude.Some? then And(clause, NeInt(Some(b.id), exclude)) else clause
  }

  /** Half-open intervals `[s1, e1)` and `[s2, e2)` share an instant. */
  predicate Overlap(s1: Time, e1: Time, s2: Time, e2: Time)
  {
    s1 < e2 && s2 < e1
  }

  /** A booking takes part in the availability check unless its status is NULL or exactly `canceled`. */
  predicate Active(b: BookingRow)
  {
    b.status.Some? && b.status.value != Canceled
  }

  /**
   * The reading of the query row by row: an active booking on the asked table, with both ends set,
   * whose interval overlaps the fully given window, and which is not the excluded booking.
   */
  predicate Blocks(b: BookingRow, tableId: Option<int>, s: Option<Time>, e: Option<Time>, exclude: Option<int>)
  {
    && Active(b)
    && tableId.Some? && b.table_id == tableId
    && b.starts_at.Some? && b.ends_at.Some? && s.Some? && e.Some?
    && Overlap(b.starts_at.value, b.ends_at.value, s.value, e.value)
    && (exclude.None? || b.id != exclude.value)
  }

  /** The SQL clause is TRUE of a row exactly when that row blocks the window. */
  lemma ClauseTrueIffBlocks(b: BookingRow, tableId: Option<int>, s: Option<Time>, e: Option<Time>, exclude: Option<int>)
    ensures ConflictClause(b, tableId, s, e, exclude) == IsTrue <==> Blocks(b, tableId, s, e, exclude)
  {
  }

  /** `is_table_available`: no stored row satisfies the query, i.e. no booking blocks the window. */
  function IsTableAvailable(st: Store, tableId: Option<int>, s: Option<Time>, e: Option<Time>, exclude: Option<int>): (r: bool)
    ensures r <==> forall id :: id in st.rows ==> !Blocks(st.rows[id], tableId, s, e, exclude)
  {
    assert forall id :: id in st.rows ==>
      (ConflictClause(st.rows[id], tableId, s, e, exclude) == IsTrue <==> Blocks(st.rows[id], tableId, s, e, exclude));
    !exists id :: id in st.rows && ConflictClause(st.rows[id], tableId, s, e, exclude) == IsTrue
  }

  /** The exception `create_booking` and `update_booking_times` raise for an unavailable slot. */
  datatype BookingError = Unavailable

  /**
   * The row an INSERT stores from the cells bound to its listed columns: the id from the
   * sequence, both timestamps from the server clock, no cancellation.
   */
  function StoredRow(id: int, cells: Row, now: Time): (row: BookingRow)
    ensures row.id == id && row.created_at == Some(now) && row.updated_at == Some(now)
    ensures row.canceled_at.None? && row.cancel_reason.None?
  {
    BookingRow(
      id := id,
      user_id := AsInt(Get(cells, "user_id")),
      table_id := AsInt(Get(cells, "table_id")),
      starts_at := AsStamp(Get(cells, "starts_at")),
      ends_at := AsStamp(Get(cells, "ends_at")),
      guest_count := AsInt(Get(cells, "guest_count")),
      status := AsText(Get(cells, "status")),
      contact_name := AsText(Get(cells, "contact_name")),
      contact_phone := AsText(Get(cells, "contact_phone")),
      notes := AsText(Get(cells, "notes")),
      created_at := Some(now),
      updated_at := Some(now),
      canceled_at := None,
      cancel_reason := None)
  }

  /**
   * The row `create_booking` stores for a record: each of the nine listed columns holds the
   * record's own value, the id comes from the sequence, both timestamps from the server clock,
   * and there is no cancellation. The record's id and timestamps are not sent.
   */
  function InsertedRow(id: int, b: Booking, now: Time): (row: BookingRow)
    ensures forall k :: 0 <= k < |InsertColumns| ==> Cell(row, InsertColumns[k]) == Attr(b, InsertColumns[k])
    ensures row.id == id && row.created_at == Some(now) && row.updated_at == Some(now)
    ensures row.canceled_at == None && row.cancel_reason == None
  {
    BookingRow(id, b.user_id, b.table_id, b.starts_at, b.ends_at, b.guest_count, b.status,
               b.contact_name, b.contact_phone, b.notes, Some(now), Some(now), None, None)
  }

  /**
   * The INSERT binds the record's parameters by position to the listed columns; reading those
   * cells back gives exactly the row above.
   */
  lemma InsertStoresBoundParams(id: int, b: Booking, now: Time)
    ensures StoredRow(id, Bind(InsertColumns, ToInsertParams(b)), now) == InsertedRow(id, b, now)
  {
    var row := StoredRow(id, Bind(InsertColumns, ToInsertParams(b)), now);
    InsertCellsKeys(b);
    InsertCellsWindow(b);
    InsertCellsContact(b);
    assert row.user_id == b.user_id && row.table_id == b.table_id && row.starts_at == b.starts_at;
    assert row.ends_at == b.ends_at && row.guest_count == b.guest_count && row.status == b.status;
    assert row.contact_name == b.contact_name && row.contact_phone == b.contact_phone && row.notes == b.notes;
  }

  /**
   * The INSERT's key and size columns receive the record's attributes of the same names. The nine
   * columns are split into three lemmas of three because every literal comparison adds to a proof's cost.
   */
  lemma InsertCellsKeys(b: Booking)
    ensures var cells := Bind(InsertColumns, ToInsertParams(b));
      && Get(cells, "user_id") == OfInt(b.user_id) && Get(cells, "table_id") == OfInt(b.table_id)
      && Get(cells, "guest_count") == OfInt(b.guest_count)
  {
    InsertColumnsDistinct();
    assert InsertColumns[0] == "user_id" && InsertColumns[1] == "table_id" && InsertColumns[4] == "guest_count";
  }

  /** The INSERT's window and status columns receive the record's attributes of the same names. */
  lemma InsertCellsWindow(b: Booking)
    ensures var cells := Bind(InsertColumns, ToInsertParams(b));
      && Get(cells, "starts_at") == OfStamp(b.starts_at) && Get(cells, "ends_at") == OfStamp(b.ends_at)
      && Get(cells, "status") == OfText(b.status)
  {
    InsertColumnsDistinct();
    assert InsertColumns[2] == "starts_at" && InsertColumns[3] == "ends_at" && InsertColumns[5] == "status";
  }

  /** The INSERT's contact columns receive the record's attributes of the same names. */
  lemma InsertCellsContact(b: Booking)
    ensures var cells := Bind(InsertColumns, ToInsertParams(b));
      && Get(cells, "contact_name") == OfText(b.contact_name)
      && Get(cells, "contact_phone") == OfText(b.contact_phone) && Get(cells, "notes") == OfText(b.notes)
  {
    InsertColumnsDistinct();
    assert InsertColumns[6] == "contact_name" && InsertColumns[7] == "contact_phone" && InsertColumns[8] == "notes";
  }

  /**
   * `create_booking`: raises, leaving the table as it was, exactly when some booking blocks the
   * record's table and window; otherwise stores one new row under the next sequence id and
   * returns that id.
   */
  function CreateBooking(st: Store, b: Booking, now: Time): (r: (Store, Result<int, BookingError>))
    ensures r.1.Err? <==> exists id :: id in st.rows && Blocks(st.rows[id], b.table_id, b.starts_at, b.ends_at, None)
    ensures r.1.Err? ==> r.0 == st
    ensures r.1.Ok? ==>
      && r.1.value == st.nextId
      && r.0.nextId == st.nextId + 1
      && r.0.rows.Keys == st.rows.Keys + {r.1.value}
      && r.0.rows[r.1.value] == InsertedRow(r.1.value, b, now)
      && (Valid(st) ==> r.1.value !in st.rows && forall id :: id in st.rows ==> r.0.rows[id] == st.rows[id])
    ensures Valid(st) ==> Valid(r.0)
  {
    if !IsTableAvailable(st, b.table_id, b.starts_at, b.ends_at, None) then
      (st, Err(Unavailable))
    else
      var id := st.nextId;
      var row := InsertedRow(id, b, now);
      var st' := Store(st.rows[id := row], id + 1);
      InsertKeepsValid(st, row);
      (st', Ok(id))
  }

  /** Storing a row under the next sequence id, and advancing the sequence, keeps the table valid. */
  lemma InsertKeepsValid(st: Store, row: BookingRow)
    requires row.id == st.nextId
    ensures Valid(st) ==> Valid(Store(st.rows[st.nextId := row], st.nextId + 1))
    ensures Valid(st) ==> st.nextId !in st.rows
  {
    if Valid(st) {
      var st' := Store(st.rows[st.nextId := row], st.nextId + 1);
      forall k | k in st'.rows ensures st'.rows[k].id == k && 1 <= k < st'.nextId {
        if k != st.nextId { assert k in st.rows; }
      }
    }
  }

  /**
   * `UPDATE bookings SET ... WHERE id=%s`: rewrites the row with that id and reports one affected
   * row, or reports none and changes nothing.
   */
  function UpdateWhereId(st: Store, id: int, change: BookingRow -> BookingRow): (r: (Store, nat))
    ensures r.1 == 1 <==> id in st.rows
    ensures r.1 == 0 <==> r.0 == st && id !in st.rows
    ensures r.0.nextId == st.nextId && r.0.rows.Keys == st.rows.Keys
    ensures forall k :: k in st.rows && k != id ==> r.0.rows[k] == st.rows[k]
    ensures id in st.rows ==> r.0.rows[id] == change(st.rows[id])
  {
    if id in st.rows then (Store(st.rows[id := change(st.rows[id])], st.nextId), 1) else (st, 0)
  }

  /**
   * `update_booking_times`: 0 and no change for an unknown id. Otherwise it raises, leaving the
   * table as it was, exactly when another booking blocks the new window on the booking's own
   * table; else it sets the start, end and guest count (and `updated_at`) of that booking alone.
   */
  function UpdateBookingTimes(st: Store, id: int, s: Time, e: Time, guests: int, now: Time): (r: (Store, Result<nat, BookingError>))
    ensures id !in st.rows ==> r == (st, Ok(0))
    ensures id in st.rows ==>
      (r.1.Err? <==> exists k :: k in st.rows && Blocks(st.rows[k], st.rows[id].table_id, Some(s), Some(e), Some(id)))
    ensures r.1.Err? ==> r.0 == st
    ensures id in st.rows && r.1.Ok? ==>
      && r.1.value == 1
      && r.0.nextId == st.nextId
      && r.0.rows.Keys == st.rows.Keys
      && (forall k :: k in st.rows && k != id ==> r.0.rows[k] == st.rows[k])
      && r.0.rows[id].starts_at == Some(s) && r.0.rows[id].ends_at == Some(e)
      && r.0.rows[id].guest_count == Some(guests) && r.0.rows[id].updated_at == Some(now)
      && r.0.rows[id].(starts_at := st.rows[id].starts_at, ends_at := st.rows[id].ends_at,
                       guest_count := st.rows[id].guest_count, updated_at := st.rows[id].updated_at) == st.rows[id]
    ensures Valid(st) ==> Valid(r.0)
  {
    match GetBooking(st, id)
    case None => (st, Ok(0))
    case Some(bk) =>
      if !IsTableAvailable(st, bk.table_id, Some(s), Some(e), Some(id)) then
        (st, Err(Unavailable))
      else
        var (st', n) := UpdateWhereId(st, id,
          (row: BookingRow) => row.(starts_at := Some(s), ends_at := Some(e), guest_count := Some(guests), updated_at := Some(now)));
        (st', Ok(n))
  }

  /**
   * `set_booking_status`: overwrites the status with any string, without checking a transition
   * or the table's other bookings; 0 and no change for an unknown id.
   */
  function SetBookingStatus(st: Store, id: int, status: string, now: Time): (r: (Store, nat))
    ensures id !in st.rows ==> r == (st, 0)
    ensures id in st.rows ==>
      && r.1 == 1
      && r.0.nextId == st.nextId
      && r.0.rows.Keys == st.rows.Keys
      && (forall k :: k in st.rows && k != id ==> r.0.rows[k] == st.rows[k])
      && r.0.rows[id].status == Some(status) && r.0.rows[id].updated_at == Some(now)
      && r.0.rows[id].(status := st.rows[id].status, updated_at := st.rows[id].updated_at) == st.rows[id]
    ensures Valid(st) ==> Valid(r.0)
  {
    UpdateWhereId(st, id, (row: BookingRow) => row.(status := Some(status), updated_at := Some(now)))
  }

  /**
   * `cancel_booking`: sets the status to `canceled`, stamps `canceled_at`, records the reason
   * (None when none is given) and bumps `updated_at`; 0 and no change for an unknown id. It never
   * raises, whatever the booking's current status.
   */
  function CancelBooking(st: Store, id: int, reason: Option<string>, now: Time): (r: (Store, nat))
    ensures id !in st.rows ==> r == (st, 0)
    ensures id in st.rows ==>
      && r.1 == 1
      && r.0.nextId == st.nextId
      && r.0.rows.Keys == st.rows.Keys
      && (forall k :: k in st.rows && k != id ==> r.0.rows[k] == st.rows[k])
      && r.0.rows[id].status == Some(Canceled)
      && r.0.rows[id].canceled_at == Some(now) && r.0.rows[id].cancel_reason == reason
      && r.0.rows[id].updated_at == Some(now)
      && r.0.rows[id].(status := st.rows[id].status, canceled_at := st.rows[id].canceled_at,
                       cancel_reason := st.rows[id].cancel_reason, updated_at := st.rows[id].updated_at) == st.rows[id]
    ensures Valid(st) ==> Valid(r.0)
  {
    UpdateWhereId(st, id,
      (row: BookingRow) => row.(status := Some(Canceled), canceled_at := Some(now), cancel_reason := reason, updated_at := Some(now)))
  }

  /** A row as `fetchone` returns it: a dictionary (dictionary cursor) or a tuple (plain cursor). */
  datatype Fetched = DictRow(cells: map<string, int>) | TupleRow(items: seq<int>)

  /** The lookup errors `_get_id` can raise on a row without an id. */
  datatype LookupError = KeyError | IndexError

  /** `_get_id`: the id of a returned row — its `id` entry or its first item — or 0 when there is no row. */
  function GetId(row: Option<Fetched>): (r: Result<int, LookupError>)
    ensures row.None? ==> r == Ok(0)
    ensures row.Some? && row.value.DictRow? ==> (r.Ok? <==> "id" in row.value.cells)
    ensures row.Some? && row.value.TupleRow? ==> (r.Ok? <==> |row.value.items| > 0)
    ensures r.Ok? && row.Some? ==> r.value == (if row.value.DictRow? then row.value.cells["id"] else row.value.items[0])
  {
    match row
    case None => Ok(0)
    case Some(DictRow(cells)) => if "id" in cells then Ok(cells["id"]) else Err(KeyError)
    case Some(TupleRow(items)) => if |items| > 0 then Ok(items[0]) else Err(IndexError)
  }
}
