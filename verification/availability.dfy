/**
 * What the availability query and the booking operations promise about single bookings:
 * boundaries, the one status that frees a slot, the excluded id, NULLs, reading back a created
 * booking, repeating a cancellation, and the ids `_get_id` reads.
 */
module Availability {
  import opened Results
  import opened Values
  import opened BookingModel
  import opened Backend

  /** Everything the query asks of a row except its status: table, both ends, overlap, not excluded. */
  predicate InWindow(b: BookingRow, tableId: Option<int>, s: Option<Time>, e: Option<Time>, exclude: Option<int>)
  {
    && tableId.Some? && b.table_id == tableId
    && b.starts_at.Some? && b.ends_at.Some? && s.Some? && e.Some?
    && Overlap(b.starts_at.value, b.ends_at.value, s.value, e.value)
    && (exclude.None? || b.id != exclude.value)
  }

  /** A booking that ends when the window starts, or starts when it ends, never blocks it. */
  lemma TouchingNeverBlocks(b: BookingRow, tableId: Option<int>, s: Time, e: Time, exclude: Option<int>)
    requires b.ends_at == Some(s) || b.starts_at == Some(e)
    ensures !Blocks(b, tableId, Some(s), Some(e), exclude)
  {
  }

  /** An active booking on the table that starts with the window, both of positive length, blocks it. */
  lemma IdenticalStartBlocks(b: BookingRow, t: int, s: Time, e: Time, exclude: Option<int>)
    requires Active(b) && b.table_id == Some(t)
    requires b.starts_at == Some(s) && b.ends_at.Some? && b.ends_at.value > s && e > s
    requires exclude.None? || b.id != exclude.value
    ensures Blocks(b, Some(t), Some(s), Some(e), exclude)
  {
  }

  /** So a table holding such a booking is reported unavailable for that window. */
  lemma IdenticalStartUnavailable(st: Store, id: int, s: Time, e: Time)
    requires id in st.rows
    requires Active(st.rows[id]) && st.rows[id].table_id.Some?
    requires st.rows[id].starts_at == Some(s) && st.rows[id].ends_at.Some? && st.rows[id].ends_at.value > s && e > s
    ensures !IsTableAvailable(st, st.rows[id].table_id, Some(s), Some(e), None)
  {
    IdenticalStartBlocks(st.rows[id], st.rows[id].table_id.value, s, e, None);
  }

  /**
   * For a row otherwise in the window, the status decides: it blocks exactly when the status is
   * set and is not the exact string `canceled`.
   */
  lemma OnlyCanceledFrees(b: BookingRow, tableId: Option<int>, s: Option<Time>, e: Option<Time>, exclude: Option<int>)
    requires InWindow(b, tableId, s, e, exclude)
    ensures Blocks(b, tableId, s, e, exclude) <==> b.status.Some? && b.status.value != Canceled
  {
  }

  /** Other ways of writing "canceled", among them the UI's `Отменено`, still block. */
  lemma OtherCancelWordingsBlock(b: BookingRow, tableId: Option<int>, s: Option<Time>, e: Option<Time>, exclude: Option<int>)
    requires InWindow(b, tableId, s, e, exclude)
    requires b.status in {Some("Отменено"), Some("Canceled"), Some("cancelled"), Some("canceled ")}
    ensures Blocks(b, tableId, s, e, exclude)
  {
  }

  /** A NULL table id, start or end in the query makes every comparison UNKNOWN: nothing blocks. */
  lemma NullArgumentNeverBlocks(st: Store, tableId: Option<int>, s: Option<Time>, e: Option<Time>, exclude: Option<int>)
    requires tableId.None? || s.None? || e.None?
    ensures IsTableAvailable(st, tableId, s, e, exclude)
  {
  }

  /**
   * Passing an exclude id ignores that one booking and no other: the answer is the one for the
   * table without that booking and without an exclude id.
   */
  lemma {:induction false} ExcludeOnlyThatOne(st: Store, tableId: Option<int>, s: Option<Time>, e: Option<Time>, x: int)
    requires Valid(st)
    ensures IsTableAvailable(st, tableId, s, e, Some(x)) <==>
            IsTableAvailable(Store(st.rows - {x}, st.nextId), tableId, s, e, None)
  {
    var rest := st.rows - {x};
    forall id | id in st.rows
      ensures Blocks(st.rows[id], tableId, s, e, Some(x)) <==> id in rest && Blocks(rest[id], tableId, s, e, None)
    {
      assert st.rows[id].id == id;
    }
    if IsTableAvailable(st, tableId, s, e, Some(x)) {
      forall id | id in rest ensures !Blocks(rest[id], tableId, s, e, None) {
        assert id in st.rows;
      }
    }
  }

  /** A created booking reads back as the record sent, with the new id and the server timestamps. */
  lemma CreateThenGet(st: Store, b: Booking, now: Time)
    requires Valid(st)
    ensures var r := CreateBooking(st, b, now);
      r.1.Ok? ==> GetBooking(r.0, r.1.value) == Some(b.(id := Some(r.1.value), created_at := Some(now), updated_at := Some(now)))
  {
  }

  /** After `cancel_booking` the booking blocks no window on any table. */
  lemma CancelFreesSlot(st: Store, id: int, reason: Option<string>, now: Time, tableId: Option<int>, s: Option<Time>, e: Option<Time>, exclude: Option<int>)
    requires id in st.rows
    ensures !Blocks(CancelBooking(st, id, reason, now).0.rows[id], tableId, s, e, exclude)
  {
  }

  /**
   * Canceling twice is not an error: the second call again reports one row, the status stays
   * `canceled`, and the table ends as if only the second call had been made.
   */
  lemma CancelTwice(st: Store, id: int, r1: Option<string>, n1: Time, r2: Option<string>, n2: Time)
    ensures CancelBooking(CancelBooking(st, id, r1, n1).0, id, r2, n2) == CancelBooking(st, id, r2, n2)
  {
    if id in st.rows {
      var once := CancelBooking(st, id, r1, n1).0;
      var twice := CancelBooking(once, id, r2, n2).0;
      var direct := CancelBooking(st, id, r2, n2).0;
      assert twice.rows.Keys == direct.rows.Keys;
      assert twice.rows[id] == direct.rows[id];
      assert twice.rows == direct.rows;
    }
  }

  /** `_get_id` reads the id of a RETURNING row in either cursor mode. */
  lemma ReturnedIdRead(n: int)
    ensures GetId(Some(DictRow(map["id" := n]))) == Ok(n)
    ensures GetId(Some(TupleRow([n]))) == Ok(n)
  {
  }

  /** Ids drawn from the sequence start at 1, so the 0 `_get_id` gives for no row is never a real id. */
  lemma CreatedIdIsNotZero(st: Store, b: Booking, now: Time)
    requires Valid(st)
    ensures CreateBooking(st, b, now).1.Ok? ==> CreateBooking(st, b, now).1.value != GetId(None).value
  {
  }
}
