/**
 * The per-table non-overlap invariant of the `bookings` table: no two active bookings on one
 * table share an instant. The guarded paths (`create_booking`, `update_booking_times`) and
 * `cancel_booking` keep it; `set_booking_status` can break it, since it writes any status
 * without consulting the other bookings.
 */
module NoOverlap {
  import opened Results
  import opened Values
  import opened BookingModel
  import opened Backend

  /** Two rows collide: both active, on the same given table, both windows set and overlapping. */
  predicate Clash(a: BookingRow, b: BookingRow)
  {
    && Active(a) && Active(b)
    && a.table_id.Some? && a.table_id == b.table_id
    && a.starts_at.Some? && a.ends_at.Some? && b.starts_at.Some? && b.ends_at.Some?
    && Overlap(a.starts_at.value, a.ends_at.value, b.starts_at.value, b.ends_at.value)
  }

  /** No two distinct rows of the table collide. */
  predicate NoDoubleBooking(st: Store)
  {
    forall i, j :: i in st.rows && j in st.rows && i != j ==> !Clash(st.rows[i], st.rows[j])
  }

  lemma ClashSymmetric(a: BookingRow, b: BookingRow)
    ensures Clash(a, b) <==> Clash(b, a)
  {
  }

  /** For an active row, colliding with a stored row is exactly being blocked by it in the query. */
  lemma ClashIffBlocks(a: BookingRow, b: BookingRow)
    requires Active(a)
    ensures Clash(a, b) <==> Blocks(b, a.table_id, a.starts_at, a.ends_at, None)
  {
  }

  /** A row that is not active collides with nothing. */
  lemma InactiveNeverClashes(a: BookingRow, b: BookingRow)
    requires !Active(a)
    ensures !Clash(a, b) && !Clash(b, a)
  {
  }

  /** Rewriting one row keeps the invariant when the new row collides with none of the others. */
  lemma {:induction false} ReplaceKeeps(st: Store, id: int, row: BookingRow)
    requires NoDoubleBooking(st)
    requires forall k :: k in st.rows && k != id ==> !Clash(row, st.rows[k])
    ensures NoDoubleBooking(Store(st.rows[id := row], st.nextId))
  {
    var rows := st.rows[id := row];
    forall i, j | i in rows && j in rows && i != j
      ensures !Clash(rows[i], rows[j])
    {
      if i == id {
        assert !Clash(row, st.rows[j]);
      } else if j == id {
        assert !Clash(row, st.rows[i]);
        ClashSymmetric(row, st.rows[i]);
      } else {
        assert !Clash(st.rows[i], st.rows[j]);
      }
    }
  }

  /** `create_booking` keeps the invariant: it only stores a booking nothing blocks. */
  lemma CreatePreserves(st: Store, b: Booking, now: Time)
    requires Valid(st) && NoDoubleBooking(st)
    ensures NoDoubleBooking(CreateBooking(st, b, now).0)
  {
    var r := CreateBooking(st, b, now);
    if r.1.Ok? {
      var row := InsertedRow(st.nextId, b, now);
      assert r.0 == Store(st.rows[st.nextId := row], st.nextId + 1);
      forall k | k in st.rows && k != st.nextId
        ensures !Clash(row, st.rows[k])
      {
        if Active(row) {
          ClashIffBlocks(row, st.rows[k]);
        }
      }
      ReplaceKeeps(st, st.nextId, row);
    }
  }

  /**
   * `update_booking_times` keeps the invariant: the new window is checked against every other
   * booking on the booking's own table, and the status and table do not change.
   */
  lemma UpdatePreserves(st: Store, id: int, s: Time, e: Time, guests: int, now: Time)
    requires Valid(st) && NoDoubleBooking(st)
    ensures NoDoubleBooking(UpdateBookingTimes(st, id, s, e, guests, now).0)
  {
    var r := UpdateBookingTimes(st, id, s, e, guests, now);
    if id in st.rows && r.1.Ok? {
      var old_ := st.rows[id];
      var row := old_.(starts_at := Some(s), ends_at := Some(e), guest_count := Some(guests), updated_at := Some(now));
      assert r.0 == Store(st.rows[id := row], st.nextId);
      forall k | k in st.rows && k != id
        ensures !Clash(row, st.rows[k])
      {
        assert st.rows[k].id == k;
        assert !Blocks(st.rows[k], old_.table_id, Some(s), Some(e), Some(id));
      }
      ReplaceKeeps(st, id, row);
    }
  }

  /** `cancel_booking` keeps the invariant: a canceled booking collides with nothing. */
  lemma CancelPreserves(st: Store, id: int, reason: Option<string>, now: Time)
    requires NoDoubleBooking(st)
    ensures NoDoubleBooking(CancelBooking(st, id, reason, now).0)
  {
    if id in st.rows {
      var row := st.rows[id].(status := Some(Canceled), canceled_at := Some(now), cancel_reason := reason, updated_at := Some(now));
      assert CancelBooking(st, id, reason, now).0 == Store(st.rows[id := row], st.nextId);
      forall k | k in st.rows && k != id
        ensures !Clash(row, st.rows[k])
      {
        InactiveNeverClashes(row, st.rows[k]);
      }
      ReplaceKeeps(st, id, row);
    }
  }

  /**
   * `set_booking_status` keeps the invariant when it cancels, or when the booking was already
   * active: the collisions of an active booking do not depend on which active status it has.
   */
  lemma SetStatusPreservesWhen(st: Store, id: int, status: string, now: Time)
    requires NoDoubleBooking(st)
    requires id in st.rows ==> status == Canceled || Active(st.rows[id])
    ensures NoDoubleBooking(SetBookingStatus(st, id, status, now).0)
  {
    if id in st.rows {
      var old_ := st.rows[id];
      var row := old_.(status := Some(status), updated_at := Some(now));
      assert SetBookingStatus(st, id, status, now).0 == Store(st.rows[id := row], st.nextId);
      forall k | k in st.rows && k != id
        ensures !Clash(row, st.rows[k])
      {
        if status == Canceled {
          InactiveNeverClashes(row, st.rows[k]);
        } else {
          assert !Clash(old_, st.rows[k]);
        }
      }
      ReplaceKeeps(st, id, row);
    }
  }

  /** Two bookings of table 1 for 18:00-20:00 and 19:00-21:00 on 2024-01-01; the second is canceled. */
  function TwoBookings(): Store
  {
    var first := BookingRow(1, Some(1), Some(1), Some(1704132000), Some(1704139200), Some(2), Some("Ожидание"),
                            None, None, None, Some(0), Some(0), None, None);
    var second := BookingRow(2, Some(1), Some(1), Some(1704135600), Some(1704142800), Some(2), Some(Canceled),
                             None, None, None, Some(0), Some(0), Some(0), None);
    Store(map[1 := first, 2 := second], 3)
  }

  /**
   * `set_booking_status` breaks the invariant: setting the canceled booking back to the UI's
   * default status `Ожидание` re-activates it on top of the other one, and nothing refuses.
   */
  lemma SetStatusCanBreak(now: Time)
    ensures Valid(TwoBookings()) && NoDoubleBooking(TwoBookings())
    ensures SetBookingStatus(TwoBookings(), 2, "Ожидание", now).1 == 1
    ensures !NoDoubleBooking(SetBookingStatus(TwoBookings(), 2, "Ожидание", now).0)
  {
    var st := TwoBookings();
    assert st.rows.Keys == {1, 2};
    assert !Active(st.rows[2]);
    var st' := SetBookingStatus(st, 2, "Ожидание", now).0;
    assert st'.rows[1] == st.rows[1];
    assert Clash(st'.rows[1], st'.rows[2]);
  }
}
