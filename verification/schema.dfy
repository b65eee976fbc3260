/**
 * The tables `create_tables` asks for: the statements `build_create_table_ddl` renders for the
 * three record classes, and the gap between the generated `bookings` table and the columns the
 * booking operations write.
 */
module Schema {
  import opened Results
  import opened Values
  import opened Dataclass
  import opened Text
  import opened PgDriver
  import BookingModel
  import TableModel
  import UserModel
  import Backend

  /**
   * The column definition expected for a field annotated `X | None`, written out directly: the
   * serial key for `id`, otherwise the name and SQL type, with the server default for the two
   * TIMESTAMPTZ bookkeeping columns.
   */
  function Rendered(name: string, kind: Kind): string
  {
    var t := Py2Sql[ClassOf(kind)];
    if name == "id" then "id SERIAL PRIMARY KEY"
    else if DefaultsToNow(name, t) then name + " " + t + " DEFAULT now()"
    else name + " " + t
  }

  /** A field annotated `X | None` for one of the record classes gets the SQL type of X. */
  lemma OptionalFieldType(name: string, kind: Kind)
    ensures FieldSqlType(FieldDesc(name, Optional(ClassOf(kind)))) == Ok(Py2Sql[ClassOf(kind)])
  {
    UnwrapSingleOptional(Plain(ClassOf(kind)));
  }

  /** The column definitions of a described record class are the expected ones, in field order. */
  lemma DescribedColumns(table: string, fields: seq<(string, Kind)>, fkeys: map<string, FKey>)
    ensures ColumnDefs(Describe(table, fields, fkeys).fields) ==
            Ok(seq(|fields|, k requires 0 <= k < |fields| => Rendered(fields[k].0, fields[k].1)))
  {
    var fs := Describe(table, fields, fkeys).fields;
    var expected := seq(|fields|, k requires 0 <= k < |fields| => Rendered(fields[k].0, fields[k].1));
    forall k | 0 <= k < |fs|
      ensures FieldSqlType(fs[k]) == Ok(Py2Sql[ClassOf(fields[k].1)])
      ensures ColumnDef(fs[k], Py2Sql[ClassOf(fields[k].1)]) == expected[k]
    {
      assert fs[k] == FieldDesc(fields[k].0, Optional(ClassOf(fields[k].1)));
      OptionalFieldType(fields[k].0, fields[k].1);
      ColumnDefShapes(fs[k], Py2Sql[ClassOf(fields[k].1)]);
    }
    var r := ColumnDefs(fs);
    assert r.Ok?;
    assert |r.value| == |expected|;
    assert forall k :: 0 <= k < |fs| ==> r.value[k] == expected[k];
    assert r.value == expected;
  }

  /** The SQL names of the three annotation classes the records use. */
  lemma KindNames()
    ensures Py2Sql[ClassOf(IntKind)] == "INT" && Py2Sql[ClassOf(TextKind)] == "TEXT"
    ensures Py2Sql[ClassOf(StampKind)] == "TIMESTAMPTZ"
  {
  }

  /** The two bookkeeping timestamps as every record class declares them. */
  lemma StampDefaults()
    ensures Rendered("created_at", StampKind) == "created_at TIMESTAMPTZ DEFAULT now()"
    ensures Rendered("updated_at", StampKind) == "updated_at TIMESTAMPTZ DEFAULT now()"
  {
    CreatedAtDefault();
    UpdatedAtDefault();
  }

  lemma CreatedAtDefault()
    ensures Rendered("created_at", StampKind) == "created_at TIMESTAMPTZ DEFAULT now()"
  {
    KindNames();
    assert DefaultsToNow("created_at", "TIMESTAMPTZ");
  }

  lemma UpdatedAtDefault()
    ensures Rendered("updated_at", StampKind) == "updated_at TIMESTAMPTZ DEFAULT now()"
  {
    KindNames();
    assert DefaultsToNow("updated_at", "TIMESTAMPTZ");
  }

  /** `users` gets its six columns, with the server default on both timestamps, and no foreign key. */
  lemma UsersDdl(m: ModelDesc)
    requires m == UserModel.Desc
    ensures BuildCreateTableDdl(m).Ok?
    ensures var cols := ColumnDefs(m.fields).value;
      && |cols| == 6
      && cols[0] == "id SERIAL PRIMARY KEY" && cols[1] == "email TEXT" && cols[2] == "full_name TEXT"
      && cols[3] == "phone TEXT" && cols[4] == "created_at TIMESTAMPTZ DEFAULT now()"
      && cols[5] == "updated_at TIMESTAMPTZ DEFAULT now()"
    ensures FkClauses(m.fields, m.fkeys) == []
  {
    DescribedColumns(UserModel.TableName, UserModel.Fields, UserModel.FKeys);
    NoFkeysNoClauses(m.fields);
    UsersRendered();
  }

  /** The rendered columns of `users`, proved apart from `UsersDdl` to keep its proof small. */
  lemma UsersRendered()
    ensures var fs := UserModel.Fields;
      && Rendered(fs[0].0, fs[0].1) == "id SERIAL PRIMARY KEY"
      && Rendered(fs[1].0, fs[1].1) == "email TEXT" && Rendered(fs[2].0, fs[2].1) == "full_name TEXT"
      && Rendered(fs[3].0, fs[3].1) == "phone TEXT"
      && Rendered(fs[4].0, fs[4].1) == "created_at TIMESTAMPTZ DEFAULT now()"
      && Rendered(fs[5].0, fs[5].1) == "updated_at TIMESTAMPTZ DEFAULT now()"
  {
    var fs := UserModel.Fields;
    assert fs[4] == ("created_at", StampKind) && fs[5] == ("updated_at", StampKind);
    StampDefaults();
    UsersRenderedText();
  }

  /** The three TEXT columns of `users`; kept apart because every literal comparison adds to a proof's cost. */
  lemma UsersRenderedText()
    ensures var fs := UserModel.Fields;
      && Rendered(fs[1].0, fs[1].1) == "email TEXT" && Rendered(fs[2].0, fs[2].1) == "full_name TEXT"
      && Rendered(fs[3].0, fs[3].1) == "phone TEXT"
  {
    KindNames();
  }

  /** `tables` gets its eight columns and no foreign key. */
  lemma TablesDdl(m: ModelDesc)
    requires m == TableModel.Desc
    ensures BuildCreateTableDdl(m).Ok?
    ensures var cols := ColumnDefs(m.fields).value;
      && |cols| == 8
      && cols[0] == "id SERIAL PRIMARY KEY" && cols[1] == "number INT" && cols[2] == "capacity INT"
      && cols[3] == "zone TEXT" && cols[4] == "status TEXT" && cols[5] == "notes TEXT"
      && cols[6] == "created_at TIMESTAMPTZ DEFAULT now()" && cols[7] == "updated_at TIMESTAMPTZ DEFAULT now()"
    ensures FkClauses(m.fields, m.fkeys) == []
  {
    DescribedColumns(TableModel.TableName, TableModel.Fields, TableModel.FKeys);
    NoFkeysNoClauses(m.fields);
    TablesRendered();
  }

  /** The rendered columns of `tables`, proved apart from `TablesDdl` to keep its proof small. */
  lemma TablesRendered()
    ensures var fs := TableModel.Fields;
      && Rendered(fs[0].0, fs[0].1) == "id SERIAL PRIMARY KEY"
      && Rendered(fs[1].0, fs[1].1) == "number INT" && Rendered(fs[2].0, fs[2].1) == "capacity INT"
      && Rendered(fs[3].0, fs[3].1) == "zone TEXT" && Rendered(fs[4].0, fs[4].1) == "status TEXT"
      && Rendered(fs[5].0, fs[5].1) == "notes TEXT"
      && Rendered(fs[6].0, fs[6].1) == "created_at TIMESTAMPTZ DEFAULT now()"
      && Rendered(fs[7].0, fs[7].1) == "updated_at TIMESTAMPTZ DEFAULT now()"
  {
    var fs := TableModel.Fields;
    assert fs[6] == ("created_at", StampKind) && fs[7] == ("updated_at", StampKind);
    StampDefaults();
    TablesRenderedNumbers();
    TablesRenderedText();
  }

  /** The INT columns of `tables`; kept apart because every literal comparison adds to a proof's cost. */
  lemma TablesRenderedNumbers()
    ensures var fs := TableModel.Fields;
      Rendered(fs[1].0, fs[1].1) == "number INT" && Rendered(fs[2].0, fs[2].1) == "capacity INT"
  {
    KindNames();
  }

  /** The TEXT columns of `tables`, kept apart for the same reason. */
  lemma TablesRenderedText()
    ensures var fs := TableModel.Fields;
      && Rendered(fs[3].0, fs[3].1) == "zone TEXT" && Rendered(fs[4].0, fs[4].1) == "status TEXT"
      && Rendered(fs[5].0, fs[5].1) == "notes TEXT"
  {
    KindNames();
  }

  /**
   * `bookings` gets the twelve columns of the record and, after them, the two foreign keys in
   * field order: user_id to users.id with CASCADE, table_id to tables.id with RESTRICT.
   */
  lemma BookingsDdl(m: ModelDesc)
    requires m == BookingModel.Desc
    ensures BuildCreateTableDdl(m).Ok?
    ensures var cols := ColumnDefs(m.fields).value;
      && |cols| == 12
      && cols[0] == "id SERIAL PRIMARY KEY" && cols[1] == "user_id INT" && cols[2] == "table_id INT"
      && cols[3] == "starts_at TIMESTAMPTZ" && cols[4] == "ends_at TIMESTAMPTZ" && cols[5] == "guest_count INT"
      && cols[6] == "status TEXT" && cols[7] == "contact_name TEXT" && cols[8] == "contact_phone TEXT"
      && cols[9] == "notes TEXT" && cols[10] == "created_at TIMESTAMPTZ DEFAULT now()"
      && cols[11] == "updated_at TIMESTAMPTZ DEFAULT now()"
    ensures FkClauses(m.fields, m.fkeys) == [
      FkClause("user_id", FKey("users", "id", "CASCADE")), FkClause("table_id", FKey("tables", "id", "RESTRICT"))]
  {
    BookingColumns(m.fields);
    BookingForeignKeys(m.fields);
  }

  /** The twelve column definitions of `bookings`: the keys and the booked window first. */
  lemma BookingColumns(fields: seq<FieldDesc>)
    requires fields == BookingModel.Desc.fields
    ensures ColumnDefs(fields).Ok?
    ensures var cols := ColumnDefs(fields).value;
      && |cols| == 12
      && cols[0] == "id SERIAL PRIMARY KEY" && cols[1] == "user_id INT" && cols[2] == "table_id INT"
      && cols[3] == "starts_at TIMESTAMPTZ" && cols[4] == "ends_at TIMESTAMPTZ" && cols[5] == "guest_count INT"
      && cols[6] == "status TEXT" && cols[7] == "contact_name TEXT" && cols[8] == "contact_phone TEXT"
      && cols[9] == "notes TEXT" && cols[10] == "created_at TIMESTAMPTZ DEFAULT now()"
      && cols[11] == "updated_at TIMESTAMPTZ DEFAULT now()"
  {
    DescribedColumns(BookingModel.TableName, BookingModel.Fields, BookingModel.FKeys);
    BookingRenderedHead();
    BookingRenderedTail();
  }

  /** The first six columns of `bookings`, proved apart from `BookingColumns` to keep its proof small. */
  lemma BookingRenderedHead()
    ensures var fs := BookingModel.Fields;
      && Rendered(fs[0].0, fs[0].1) == "id SERIAL PRIMARY KEY"
      && Rendered(fs[1].0, fs[1].1) == "user_id INT" && Rendered(fs[2].0, fs[2].1) == "table_id INT"
      && Rendered(fs[3].0, fs[3].1) == "starts_at TIMESTAMPTZ" && Rendered(fs[4].0, fs[4].1) == "ends_at TIMESTAMPTZ"
      && Rendered(fs[5].0, fs[5].1) == "guest_count INT"
  {
    BookingRenderedKeys();
    BookingRenderedWindow();
  }

  /**
   * The INT columns of `bookings`. Each group of at most three literal comparisons is its own
   * lemma, since every comparison adds to a proof's cost.
   */
  lemma BookingRenderedKeys()
    ensures var fs := BookingModel.Fields;
      && Rendered(fs[1].0, fs[1].1) == "user_id INT" && Rendered(fs[2].0, fs[2].1) == "table_id INT"
      && Rendered(fs[5].0, fs[5].1) == "guest_count INT"
  {
    KindNames();
  }

  /** The two TIMESTAMPTZ window columns of `bookings`, a group of its own for the same reason. */
  lemma BookingRenderedWindow()
    ensures var fs := BookingModel.Fields;
      Rendered(fs[3].0, fs[3].1) == "starts_at TIMESTAMPTZ" && Rendered(fs[4].0, fs[4].1) == "ends_at TIMESTAMPTZ"
  {
    KindNames();
  }

  /** The last six columns of `bookings`, proved apart from `BookingColumns` to keep its proof small. */
  lemma BookingRenderedTail()
    ensures var fs := BookingModel.Fields;
      && Rendered(fs[6].0, fs[6].1) == "status TEXT" && Rendered(fs[7].0, fs[7].1) == "contact_name TEXT"
      && Rendered(fs[8].0, fs[8].1) == "contact_phone TEXT" && Rendered(fs[9].0, fs[9].1) == "notes TEXT"
      && Rendered(fs[10].0, fs[10].1) == "created_at TIMESTAMPTZ DEFAULT now()"
      && Rendered(fs[11].0, fs[11].1) == "updated_at TIMESTAMPTZ DEFAULT now()"
  {
    var fs := BookingModel.Fields;
    assert fs[10] == ("created_at", StampKind) && fs[11] == ("updated_at", StampKind);
    StampDefaults();
    BookingRenderedStatus();
    BookingRenderedContact();
  }

  /** The status and notes columns of `bookings`, a group of its own for the same reason. */
  lemma BookingRenderedStatus()
    ensures var fs := BookingModel.Fields;
      Rendered(fs[6].0, fs[6].1) == "status TEXT" && Rendered(fs[9].0, fs[9].1) == "notes TEXT"
  {
    KindNames();
  }

  /** The contact columns of `bookings`, a group of its own for the same reason. */
  lemma BookingRenderedContact()
    ensures var fs := BookingModel.Fields;
      Rendered(fs[7].0, fs[7].1) == "contact_name TEXT" && Rendered(fs[8].0, fs[8].1) == "contact_phone TEXT"
  {
    KindNames();
  }

  /** The foreign-key clauses of the booking fields: only `user_id` and `table_id` have an entry. */
  lemma BookingForeignKeys(fs: seq<FieldDesc>)
    requires fs == BookingModel.Desc.fields
    ensures FkClauses(fs, BookingModel.FKeys) == [
      FkClause("user_id", FKey("users", "id", "CASCADE")), FkClause("table_id", FKey("tables", "id", "RESTRICT"))]
  {
    var fkeys := BookingModel.FKeys;
    var head, tail := fs[..3], fs[3..];
    assert fs == head + tail;
    FkClausesAppend(head, tail, fkeys);
    KeyFieldClauses(head);
    forall k | 0 <= k < |tail|
      ensures tail[k].name !in fkeys
    {
      assert tail[k] == fs[k + 3];
    }
    FkClausesIgnoreUnusedKeys(tail, fkeys, map[]);
    NoFkeysNoClauses(tail);
  }

  /** The first three booking fields, `id`, `user_id` and `table_id`, give the two clauses. */
  lemma KeyFieldClauses(head: seq<FieldDesc>)
    requires head == BookingModel.Desc.fields[..3]
    ensures FkClauses(head, BookingModel.FKeys) == [
      FkClause("user_id", FKey("users", "id", "CASCADE")), FkClause("table_id", FKey("tables", "id", "RESTRICT"))]
  {
    var fkeys := BookingModel.FKeys;
    assert head[0].name == "id" && head[1].name == "user_id" && head[2].name == "table_id";
    assert head[1..] == [head[1], head[2]] && head[1..][1..] == [head[2]] && head[1..][1..][1..] == [];
    assert fkeys["user_id"] == FKey("users", "id", "CASCADE") && fkeys["table_id"] == FKey("tables", "id", "RESTRICT");
    assert FkClauses(head[1..][1..], fkeys) == [FkClause("table_id", fkeys["table_id"])];
    assert FkClauses(head[1..], fkeys) == [FkClause("user_id", fkeys["user_id"]), FkClause("table_id", fkeys["table_id"])];
  }

  /** The names of the columns a descriptor's statement creates: one per field. */
  function DeclaredColumns(m: ModelDesc): set<string>
  {
    set k | 0 <= k < |m.fields| :: m.fields[k].name
  }

  /** The columns the INSERT of `create_booking` writes. */
  const InsertWrites: set<string> := set c | c in BookingModel.InsertColumns

  /** The SET list of the UPDATE of `update_booking_times`. */
  const UpdateTimesWrites: set<string> := {"starts_at", "ends_at", "guest_count", "updated_at"}

  /** The SET list of the UPDATE of `set_booking_status`. */
  const SetStatusWrites: set<string> := {"status", "updated_at"}

  /** The SET list of the UPDATE of `cancel_booking`. */
  const CancelWrites: set<string> := {"status", "canceled_at", "cancel_reason", "updated_at"}

  /** Every column a booking operation writes. */
  const WrittenColumns: set<string> := InsertWrites + UpdateTimesWrites + SetStatusWrites + CancelWrites

  /** The columns the statement for `Booking` creates are its twelve field names. */
  lemma GeneratedBookingColumns(m: ModelDesc)
    requires m == BookingModel.Desc
    ensures DeclaredColumns(m) == {
      "id", "user_id", "table_id", "starts_at", "ends_at", "guest_count", "status", "contact_name",
      "contact_phone", "notes", "created_at", "updated_at"}
  {
    var names := {
      "id", "user_id", "table_id", "starts_at", "ends_at", "guest_count", "status", "contact_name",
      "contact_phone", "notes", "created_at", "updated_at"};
    forall k | 0 <= k < |m.fields| ensures m.fields[k].name in names {
      assert m.fields[k].name == BookingModel.Fields[k].0;
    }
    forall k | 0 <= k < |m.fields| ensures m.fields[k].name in DeclaredColumns(m) {
    }
    assert m.fields[0].name == "id" && m.fields[1].name == "user_id" && m.fields[2].name == "table_id";
    assert m.fields[3].name == "starts_at" && m.fields[4].name == "ends_at" && m.fields[5].name == "guest_count";
    assert m.fields[6].name == "status" && m.fields[7].name == "contact_name" && m.fields[8].name == "contact_phone";
    assert m.fields[9].name == "notes" && m.fields[10].name == "created_at" && m.fields[11].name == "updated_at";
  }

  /**
   * As written, the generated `bookings` table has no `canceled_at` and no `cancel_reason`
   * column, yet `cancel_booking` sets both: on a database the model created, that statement fails.
   */
  lemma GeneratedBookingsLackCancelColumns(m: ModelDesc)
    requires m == BookingModel.Desc
    ensures "canceled_at" in CancelWrites && "canceled_at" !in DeclaredColumns(m)
    ensures "cancel_reason" in CancelWrites && "cancel_reason" !in DeclaredColumns(m)
  {
    GeneratedBookingColumns(m);
  }

  /** The other booking statements find all their columns in the generated table. */
  lemma GeneratedBookingsHaveOtherColumns(m: ModelDesc)
    requires m == BookingModel.Desc
    ensures InsertWrites + UpdateTimesWrites + SetStatusWrites <= DeclaredColumns(m)
  {
    GeneratedBookingColumns(m);
    InsertWritesNamed();
  }

  lemma InsertWritesNamed()
    ensures InsertWrites == {
      "user_id", "table_id", "starts_at", "ends_at", "guest_count", "status", "contact_name", "contact_phone", "notes"}
  {
    var cs := BookingModel.InsertColumns;
    assert cs[0] == "user_id" && cs[1] == "table_id" && cs[2] == "starts_at" && cs[3] == "ends_at";
    assert cs[4] == "guest_count" && cs[5] == "status" && cs[6] == "contact_name" && cs[7] == "contact_phone";
    assert cs[8] == "notes";
  }

  /** The columns the booking operations need: the record's twelve, then the two cancellation columns. */
  const TableColumns: seq<(string, Kind)> := BookingModel.Fields + [("canceled_at", StampKind), ("cancel_reason", TextKind)]

  /** The descriptor the `bookings` table should be generated from: `Booking` with the cancellation columns. */
  const CorrectedBookingDesc: ModelDesc := Describe(BookingModel.TableName, TableColumns, BookingModel.FKeys)

  /** Describing the fields of `a + b` describes those of `a`, then those of `b`. */
  lemma DescribeAppend(table: string, a: seq<(string, Kind)>, b: seq<(string, Kind)>, fkeys: map<string, FKey>)
    ensures Describe(table, a + b, fkeys).fields == Describe(table, a, fkeys).fields + Describe(table, b, fkeys).fields
  {
  }

  /** The corrected table has exactly the columns of the stored rows the booking operations work on. */
  lemma CorrectedBookingColumns(m: ModelDesc)
    requires m == CorrectedBookingDesc
    ensures DeclaredColumns(m) == Backend.ColumnNames
  {
    GeneratedBookingColumns(BookingModel.Desc);
    CorrectedColumnsExtend(m);
  }

  /** The corrected table declares the generated table's columns and the two cancellation columns. */
  lemma CorrectedColumnsExtend(m: ModelDesc)
    requires m == CorrectedBookingDesc
    ensures DeclaredColumns(m) == DeclaredColumns(BookingModel.Desc) + {"canceled_at", "cancel_reason"}
  {
    var g := BookingModel.Desc;
    assert |g.fields| == 12 && |m.fields| == 14;
    forall k | 0 <= k < 12 ensures m.fields[k].name == g.fields[k].name {
      assert m.fields[k].name == TableColumns[k].0 == BookingModel.Fields[k].0;
    }
    assert m.fields[12].name == "canceled_at" && m.fields[13].name == "cancel_reason";
    forall c | c in DeclaredColumns(m) ensures c in DeclaredColumns(g) + {"canceled_at", "cancel_reason"} {
      var k :| 0 <= k < |m.fields| && m.fields[k].name == c;
      if k < 12 { assert c == g.fields[k].name; }
    }
    forall c | c in DeclaredColumns(g) + {"canceled_at", "cancel_reason"} ensures c in DeclaredColumns(m) {
      if c in DeclaredColumns(g) {
        var k :| 0 <= k < |g.fields| && g.fields[k].name == c;
        assert m.fields[k].name == c;
      } else if c == "canceled_at" {
        assert m.fields[12].name == c;
      } else {
        assert m.fields[13].name == c;
      }
    }
  }

  /** Every column a booking operation writes exists in the corrected table. */
  lemma CorrectedBookingsCoverWrites(m: ModelDesc)
    requires m == CorrectedBookingDesc
    ensures WrittenColumns <= DeclaredColumns(m)
  {
    CorrectedBookingColumns(m);
    InsertWritesNamed();
  }

  /**
   * The corrected statement keeps the generated one and adds two lines: the twelve column
   * definitions, then `canceled_at TIMESTAMPTZ` and `cancel_reason TEXT`, then the same foreign keys.
   */
  lemma CorrectedBookingsDdl(m: ModelDesc)
    requires m == CorrectedBookingDesc
    ensures BuildCreateTableDdl(m).Ok?
    ensures ColumnDefs(m.fields).Ok? && ColumnDefs(BookingModel.Desc.fields).Ok?
    ensures ColumnDefs(m.fields).value ==
            ColumnDefs(BookingModel.Desc.fields).value + ["canceled_at TIMESTAMPTZ", "cancel_reason TEXT"]
    ensures FkClauses(m.fields, m.fkeys) == FkClauses(BookingModel.Desc.fields, BookingModel.FKeys)
  {
    var extra := [("canceled_at", StampKind), ("cancel_reason", TextKind)];
    DescribeAppend(BookingModel.TableName, BookingModel.Fields, extra, BookingModel.FKeys);
    var tail := Describe(BookingModel.TableName, extra, BookingModel.FKeys).fields;
    CorrectedColumnDefs(m.fields, BookingModel.Desc.fields);
    CancelColumnsHaveNoForeignKey(BookingModel.Desc.fields, tail);
  }

  lemma CorrectedColumnDefs(fields: seq<FieldDesc>, head: seq<FieldDesc>)
    requires fields == CorrectedBookingDesc.fields && head == BookingModel.Desc.fields
    ensures ColumnDefs(fields).Ok? && ColumnDefs(head).Ok?
    ensures ColumnDefs(fields).value == ColumnDefs(head).value + ["canceled_at TIMESTAMPTZ", "cancel_reason TEXT"]
  {
    var extra := [("canceled_at", StampKind), ("cancel_reason", TextKind)];
    DescribeAppend(BookingModel.TableName, BookingModel.Fields, extra, BookingModel.FKeys);
    var tail := Describe(BookingModel.TableName, extra, BookingModel.FKeys).fields;
    BookingColumns(head);
    CancelColumnDefs(tail);
    ColumnDefsAppend(head, tail);
  }

  /** The two cancellation columns render as a plain timestamp and a plain text column. */
  lemma CancelColumnDefs(tail: seq<FieldDesc>)
    requires tail == Describe(BookingModel.TableName, [("canceled_at", StampKind), ("cancel_reason", TextKind)], BookingModel.FKeys).fields
    ensures ColumnDefs(tail) == Ok(["canceled_at TIMESTAMPTZ", "cancel_reason TEXT"])
  {
    var extra := [("canceled_at", StampKind), ("cancel_reason", TextKind)];
    DescribedColumns(BookingModel.TableName, extra, BookingModel.FKeys);
    CancelRendered();
    var cols := ColumnDefs(tail).value;
    assert |cols| == 2 && cols[0] == "canceled_at TIMESTAMPTZ" && cols[1] == "cancel_reason TEXT";
    assert cols == ["canceled_at TIMESTAMPTZ", "cancel_reason TEXT"];
  }

  /** Neither cancellation column is a bookkeeping timestamp, so neither gets a default. */
  lemma CancelRendered()
    ensures Rendered("canceled_at", StampKind) == "canceled_at TIMESTAMPTZ"
    ensures Rendered("cancel_reason", TextKind) == "cancel_reason TEXT"
  {
    KindNames();
    assert !DefaultsToNow("canceled_at", "TIMESTAMPTZ");
  }

  /** Column definitions are rendered field by field: those of `a + b` are those of `a`, then those of `b`. */
  lemma ColumnDefsAppend(a: seq<FieldDesc>, b: seq<FieldDesc>)
    requires ColumnDefs(a).Ok? && ColumnDefs(b).Ok?
    ensures ColumnDefs(a + b) == Ok(ColumnDefs(a).value + ColumnDefs(b).value)
  {
    var ab := a + b;
    ColumnDefsAppendOk(a, b);
    var joined := ColumnDefs(a).value + ColumnDefs(b).value;
    forall k | 0 <= k < |ab| ensures ColumnDefs(ab).value[k] == joined[k] {
      if k < |a| { assert ab[k] == a[k]; } else { assert ab[k] == b[k - |a|]; }
    }
    assert ColumnDefs(ab).value == joined;
  }

  lemma ColumnDefsAppendOk(a: seq<FieldDesc>, b: seq<FieldDesc>)
    requires ColumnDefs(a).Ok? && ColumnDefs(b).Ok?
    ensures ColumnDefs(a + b).Ok?
  {
    var ab := a + b;
    forall k | 0 <= k < |ab| ensures FieldSqlType(ab[k]).Ok? {
      if k < |a| { assert ab[k] == a[k]; } else { assert ab[k] == b[k - |a|]; }
    }
  }

  lemma CancelColumnsHaveNoForeignKey(head: seq<FieldDesc>, tail: seq<FieldDesc>)
    requires tail == Describe(BookingModel.TableName, [("canceled_at", StampKind), ("cancel_reason", TextKind)], BookingModel.FKeys).fields
    ensures FkClauses(head + tail, BookingModel.FKeys) == FkClauses(head, BookingModel.FKeys)
  {
    var fkeys := BookingModel.FKeys;
    FkClausesAppend(head, tail, fkeys);
    assert tail[0].name == "canceled_at" && tail[1].name == "cancel_reason";
    assert "canceled_at" !in fkeys && "cancel_reason" !in fkeys;
    assert tail[1..] == [tail[1]] && tail[1..][1..] == [];
    assert FkClauses(tail[1..], fkeys) == [];
    assert FkClauses(tail, fkeys) == [];
  }
}
