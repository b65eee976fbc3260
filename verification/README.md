# Restaurant table bookings: the booking core and its schema builder

This project models the core of a small restaurant booking service written in Python on
PostgreSQL. It covers three parts of that core.

- **The record classes.** `User`, `Table` and `Booking` are frozen dataclasses. Every field is
  annotated `X | None`. Each class carries `__table__` and `__fkeys__` and has three row mappers:
  `from_row`, `to_insert_params` and `to_update_params`.
- **The booking operations of `backend.py`.** These are the availability query
  `is_table_available`, then `create_booking`, `get_booking`, `update_booking_times`,
  `set_booking_status` and `cancel_booking`, plus the id reader `_get_id`. They are modelled over an
  abstract `bookings` table, `Backend.Store`: a map from id to a 14-column row, together with the
  next value of the SERIAL sequence. Each operation returns the new table with its result, or its
  exception with the table unchanged.
- **The schema builder of `pg_driver.py`.** This covers the type table `_PY2SQL`,
  `_unwrap_optional`, `_sql_type`, `build_create_table_ddl`, and the model selection of
  `ensure_schema`.

Conventions:

- A cell is `Values.Value`: SQL NULL, an integer, a text or a timestamp. A timestamp is an integer
  count of seconds.
- The availability query's WHERE clause is evaluated in SQL's three-valued logic (module `Sql`).
  It is then related to a plain predicate, `Backend.Blocks`.
- The server clock `now()` is the parameter `now`.
- The existing tables that `table_exists` would report are the parameter `existing`.

Beyond single calls, the model proves two further kinds of property.

- **A per-table invariant** (module `NoOverlap`): no two active bookings on one table overlap.
  `create_booking`, `update_booking_times` and `cancel_booking` keep it.
  `set_booking_status` can break it, and a concrete example shows how.
- **What the generated `bookings` table lacks.** It has no column for the cancellation data that
  `cancel_booking` writes (see Findings).

The program itself disagrees about that table. `cancel_booking` sets `canceled_at` and
`cancel_reason` (backend.py:285), but `Booking` declares neither field (models/booking.py:34-45).
At startup the application creates its tables from the dataclasses (app.py:616-617 calls
`create_tables`, backend.py:21 passes `User`, `Table` and `Booking` to the schema builder,
pg_driver.py:332-356 renders one column per field), so the generated `bookings` table has twelve
columns and the cancellation UPDATE names two that do not exist. The schema builder is modelled
as written, and the gap is recorded as a finding. The abstract table of the booking operations is
the corrected fourteen-column table of that finding, on which `cancel_booking` succeeds; on the
generated table it raises (see "Left out").

## Model

| member | source | states |
|---|---|---|
| Values.OfInt | models/booking.py:80-90 | an `Optional[int]` attribute is bound as NULL or an integer cell, which fits an INT column |
| Values.AsInt | models/booking.py:58-71 | reading a well-typed INT cell and binding it again gives the same cell |
| Values.OfText | models/booking.py:80-90 | an `Optional[str]` attribute is bound as NULL or a text cell |
| Values.AsText | models/booking.py:58-71 | reading a well-typed TEXT cell and binding it again gives the same cell |
| Values.OfStamp | models/booking.py:80-90 | an `Optional[datetime]` attribute is bound as NULL or a timestamp cell |
| Values.AsStamp | models/booking.py:58-71 | reading a well-typed TIMESTAMPTZ cell and binding it again gives the same cell |
| Values.Bind | backend.py:205-210 | positional `%s` binding gives a row whose keys are exactly the listed columns; with distinct columns, the k-th column holds the k-th parameter |
| BookingModel.FromRow | models/booking.py:58-71 | on a row whose cells fit the annotations, every declared field equals the cell of the same name, and a missing column is None |
| BookingModel.ToInsertParams | models/booking.py:80-90 | nine parameters; the k-th is the attribute named by the k-th column of the INSERT in `create_booking` |
| BookingModel.ToUpdateParams | models/booking.py:99-110 | the insert parameters followed by the id; the k-th parameter is the attribute its placeholder names (the backend never calls this method) |
| BookingModel.RowOf | models/booking.py:34-45 | the row holding each attribute under its field name is well typed and has every attribute in its column |
| BookingModel.RecordRoundTrip | models/booking.py:58-71 | `from_row` inverts a booking's row |
| BookingModel.FromRowReadsDeclaredOnly | models/booking.py:58-71 | two rows that agree on the twelve declared columns give the same record, so extra columns such as `canceled_at` are ignored |
| BookingModel.MissingColumnsReadAsNone | models/booking.py:58-71 | a declared column the row lacks reads as None (`row.get`) |
| BookingModel.InsertRoundTrip | models/booking.py:80-90 | reading a row and taking the insert parameters gives that row's cells of the nine INSERT columns, in order |
| BookingModel.ParamsBindByName | models/booking.py:80-110 | binding the insert parameters to the INSERT columns, and the update parameters to the insert columns followed by `id`, gives every column the attribute of the same name; no backend statement uses the update list, `update_booking_times` binds its own |
| BookingModel.UpdatePlaceholdersDistinct | models/booking.py:99-110 | no name repeats in the order of `to_update_params`, so binding it positionally is also binding by name; no backend statement uses that order |
| TableModel.FromRow | models/tables.py:47-56 | on a well-typed row, every declared field equals the cell of the same name |
| TableModel.ToInsertParams | models/tables.py:65-71 | five parameters, each the attribute its INSERT column names |
| TableModel.ToUpdateParams | models/tables.py:80-87 | the insert parameters followed by the id, each the attribute its placeholder names |
| TableModel.RowOf | models/tables.py:27-34 | a table's row is well typed and holds every attribute in its column |
| TableModel.RecordRoundTrip | models/tables.py:47-56 | `from_row` inverts a table's row |
| TableModel.FromRowReadsDeclaredOnly | models/tables.py:47-56 | rows that agree on the declared columns give the same record |
| TableModel.MissingColumnsReadAsNone | models/tables.py:47-56 | a declared column the row lacks reads as None |
| TableModel.InsertRoundTrip | models/tables.py:65-71 | reading a row and taking the insert parameters gives that row's five INSERT cells |
| TableModel.ParamsBindByName | models/tables.py:65-87 | the parameters bind by name to the columns of `create_table_rec` and `update_table_rec` |
| UserModel.FromRow | models/users.py:43-50 | on a well-typed row, every declared field equals the cell of the same name |
| UserModel.ToInsertParams | models/users.py:59-63 | three parameters, each the attribute its INSERT column names |
| UserModel.ToUpdateParams | models/users.py:72-77 | the insert parameters followed by the id, each the attribute its placeholder names |
| UserModel.RowOf | models/users.py:25-30 | a user's row is well typed and holds every attribute in its column |
| UserModel.RecordRoundTrip | models/users.py:43-50 | `from_row` inverts a user's row |
| UserModel.FromRowReadsDeclaredOnly | models/users.py:43-50 | rows that agree on the declared columns give the same record |
| UserModel.MissingColumnsReadAsNone | models/users.py:43-50 | a declared column the row lacks reads as None |
| UserModel.InsertRoundTrip | models/users.py:59-63 | reading a row and taking the insert parameters gives that row's email, full name and phone |
| UserModel.ParamsBindByName | models/users.py:59-77 | the parameters bind by name to the columns of `create_user` and `update_user` |
| Backend.ConflictClause | backend.py:177-184 | the WHERE clause on one row is UNKNOWN only when a compared cell or parameter is NULL, and never TRUE of the excluded booking |
| Backend.ClauseTrueIffBlocks | backend.py:178-184 | the WHERE clause, evaluated with NULL as UNKNOWN, is TRUE of a row exactly when the row is active (status set and not `canceled`), is on the given table, has both ends set, overlaps the half-open window, and is not the excluded id |
| Backend.IsTableAvailable | backend.py:176-187 | the table is available exactly when no stored row satisfies the query |
| Backend.GetBooking | backend.py:224-226 | None exactly for an unknown id; otherwise the stored row's twelve record columns, with the cancellation columns dropped |
| Backend.ReadBack | backend.py:225-226 | `from_row` applied to a stored row, as the dictionary cursor returns it, gives that row's record columns |
| Backend.InsertedRow | backend.py:205-210 | the inserted row carries the record's value in each INSERT column, the new id, both timestamps set to `now()`, and no cancellation data |
| Backend.StoredRow | backend.py:206-210 | the row an INSERT stores has the sequence id, `created_at` and `updated_at` set to `now()`, and no cancellation data |
| Backend.InsertStoresBoundParams | backend.py:205-210 | the row the positional binding of `to_insert_params` stores is exactly that row |
| Backend.InsertCellsKeys | backend.py:206-210 | the INSERT puts the record's user id, table id and guest count in their columns |
| Backend.InsertCellsWindow | backend.py:206-210 | the INSERT puts the record's start, end and status in their columns |
| Backend.InsertCellsContact | backend.py:206-210 | the INSERT puts the record's contact name, contact phone and notes in their columns |
| Backend.CreateBooking | backend.py:203-211 | raises, changing nothing, exactly when some booking blocks the record's table and window; otherwise adds one row under the next sequence id, returns that id, and leaves every other row as it was |
| Backend.InsertKeepsValid | backend.py:209-211 | storing under the next sequence id and advancing the sequence keeps every row under its own id below the sequence |
| Backend.UpdateWhereId | backend.py:251-253 | an UPDATE by id reports one row exactly when the id is stored, and then rewrites that row alone; otherwise it reports none and leaves the table as it was; ids and sequence never change |
| Backend.UpdateBookingTimes | backend.py:245-254 | returns 0 and changes nothing for an unknown id; raises, changing nothing, exactly when another booking blocks the new window on the booking's own table; otherwise changes only start, end, guest count and `updated_at` of that one row and returns 1 |
| Backend.SetBookingStatus | backend.py:268-269 | writes any status and `updated_at` to that one row and returns 1, or returns 0 and changes nothing |
| Backend.CancelBooking | backend.py:283-287 | sets status `canceled`, `canceled_at`, the reason and `updated_at` of that one row and returns 1, or returns 0 and changes nothing |
| Backend.GetId | backend.py:24-34 | no row gives 0; a dictionary row gives its `id` entry (KeyError without one); a tuple row gives its first item (IndexError when empty) |
| Availability.TouchingNeverBlocks | backend.py:180 | a booking that ends when the window starts, or starts when it ends, never blocks it |
| Availability.IdenticalStartBlocks | backend.py:179-180 | an active booking on the table that starts with the window blocks it |
| Availability.IdenticalStartUnavailable | backend.py:176-187 | so the table is reported unavailable for that window |
| Availability.OnlyCanceledFrees | backend.py:179 | for a row otherwise in the window, it blocks exactly when its status is set and is not the exact string `canceled` |
| Availability.OtherCancelWordingsBlock | backend.py:179 | `Отменено`, `Canceled`, `cancelled` and `canceled ` all still block |
| Availability.NullArgumentNeverBlocks | backend.py:176-187 | a NULL table id, start or end in the query makes the table available |
| Availability.ExcludeOnlyThatOne | backend.py:182-184 | excluding an id gives the same answer as the table without that booking and without an exclusion |
| Availability.CreateThenGet | backend.py:209-226 | a created booking reads back as the record sent, with the new id and both timestamps set to `now()` |
| Availability.CancelFreesSlot | backend.py:283-287 | after `cancel_booking` the booking blocks no window on any table |
| Availability.CancelTwice | backend.py:283-287 | canceling twice leaves the table as a single cancel with the second reason and time would |
| Availability.ReturnedIdRead | backend.py:34 | the RETURNING row gives back its id in either cursor mode |
| Availability.CreatedIdIsNotZero | backend.py:34 | an id `create_booking` returns is never the 0 that `_get_id` gives when there is no row |
| NoOverlap.ClashSymmetric | backend.py:180 | two rows collide in either order or not at all |
| NoOverlap.ClashIffBlocks | backend.py:178-180 | for an active row, colliding with a stored row is exactly being blocked by it |
| NoOverlap.InactiveNeverClashes | backend.py:179 | a canceled row, or one without a status, collides with nothing |
| NoOverlap.ReplaceKeeps | backend.py:250-254 | rewriting one row keeps the invariant when the new row collides with none of the others |
| NoOverlap.CreatePreserves | backend.py:203-211 | `create_booking` keeps the invariant |
| NoOverlap.UpdatePreserves | backend.py:245-254 | `update_booking_times` keeps the invariant |
| NoOverlap.CancelPreserves | backend.py:283-287 | `cancel_booking` keeps the invariant |
| NoOverlap.SetStatusPreservesWhen | backend.py:268-269 | `set_booking_status` keeps the invariant when it cancels, or when the booking was already active |
| NoOverlap.SetStatusCanBreak | backend.py:268-269 | setting a canceled booking back to `Ожидание` on top of another booking succeeds (1 row) and breaks the invariant |
| PgDriver.WithoutNone | pg_driver.py:284 | the filtered member list holds exactly the members other than NoneType |
| PgDriver.UnwrapOptional | pg_driver.py:278-286 | optional exactly when the annotation is a union that lists None; then the other members come back, otherwise the annotation itself |
| PgDriver.UnwrapPlain | pg_driver.py:279-280 | a plain class is not optional and comes back unchanged |
| PgDriver.UnwrapSingleOptional | pg_driver.py:281-285 | `Optional[X]`, in either order, is optional in `X` |
| PgDriver.UnwrapSeveralOptional | pg_driver.py:285 | a union with None and two other types returns the list of both, which `_sql_type` cannot look up |
| PgDriver.UnwrapUnionWithoutNone | pg_driver.py:281-286 | a union without None is not optional |
| PgDriver.SqlType | pg_driver.py:299 | a class in the type table gets the SQL type the table lists for it, any other single type gets TEXT, and a list raises the unhashable-type error |
| PgDriver.FieldSqlType | pg_driver.py:334-336 | a field's type raises exactly when its annotation is a union with None and not exactly one other member; an annotation without None is looked up as it stands |
| PgDriver.SqlTypeDeterminesClass | pg_driver.py:256-265 | an SQL type other than TEXT names exactly one Python class |
| PgDriver.ColumnDef | pg_driver.py:338-347 | `id` renders as `id SERIAL PRIMARY KEY` whatever its type; any other field as its name, a space and its SQL type, followed by ` DEFAULT now()` for a TIMESTAMPTZ `created_at` or `updated_at` |
| PgDriver.ColumnDefShapes | pg_driver.py:338-347 | the two renderings of a non-`id` column tell the cases apart: `DEFAULT now()` appears exactly for a TIMESTAMPTZ `created_at` or `updated_at`, the bare name and type exactly otherwise |
| PgDriver.ColumnDefs | pg_driver.py:332-347 | succeeds exactly when every field's type resolves, with one definition per field in field order; otherwise it fails with the error of some field |
| PgDriver.FkClauses | pg_driver.py:349-353 | at most one clause per field, so never more clauses than fields |
| PgDriver.FkClausesFromKeyedFields | pg_driver.py:349-353 | every clause is the `FOREIGN KEY (name) REFERENCES table(column) ON DELETE action` text (`FkClause`) of a non-`id` field named in `__fkeys__`, and every such field has its clause |
| PgDriver.FkClausesAppend | pg_driver.py:349-353 | the foreign-key clauses follow field order |
| PgDriver.FkClausesOfField | pg_driver.py:349-353 | a field named in `__fkeys__`, other than `id`, adds exactly one clause at its place; any other field adds none |
| PgDriver.FkClausesIgnoreUnusedKeys | pg_driver.py:349 | `__fkeys__` entries that name no field change nothing |
| PgDriver.NoFkeysNoClauses | pg_driver.py:321 | a model without foreign keys gets no FOREIGN KEY clause |
| PgDriver.BuildCreateTableDdl | pg_driver.py:316-357 | TypeError exactly for a non-dataclass; ValueError exactly for a dataclass without a non-empty `__table__`; otherwise a statement exactly when every field's type resolves |
| PgDriver.JoinIndent | pg_driver.py:356 | joining with `",\n  "` after a two-space indent is one indented line per part, with a comma on all but the last |
| PgDriver.DdlLayout | pg_driver.py:355-356 | the statement of a model with fields is the header line, one indented line per column and then per foreign key, then `);` |
| PgDriver.DdlNoFields | pg_driver.py:355-356 | a dataclass without fields gets the header line, a line holding only the two-space indent, then `);` |
| PgDriver.Missing | pg_driver.py:402-408 | the models that get a statement, in input order, are those with a non-empty table that does not exist yet |
| PgDriver.Sequence | pg_driver.py:403-408 | a loop of raising calls gives every value in order, or the error of a call all of whose predecessors succeeded, that is, of the first call that raised |
| PgDriver.BuildAll | pg_driver.py:403-408 | all statements in order when every build succeeds, else the error of the first model whose build raises |
| PgDriver.EnsureSchema | pg_driver.py:402-410 | no `create_tables` call exactly when nothing is missing; otherwise one call with one statement per missing model, in order; a raise exactly when some missing model's build raises, with the error of the first such model in input order, and never the missing-table error |
| PgDriver.MissingAppend | pg_driver.py:403-408 | the selection of `a + b` is the selection of `a`, then that of `b` |
| PgDriver.MissingNoneWhenAllExist | pg_driver.py:407 | when every table already exists, nothing is missing |
| PgDriver.EnsureSchemaSettles | pg_driver.py:402-410 | once the requested tables exist, a second `ensure_schema` over the same models issues nothing |
| Text.JoinAppend | pg_driver.py:356 | joining two non-empty lists puts one separator between the two joins |
| Schema.OptionalFieldType | pg_driver.py:334-336 | a field annotated `Optional[X]` gets the SQL type of `X` |
| Schema.DescribedColumns | pg_driver.py:332-347 | a record class whose fields are all `Optional[X]` gets, field by field, the expected column definition |
| Schema.KindNames | pg_driver.py:257-262 | `int`, `str` and `datetime` map to INT, TEXT and TIMESTAMPTZ |
| Schema.StampDefaults | pg_driver.py:344-345 | `created_at` and `updated_at` render with `DEFAULT now()` |
| Schema.UsersDdl | pg_driver.py:316-357 | `users` gets six columns, with the server default on both timestamps, and no foreign key |
| Schema.TablesDdl | pg_driver.py:316-357 | `tables` gets eight columns and no foreign key |
| Schema.BookingsDdl | pg_driver.py:316-357 | `bookings` gets twelve columns, then the two foreign keys in field order: `user_id` to `users(id)` ON DELETE CASCADE and `table_id` to `tables(id)` ON DELETE RESTRICT |
| Schema.BookingColumns | pg_driver.py:332-347 | the twelve column definitions of `bookings`, by position |
| Schema.BookingForeignKeys | pg_driver.py:349-353 | only `user_id` and `table_id` get a clause, in that order |
| Schema.GeneratedBookingColumns | pg_driver.py:332-347 | the generated `bookings` table has exactly the twelve field names |
| Schema.GeneratedBookingsLackCancelColumns | pg_driver.py:332-356 | `cancel_booking` writes `canceled_at` and `cancel_reason`, and the generated table has neither |
| Schema.GeneratedBookingsHaveOtherColumns | backend.py:206-269 | the other booking statements find all their columns in the generated table |
| Schema.InsertWritesNamed | backend.py:206 | the INSERT writes exactly the nine listed columns |
| Schema.DescribeAppend | models/booking.py:34-45 | describing `a + b` describes `a`, then `b` |
| Schema.CorrectedColumnsExtend | models/booking.py:34-45 | the corrected table declares the columns of the generated one plus `canceled_at` and `cancel_reason` |
| Schema.CorrectedBookingColumns | backend.py:285 | the corrected table has exactly the fourteen columns of the stored rows |
| Schema.CorrectedBookingsCoverWrites | backend.py:206-285 | every column any booking operation writes exists in the corrected table |
| Schema.CorrectedBookingsDdl | pg_driver.py:316-357 | the corrected statement builds; it has the twelve generated columns, then `canceled_at TIMESTAMPTZ` and `cancel_reason TEXT`, then the same foreign keys |
| Schema.CancelColumnDefs | pg_driver.py:342-347 | the two cancellation columns render as a plain timestamp and a plain text column, with no default |
| Schema.ColumnDefsAppend | pg_driver.py:332-347 | the column definitions of `a + b` are those of `a`, then those of `b` |
| Schema.CancelColumnsHaveNoForeignKey | pg_driver.py:349-353 | adding the cancellation columns adds no foreign-key clause |

## Left out

- I/O is not modelled. This covers the connection pool, psycopg2 cursors, transactions, `PGConfig`
  and the environment. Each query is replaced by its effect on the abstract table.
- Concurrency is not modelled. The check in `create_booking` and the INSERT that follows run in
  separate connections, so two concurrent callers can both pass the check. The model treats each
  call as atomic, so `NoOverlap.CreatePreserves` holds only for calls made one at a time.
- Database constraints are not modelled. Foreign keys are not enforced on the abstract table, so
  `ON DELETE` has no effect in the model. A deleted user or table does not exist in the model at all.
- Plain CRUD on users and tables is not modelled as operations: `create_user`, `get_user_by_id`,
  `update_user`, `delete_user` and the matching table functions are left out. They are single
  statements with no logic of their own. Their parameter lists are modelled through
  `ParamsBindByName`.
- `table_exists` is not modelled as a query. The tables it would report are the parameter
  `existing` of `EnsureSchema`. A table created by another process between two checks is not modelled.
- The `get_type_hints` fallback to the raw `f.type` is left out: the model takes the resolved
  annotation as given. String annotations that fail to resolve are not modelled.
- `_dict_get` and `ping` are left out as driver plumbing.
- Type conversion is not modelled. Cells whose type does not match the annotation are read as
  None by `AsInt`, `AsText` and `AsStamp`, whereas Python would store the value untyped. The
  round trips of the record mappers are therefore stated only for rows whose cells fit the
  annotations (`WellTyped`).
- Tuple rows are not modelled for `from_row`: it always receives a dictionary row. `_get_id`
  handles tuple rows and is modelled with them.
- `datetime` values are seconds on one time line; time zones and sub-second precision are left out.
- Backend.CancelBooking: the abstract table is the corrected fourteen-column one (see Findings).
  On the table the program actually generates, the UPDATE names two missing columns and raises, so
  the promised return of 1 holds only once the table has those columns.
- Backend.CreateBooking: integers are unbounded. In the database `user_id`, `table_id` and
  `guest_count` are 32-bit INT columns and `id` is a 32-bit SERIAL (pg_driver.py:257, 338-347), so
  a value outside -2147483648..2147483647, or a sequence past 2147483647, raises "integer out of
  range" where the model returns the new id.
- Backend.UpdateBookingTimes: likewise, a guest count outside the 32-bit range raises "integer out
  of range" where the model returns 1.
- Schema.UsersDdl: the statement text is stated column by column, as the list of column and key
  clauses, and not as one literal string; `PgDriver.DdlLayout` gives the layout that joins them.
- Schema.TablesDdl: the statement text is stated column by column, as for `users`.
- Schema.BookingsDdl: the statement text is stated column by column and clause by clause, as for
  `users`.

## Findings

| source | as written | input that shows it | evidently intended | confidence | as-written member | corrected member |
|---|---|---|---|---|---|---|
| pg_driver.py:332-356 | the `bookings` table is generated from the fields of `Booking` only, so it has no `canceled_at` and no `cancel_reason` column; yet `cancel_booking` (backend.py:285) sets both | run `create_tables` on an empty database, create a booking, then call `cancel_booking` on it: the UPDATE names two columns the table does not have, so PostgreSQL rejects it | the table has both cancellation columns, `canceled_at TIMESTAMPTZ` and `cancel_reason TEXT`, so that every column the booking operations write exists | not executed | Schema.GeneratedBookingsLackCancelColumns | Schema.CorrectedBookingsCoverWrites |
