# WB tariffs to Google Sheets — a Dafny model

The service fetches the Wildberries box-tariff list once an hour. It stores the
list as that day's snapshot in PostgreSQL: a `daily_tariffs` parent row for the
date, with one `warehouse_tariffs` child row per warehouse. It then reads back the
latest snapshot, ordered by `box_delivery_base`, and writes it to the
`stocks_coefs` sheet of every spreadsheet registered in the `spreadsheets` table.

This project models the core of that pipeline:

- `wrappers.dfy`, `wb_types.dfy`, `api_errors.dfy`: the option and result types,
  the provider's payload types, and the `ApiError` / `WbApiError` classes.
- `migration.dfy`: the two tables as data. It holds the constraints the migration
  declares:
  - unique date, serial id and the varchar(255) string columns
  - NOT NULL names and numeric(10,2) columns
  - the foreign key with `ON DELETE CASCADE`

  It also holds the `up` / `down` migration over the table catalogue.
- `postgres.dfy`: the database as a mutable object holding those tables and the
  serial counter.
- `database_service.dfy`: the three queries of `DatabaseService`:
  - `upsertDailyTariff`, a transactional update-or-insert with child replacement
    and rollback
  - `getLatestTariffs`, which returns the latest snapshot with NULLs last
  - `getSpreadsheetIds`

  Each is specified by a function over the tables, with lemmas about what the
  upsert and the read promise.
- `seeds.dfy`: the insert-or-ignore seed of the default spreadsheet id.
- `google_service.dfy`: `updateSheet`. This covers how the grid is rendered
  (header row, `'-'` for null) and the sequence of requests it sends: clear, then
  write when there is data.
- `wb_service.dfy`: how `fetchTariffs` maps a failure to a `WbApiError`.
- `app.dfy`: `runMainTask`. The first step that fails aborts the run. A
  spreadsheet's failure in the publish loop is contained, and the loop goes on.

Modelling choices:

- Dates are day numbers. "Today" is a parameter.
- Text is stored unchanged. Whether a numeric(10,2) column accepts a text, and the
  number it sorts by, come from a `DecimalCast` oracle fixed for the database.
  `null` and text are `Option<string>`.
- The Sheets API is a log of the requests sent, plus a fixed predicate saying
  which requests the service carries out (a request it refuses throws).
- The provider's answer, and whether each read of `runMainTask` fails on the
  connection, are an `Environment` given to the run.

Values are stored as received:

- Nothing on the way into the database turns a `"-"` into null.
- Nothing on the way in turns a decimal comma into a point. A payload whose
  decimal field holds text the column rejects makes the transaction roll back,
  so the run aborts before any sheet is touched.
- No operation adds or removes target spreadsheets at run time. Only the seed
  writes that table.

An empty warehouse list also makes the transaction roll back. The bulk insert at
src/services/database.service.ts:58 runs even for an empty list. The model takes
that statement to fail, as knex compiles an empty insert to an empty query and
its PostgreSQL client refuses an empty query. So an empty payload aborts the run
at the upsert, and no sheet is cleared.

## Model

| member | source | states |
|---|---|---|
| Migration.EmptyValid | src/postgres/migrations/20251111082129_create_daily_and_warehouse_tariffs_tables.js:5-31 | The freshly created tables, with the serial at 1, satisfy every declared constraint. |
| Migration.ChildrenOfAppend | src/services/database.service.ts:31-33 | Selecting the children of a parent distributes over concatenation of the child table. |
| Migration.WithoutChildrenAppend | src/services/database.service.ts:31-33 | Deleting the children of a parent distributes over concatenation of the child table. |
| Migration.ChildrenOfWithout | src/services/database.service.ts:31-33 | Deleting one parent's children removes all of that parent's children and leaves every other parent's children unchanged and in order. |
| Migration.NoChildren | src/services/database.service.ts:31-33 | When no row references a parent, selecting its children gives nothing and deleting them changes nothing. |
| Migration.WithoutChildrenMembers | src/services/database.service.ts:31-33 | A row survives deleting a parent's children exactly when it was present and references another parent. |
| Migration.WithoutParentMembers | src/postgres/migrations/20251111082129_create_daily_and_warehouse_tariffs_tables.js:17 | Deleting a parent row removes exactly the rows with that id and keeps every other row. |
| Migration.WithoutParentKeepsKeys | src/postgres/migrations/20251111082129_create_daily_and_warehouse_tariffs_tables.js:7-8 | Deleting a parent row keeps dates and ids unique. |
| Migration.CascadeDeleteKeepsSchema | src/postgres/migrations/20251111082129_create_daily_and_warehouse_tariffs_tables.js:16-17 | Deleting a parent with ON DELETE CASCADE keeps every constraint and leaves no child referencing it. |
| Migration.DownUndoesUp | src/postgres/migrations/20251111082129_create_daily_and_warehouse_tariffs_tables.js:5-40 | `up` on an empty catalogue creates both tables. `down` drops them again. Dropping the referenced parent first is refused. |
| Postgres.Database.constructor | src/postgres/migrations/20251111082129_create_daily_and_warehouse_tariffs_tables.js:5-31 | A new database holds the empty tables and satisfies every constraint. |
| DatabaseService.RowRoundTrip | src/services/database.service.ts:75-87 | A row built from a tariff references the given parent. Reading the row back gives the same tariff, field by field. |
| DatabaseService.MapRowsRoundTrip | src/services/database.service.ts:43-56 | Mapping a warehouse list to rows and reading them back gives the list unchanged. |
| DatabaseService.MapRowsChildren | src/services/database.service.ts:43-58 | The rows built for a parent are all children of that parent and of no other. |
| DatabaseService.RowsFitIffTariffsFit | src/services/database.service.ts:58 | The bulk insert satisfies the column constraints exactly when every tariff of the list fits the columns. |
| DatabaseService.FindByDate | src/services/database.service.ts:18-20 | The lookup by date returns the index of a row with that date, or none exactly when no row has it. |
| DatabaseService.LatestDaily | src/services/database.service.ts:63-69 | The latest parent is absent exactly when the table is empty. Otherwise it is a stored row with no later date. |
| DatabaseService.SameDateSameRow | src/postgres/migrations/20251111082129_create_daily_and_warehouse_tariffs_tables.js:8 | Under the unique date constraint, two parents with the same date are the same row. |
| DatabaseService.ConsSorted | src/services/database.service.ts:73 | A tariff whose key is at most every key of a sorted list can be put in front and keep it sorted. |
| DatabaseService.InsertByDeliveryBase | src/services/database.service.ts:71-73 | Inserting into a list sorted by box_delivery_base (ascending, NULLs last) gives a sorted list with the same elements plus the new one. |
| DatabaseService.SortedTail | src/services/database.service.ts:73 | The tail of a sorted list is sorted. |
| DatabaseService.FirstIsLeast | src/services/database.service.ts:73 | The head of a sorted list has the least key. |
| DatabaseService.FollowsHead | src/services/database.service.ts:73 | Inserting a tariff after the head of a sorted list keeps the head's key least. |
| DatabaseService.SortByDeliveryBase | src/services/database.service.ts:71-73 | The ORDER BY box_delivery_base ASC result is sorted with NULLs last and is a permutation of its input. |
| DatabaseService.LatestTariffs | src/services/database.service.ts:62-88 | `getLatestTariffs` returns a list sorted by box_delivery_base, and an empty list when there is no daily row. |
| DatabaseService.LatestTariffsAreLatestSnapshot | src/services/database.service.ts:63-73 | `getLatestTariffs` returns, as a multiset, exactly the tariffs stored under the parent with the latest date. |
| DatabaseService.SpreadsheetIdsDistinct | src/services/database.service.ts:7-10 | `getSpreadsheetIds` lists every registered spreadsheet, each exactly once. |
| DatabaseService.Upsert | src/services/database.service.ts:12-60 | The transaction commits exactly when the payload fits the columns and its warehouse list is not empty. On rollback, both tariff tables are unchanged. The spreadsheets table is never touched. |
| DatabaseService.IdsUpdate | src/services/database.service.ts:23-29 | Updating a parent in place keeps the set of parent ids. |
| DatabaseService.UpsertKeepsSchema | src/services/database.service.ts:15-59 | Committed or rolled back, the upsert keeps every schema constraint. |
| DatabaseService.UpsertParentRows | src/services/database.service.ts:18-41 | After a commit, today's parent is stored. Every other parent was stored before and has another date. |
| DatabaseService.UpsertUpdatesExistingParent | src/services/database.service.ts:22-30 | When today already has a row, only that row's dt_next_box and dt_till_max change, and the serial does not advance. |
| DatabaseService.UpsertInsertsFreshParent | src/services/database.service.ts:34-41 | When today has no row, exactly one row for today is appended, with a fresh id and the payload's dt values. The other rows are kept. |
| DatabaseService.UpsertLeavesOneRowForDate | src/services/database.service.ts:18-41 | After a commit, exactly one parent has today's date, and it holds the payload's dt values. |
| DatabaseService.UpsertReplacesChildren | src/services/database.service.ts:31-58 | After a commit, today's children are exactly the payload's list, in order. Every other parent's children are unchanged. |
| DatabaseService.UpsertIdempotent | src/services/database.service.ts:15-59 | Upserting the same payload twice on one day gives the same tables as upserting it once. |
| DatabaseService.UpsertThenLatest | src/services/database.service.ts:12-88 | After a commit with no later date stored, the latest read is a sorted permutation of the payload's warehouse list. |
| DatabaseService.AsWrittenNewDateRollsBack | src/services/database.service.ts:34-41 | As written, an upsert on a date with no row always rolls back and leaves both tariff tables unchanged. The intended upsert commits every payload that fits. |
| DatabaseService.AsWrittenFirstRunStoresNothing | src/services/database.service.ts:35-40 | On a freshly migrated database, a payload with one fitting tariff is rolled back as written, and the latest read stays empty. The intended upsert stores it, and the latest read returns exactly that tariff. |
| DatabaseService.UpsertDailyTariff | src/services/database.service.ts:12-60 | The transaction method updates or inserts, replaces the children or rolls back. It ends in the state the upsert specification gives, keeps the constraints, and reports whether it committed. |
| Seeds.InsertOrIgnore | src/postgres/seeds/spreadsheets.js:6-9 | Afterwards the id is present. Existing rows are kept in order. At most one row is added, and none when the id was present. Uniqueness is kept. |
| Seeds.InsertOrIgnoreIdempotent | src/postgres/seeds/spreadsheets.js:6-9 | Running the seed twice has the effect of running it once. |
| Seeds.Seed | src/postgres/seeds/spreadsheets.js:5-10 | The seed adds the default spreadsheet id unless it is already registered. It touches no other table and keeps the constraints. |
| GoogleService.RenderRow | src/services/google.service.ts:46-49 | A rendered row has one cell per header. |
| GoogleService.RowLayout | src/services/google.service.ts:40-49 | Cell i of a row holds the field header i names: `'-'` for null, the text unchanged otherwise. |
| GoogleService.SheetValues | src/services/google.service.ts:40-50 | The grid is the header row followed by one rendered row per tariff, in order, every row 11 cells wide. |
| GoogleService.SheetsApi.constructor | src/services/google.service.ts:19 | A new client has sent no request. |
| GoogleService.SheetsApi.Send | src/services/google.service.ts:52-59 | Every call is sent and logged. It throws exactly when the service does not carry out the request. |
| GoogleService.UpdateSheetRequests | src/services/google.service.ts:22-59 | `updateSheet` always clears `stocks_coefs!A1:Z` first. It writes the grid from A1 with RAW input exactly when there is data and the clear succeeded. |
| GoogleService.UpdateSheet | src/services/google.service.ts:22-61 | The method sends exactly those requests. It returns normally exactly when every request it sent was carried out. |
| WbService.FetchTariffs | src/services/wb.service.ts:27-54 | Success returns the response body unchanged. Every failure is rethrown as a `WbApiError`. |
| WbService.AxiosErrorMapping | src/services/wb.service.ts:38-48 | The message is the prefix plus the provider `detail` when there is a non-empty one, and the prefix plus the axios message otherwise, including when `detail` is empty. The status and details come from the response, and are absent without one. |
| WbService.UnexpectedErrorMapping | src/services/wb.service.ts:49-52 | Any other failure gives the fixed message, no status and the original error as details. |
| App.ClearedTargetsAppend | src/app.ts:25-32 | The spreadsheets cleared by two request sequences, one after the other, are those of the first followed by those of the second. |
| App.PublishAppend | src/app.ts:25-32 | Publishing to two lists of targets, one after the other, sends the requests of the first followed by those of the second. |
| App.UpdateSheetClearsOnce | src/services/google.service.ts:22-38 | Each `updateSheet` call clears its own spreadsheet exactly once, whichever branch it takes. |
| App.PublishAttemptsEachOnce | src/app.ts:25-32 | The publish loop attempts every spreadsheet exactly once, in list order. |
| App.PublishIsolated | src/app.ts:25-32 | Target k's requests are exactly its own `updateSheet` requests, whatever happened to earlier targets, and later targets are still attempted. |
| App.PublishSameValues | src/app.ts:19-27 | Every write of a run carries the same grid, rendered from the one latest read, to a listed spreadsheet from A1 with RAW input. |
| App.PublishAll | src/app.ts:25-32 | The loop sends the publish requests and logs, per spreadsheet, whether its update returned normally. |
| App.RunMainTask | src/app.ts:10-38 | The run aborts at the first failing step, with the failing step named. A fetch failure leaves the database untouched. An abort sends nothing to any sheet. The run completes exactly when every step succeeds, and then publishes the latest snapshot to every listed spreadsheet. |

## Left out

- The HTTP request itself is not modelled: base URL, bearer token, headers, the 10-second timeout and the date query parameter. The provider's answer is a parameter of the run.
- `formatDateToYYYYMMDD` and the clock are not part of this model. Dates are day numbers, and "today" is a parameter.
- knex query building and SQL text are not modelled. Tables are sequences of rows.
- The `created_at` / `updated_at` timestamps are not modelled. Nothing reads them.
- The serial `id` of `warehouse_tariffs` is not modelled. Nothing reads it.
- numeric(10,2) rounding and the driver returning decimals as strings are not modelled. Values are kept as the text written, and the `DecimalCast` oracle decides acceptance and the sort key.
- DatabaseService.UpsertDailyTariff: a statement fails only on a constraint violation or on an empty bulk insert. Connection failures inside the transaction are not modelled; they would take the same rollback path.
- DatabaseService.UpsertDailyTariff: on a new date, the model gives the child rows the id the parent insert drew. That is the code's intent, not what the code does: as written, the insert at src/services/database.service.ts:35-40 yields no id on PostgreSQL. DatabaseService.UpsertAsWritten models the code as written; see "## Findings".
- DatabaseService.Upsert: a string longer than 255 characters is always refused. PostgreSQL accepts such a value, truncated to 255 characters, when every character past the 255th is a space. That truncation is not modelled.
- DatabaseService.LatestTariffs: the order among tariffs with equal box_delivery_base is not promised by PostgreSQL. The model fixes one order, and its contract promises only sortedness and, through LatestTariffsAreLatestSnapshot, the multiset.
- The migration that creates the `spreadsheets` table is not part of this model. The table is modelled with only its unique `spreadsheet_id` column.
- Malformed provider payloads are not modelled: a missing `response.data`, or non-string values in the tariff fields. The payload is typed.
- `updateSheet` receiving `undefined` data (`!data`) is not modelled. Data is always a list, so the empty list takes that branch.
- GoogleService.SheetsApi.Send: whether the Sheets API carries out a request is a fixed predicate of the request. Retries, transient failures and quotas are not modelled, and neither is the sheet's resulting cell content.
- Google authentication and the client's construction are not modelled.
- `initializeAndStartApp` is not modelled: migrations, seeding at start-up, the hourly cron schedule and `process.exit`. The same goes for all console logging.
- Overlapping runs are not modelled: the model runs one task at a time, and concurrent cron runs and transaction isolation are out of scope.

## Findings

| source | as written | input that shows it | evidently intended | confidence | as-written member | corrected member |
|---|---|---|---|---|---|---|
| src/services/database.service.ts:35-40 | The parent insert asks for no returned columns, and its result is destructured as a list of ids. On PostgreSQL, knex then resolves the insert to the driver's result rather than to a list of ids. The destructuring either throws or leaves the id undefined, and then the child rows break the NOT NULL on `daily_tariff_id`. Either way the transaction rolls back. | The first run on a freshly migrated database, with one warehouse tariff that fits the columns. | The insert yields the new row's id, and the day's snapshot is stored (for example with `.returning('id')`). | not executed; rests on knex's PostgreSQL insert result | DatabaseService.AsWrittenFirstRunStoresNothing | DatabaseService.UpsertInsertsFreshParent |
