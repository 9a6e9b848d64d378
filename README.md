# Expense tracker: transaction table and handlers

This project models the core of a small expense tracker. An Express server
(`my-app/server.js`) exposes create, list, get, update and delete routes for
financial transactions, plus a summary route. The transactions live in one
SQLite table (`my-app/db.js`).

The model has four modules:

- `Table` (`table.dfy`) is the `transactions` schema. A `Record` holds the
  five stored columns. `category`, `amount` and `date` are non-optional,
  which is the NOT NULL constraint. `description` is an `Option`. `Fields`
  holds the five values a statement binds, each of which may be NULL.
  `Storable` is the storage-level check: the NOT NULL columns are present
  and the type is `income` or `expense`, which is the CHECK constraint.
  `RowsIn` is what `SELECT *` reads back: the rows in ascending rowid order.
- `Aggregate` (`aggregate.dfy`) is the summary. `SumOf` sums the amounts of
  one type. `GroupByType` is the `SUM(amount) ... GROUP BY type` query.
  `LastTotal` is what the handler's `forEach` leaves in a variable that it
  assigns. `Summarize` gives the three totals.
- `Transactions` (`transactions.dfy`) is the class `TransactionStore`. It
  holds the table as a map from id to record, and `nextId` stands in for the
  AUTOINCREMENT sequence. A ghost set records every id ever issued. Each route
  handler is one method, and each returns a `Response` whose constructor
  determines the HTTP status. `Valid()` is the schema's invariant: stored
  types are allowed, and every stored id was issued below `nextId`.
  `AssignGroupTotals` is the summary handler's `forEach` over the groups.
- `Scenarios` (`scenarios.dfy`) issues request sequences against a fresh
  table; each method's ensures states the answers, and the verifier proves them.

Two behaviours of the code are modelled as written:

- The create handler tests JavaScript truthiness. A text field must be
  present and non-empty. The amount must be present and not 0, so an
  amount of 0 is a `BadRequest`.
- The update handler validates nothing. An absent field is bound as NULL.
  A missing `category`, `amount` or `date` then breaks a NOT NULL
  constraint, which gives a `StorageError`, not a `BadRequest`. A missing
  `description`, an empty category and an amount of 0 are all stored.

An UPDATE or DELETE whose id matches no row writes nothing. For Update this
means a missing id gives `NotFound` even when the supplied values would
break a constraint. Any constraint failure leaves the table, the sequence
and the issued ids exactly as they were.

SQLite gives an error (SQLITE_FULL) once rowid 2^63−1 has been issued to an
AUTOINCREMENT table. Create models this as a `StorageError` when `nextId`
has passed `MaxRowId`.

The schema puts no constraint on the sign of `amount`. Only create rejects
an empty category; update stores one.

## Model

| member | source | states |
|---|---|---|
| `Table.Storable` | my-app/db.js:17-20 | definition of the column constraints: type present and `income` or `expense`, category, amount and date present; its meaning for writes is stated by `Table.ToRecord`, `Table.FieldsRoundTrip` and the StorageError cases of `Create` and `Update` |
| `Table.RowsIn` | my-app/server.js:26 | definition of the `SELECT *` listing in rowid order; its meaning is stated by `Table.RowsInContents`, `Table.RowsInAscending` and `Table.RowsInCount` |
| `Table.ToRecord` | my-app/db.js:17-21 | a record written from values that pass the constraints has an allowed type |
| `Table.FieldsRoundTrip` | my-app/db.js:17-21 | reading back a written row returns exactly the values that were bound, with a NULL description kept as NULL |
| `Table.RecordRoundTrip` | my-app/db.js:17-21 | a stored record read back passes the constraints and writes the same record again |
| `Table.RowsInContents` | my-app/server.js:26 | a row appears in the listing iff its id is in range and the table holds exactly that record under that id |
| `Table.RowsInAscending` | my-app/db.js:16 | listed ids lie in range and strictly ascend, so no id appears twice |
| `Table.RowsInCount` | my-app/server.js:26-28 | the listing has one row per stored id in range |
| `Table.RowsInFrame` | my-app/server.js:26 | the listing depends only on the entries whose ids are in range |
| `Table.RowsAfterInsert` | my-app/db.js:16 | inserting above every existing id appends exactly that one row at the end of the listing |
| `Aggregate.SumOf` | my-app/server.js:69 | definition of `SUM(amount)` over the rows of one type; its meaning is stated by `Aggregate.SumOfAbsent`, `Aggregate.SumOfConcat` and `Aggregate.SumWithout` |
| `Aggregate.LastTotal` | my-app/server.js:74-77 | definition of what the `forEach` leaves in a variable it assigns; tied to the loop by `Transactions.AssignGroupTotals` and to the sums by `Aggregate.GroupTotalIsSum` |
| `Aggregate.Summarize` | my-app/server.js:79-83 | definition of the answer from the two per-type sums; its meaning is stated by `Aggregate.SummarizeEmpty`, `Aggregate.SummarizeAppend`, `Aggregate.SummarizeAfterDelete` and `Transactions.TransactionStore.Summary` |
| `Aggregate.GroupByType` | my-app/server.js:69 | the grouped query yields at most two groups with distinct types, each for a type that some row has and that the CHECK constraint allows, each carrying the sum of that type's amounts; and every allowed type present has a group |
| `Aggregate.SumOfAbsent` | my-app/server.js:72-81 | a type that no row has totals 0 |
| `Aggregate.SumOfConcat` | my-app/server.js:69 | a type's sum over two row sequences joined is the sum of their sums |
| `Aggregate.GroupTotalIsSum` | my-app/server.js:69-77 | after the loop over the groups, the income (expense) variable holds the sum of all income (expense) amounts, or 0 when there are none |
| `Aggregate.SummarizeEmpty` | my-app/server.js:72-83 | an empty table summarises to zero income, zero expense and zero balance |
| `Aggregate.SummarizeAppend` | my-app/server.js:69-83 | a new row adds its amount to its own type's total and moves the balance by that amount; the other total is unchanged |
| `Aggregate.SumWithout` | my-app/server.js:69 | removing one id takes exactly that record's amount out of its type's sum and leaves other types' sums unchanged |
| `Aggregate.SummarizeAfterDelete` | my-app/server.js:60-63 | deleting a record subtracts its amount from its type's total and moves the balance accordingly |
| `Aggregate.SummarizeAfterUpdate` | my-app/server.js:46-52 | updating a record changes each type's sum by the new record's contribution minus the old one's |
| `Transactions.TruthyText` | my-app/server.js:11 | definition of JavaScript truthiness of a text field (present and not empty); its consequences are stated by `Transactions.RequiredFieldsBeforeStorable` and `Create`'s BadRequest case |
| `Transactions.TruthyAmount` | my-app/server.js:11 | definition of JavaScript truthiness of an amount (present and not 0); `Transactions.RequiredFieldsBeforeStorable` states that an amount of 0 never passes |
| `Transactions.HasRequiredFields` | my-app/server.js:11-13 | definition of the create guard being false; `Transactions.TransactionStore.Create` states BadRequest exactly when it fails, and `Transactions.RequiredFieldsBeforeStorable` what it leaves to the constraints |
| `Transactions.RequiredFieldsBeforeStorable` | my-app/server.js:11-13 | once the create check passes, storing fails only on the type's CHECK constraint; an amount of 0 never passes the check |
| `Transactions.TransactionStore.constructor` | my-app/db.js:14-23 | a freshly created table is empty, keeps the invariant, and issues id 1 first |
| `Transactions.TransactionStore.Valid` | my-app/db.js:14-23 | definition of the schema invariant: stored types allowed, ids issued below the sequence and within the rowid range; established by the constructor and kept by `Create`, `Update` and `Delete` |
| `Transactions.TransactionStore.Create` | my-app/server.js:9-21 | falsy type, category, amount or date gives BadRequest; a disallowed type, or an exhausted rowid range, gives StorageError; both leave table, sequence and issued ids unchanged. Otherwise the result is Created with the sequence's next id, greater than every id issued before, including deleted ones. The record read back equals the supplied fields, the count rises by one, the listing gains exactly that row at its end, and the invariant holds |
| `Transactions.TransactionStore.List` | my-app/server.js:25-30 | returns the table's listing: every stored row and nothing else, ids strictly ascending, as many rows as stored ids; the table is not changed |
| `Transactions.TransactionStore.Get` | my-app/server.js:33-40 | NotFound iff no record has the id, otherwise exactly that id's record; the table is not changed |
| `Transactions.TransactionStore.Update` | my-app/server.js:43-55 | a missing id gives NotFound; an existing id with values that break a constraint gives StorageError; in both cases nothing changes. Otherwise the result is Updated: only that id's record is replaced, by the supplied fields, and they read back exactly. The set of ids, the sequence and the invariant are kept |
| `Transactions.TransactionStore.Delete` | my-app/server.js:58-65 | NotFound iff the id is absent, Deleted iff it is present; the table afterwards is the old one without that id, so the count drops by one exactly on Deleted; the sequence and issued ids are kept |
| `Transactions.TransactionStore.Summary` | my-app/server.js:68-85 | the loop over the grouped query answers with the sum of income amounts, the sum of expense amounts and their difference, over the live table |
| `Transactions.AssignGroupTotals` | my-app/server.js:72-77 | the `forEach` loop leaves in `income` and `expense` the totals `LastTotal` gives for the groups of each type, 0 when there is none |
| `Scenarios.SalaryAndRentTotals` | my-app/server.js:79-83 | the rows income 1000 and expense 400 summarise to 1000, 400 and balance 600 |
| `Scenarios.IncomeAndExpenseSummary` | my-app/server.js:68-85 | creating income 1000 and then expense 400 summarises to 1000, 400 and balance 600 |
| `Scenarios.EmptySummary` | my-app/server.js:72-83 | a fresh table summarises to 0, 0 and 0 |
| `Scenarios.ZeroAmountRefused` | my-app/server.js:11-13 | a create with amount 0 is a BadRequest and the listing afterwards is empty |
| `Scenarios.SavingsRefused` | my-app/db.js:17 | a create with type "savings" passes the handler's check, ends in StorageError, and the listing afterwards is empty |
| `Scenarios.UpdateThenGet` | my-app/server.js:46-52 | an update followed by a get returns the new values under the same id |
| `Scenarios.UpdateWithMissingFields` | my-app/db.js:18-21 | an update without a category is a StorageError; one without a description succeeds and stores NULL there |
| `Scenarios.IdsNotReused` | my-app/db.js:16 | after a create and a delete, the next create gets id 2, not 1; get and delete on the deleted id give NotFound |

## Left out

- The Express bootstrap, JSON body parsing, the port and console logging (`my-app/server.js:1-6`, `88-90`) are HTTP plumbing. Each handler takes the parsed body as a `Fields` value.
- The sqlite3 connection, the database file, the `db.serialize` ordering and the SQL text itself are not modelled. The schema is taken as given, and the map-based store replaces the database.
- The `categories` table (`my-app/db.js:6-12`) is not modelled. Nothing reads or references it.
- Storage failures other than constraint violations and SQLITE_FULL, such as I/O errors, a locked database or an unreadable file, are not modelled. So `List`, `Get` and `Summary` never answer `StorageError`.
- Asynchronous callbacks and interleaved requests are not modelled. Each handler is one atomic, sequential method.
- Amounts are exact reals. The model does not capture IEEE-754 rounding in the `REAL` column or in `SUM`, or the NaN case of JavaScript truthiness.
- JavaScript and SQLite type coercion is not modelled. That covers a text `:id` path parameter, numbers or booleans sent as text fields, and non-numeric amounts. The id is an `int` and the amount a number.
- The error message text in each response body is not modelled. Only which response is given is.
- `Aggregate.GroupByType`: yields groups for the two allowed types only. That is the whole GROUP BY on any table that keeps its CHECK constraint, which `TransactionStore.Valid()` guarantees. A table holding other types is not modelled.
- `Transactions.TransactionStore.List`: the listing is in ascending id order, which is SQLite's rowid order for a plain `SELECT *`; SQLite itself does not promise this without `ORDER BY`.
