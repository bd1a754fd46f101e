# Inventory ledger: a Dafny model

This project models the core of a small inventory back end. The back end keeps four tables:

- products;
- purchases, which move stock in;
- sales, which move stock out;
- uploaded sales files.

Its views read, create, update and delete products, create purchases and sales, and serve an inventory feed for one product: that product's purchases and sales merged into one list ordered by date. A batch command expands each pending sales file into one sale per spreadsheet row and marks the file processed.

The model has these modules:

- `Models` (`models.dfy`): the records, their validators (name length, price and quantity not below zero, file-name length), the three sales-file status codes, and a cascading delete as an operation on a table.
- `Stock` (`stock.dfy`): a product's purchased and sold totals. Each table maps ids to records, and every id lies below the table's next-id counter, so a total is a sum over the ids below that counter. Its lemmas say how an insert and a cascade change a total.
- `Feed` (`feed.dfy`): the inventory feed as a pure function. It builds two tagged queries (type 1 for purchases, type 2 for sales, each row carrying the product's price), joins them, and sorts the result by date.
- `Ledger` (`ledger.dfy`): the store as a class whose fields are the four tables. Its methods are the views plus the insert and delete of a sales-file row. Each one states the whole new state, every id counter included: inserts, updates, the cascade of a product delete, and the stock rule for manual sales.
- `ImportSales` (`import_sales.dfy`): the import worker. `Execute` imports one file atomically. `ImportRows` is its write step. `Handle` is the drain loop, which repeatedly picks the pending file with the smallest id; `ImportNext` is one round of it.
- `Scenarios` (`scenarios.dfy`): three client flows, written only against the contracts. In the first, a sale that would overdraw stock is refused and one within stock is accepted. In the second, the product's feed then has one purchase row and one sale row. In the third, a pending file is imported regardless of stock, its rows become the next three sales, and a second pass changes nothing.

Inputs from outside the system are parameters:

- The clock is a `now: Date` argument.
- The parsed spreadsheets are a stage map from file name to rows. A file name missing from the map stands for a file that cannot be read.

Dates are integers.

The modules do not agree on names: `api/inventory/views.py:8` imports `Sales`, which `api/inventory/models.py` does not define, and `batch/management/commands/import_sales.py:5` imports `SalesFile` and `Status`, which it does not define either. The model follows the field names of `api/inventory/models.py` and migration 0002:

- The sales model is `Sale` with field `sale_date` (`api/inventory/models.py:36-48`). The view module imports it as `Sales` and queries `sales_date` (`api/inventory/views.py:8`, `:106-107`). Both names are treated as one entity.
- `api/inventory/models.py` declares no `SalesFile`, `Status` or `import_file`. Those come from migration 0002, which the import command relies on.
- `SalesView.post` has no stock check in the view or the serializer. The tests expect 422 for a sale beyond stock (`api/inventory/tests/test_views.py:221-236`), so `RecordSale` implements the rule the tests state: a sale is accepted only when sold + quantity <= purchased.

## Model

| member | source | states |
|---|---|---|
| Models.StatusCode | api/inventory/migrations/0002_salesfile_sale_import_file.py:30-40 | every status is stored as one of the declared codes 0, 1, 2 |
| Models.StatusOf | api/inventory/migrations/0002_salesfile_sale_import_file.py:30-40 | a stored code decodes exactly when it is 0, 1 or 2, and decoding is the inverse of `StatusCode` |
| Models.ValidProduct | api/inventory/models.py:10-12 | a product is valid when its name is non-empty and at most 100 characters and its price is at least 0 |
| Models.ValidQuantity | api/inventory/models.py:26-27 | a purchase or sale quantity is valid when it is at least 0 (the same validator is on `Sale.quantity`, lines 41-42) |
| Models.ValidSalesFile | api/inventory/migrations/0002_salesfile_sale_import_file.py:26-29 | a sales file is valid when its name is at most 100 characters |
| Models.DateOrNow | api/inventory/models.py:28 | `default=now` (also on `Sale.sale_date`, line 43): a given date is kept, a missing one becomes the clock's value; `RecordPurchase` and `RecordSale` state the stored date through it |
| Models.Cascade | api/inventory/models.py:25 | after an on_delete=CASCADE a row survives exactly when it is not owned by the deleted parent, and survivors are unchanged |
| Stock.TotalFrame | api/inventory/tests/test_views.py:221-236 | a stock total depends only on that product's events |
| Stock.Total | api/inventory/tests/test_views.py:221-236 | the per-product sum of quantities the stock rule compares; its properties are the lemmas below |
| Stock.TotalBasics | api/inventory/models.py:26-27 | a product with no events has total 0, and no total is negative when no quantity is |
| Stock.TotalInsert | api/inventory/views.py:74-93 | inserting an event at the next id adds its quantity to its own product's total and leaves every other product's total unchanged |
| Stock.CascadeKeepsTotal | api/inventory/models.py:25 | a cascade that keeps every row of a product leaves that product's total unchanged |
| Feed.TaggedRows | api/inventory/views.py:104-107 | each filtered query row is an event of the product, tagged with its type and the price; every such event appears; ids are increasing |
| Feed.IdsBelowStep | api/inventory/views.py:104-107 | raising a query's id bound by one adds one id exactly when that id is an event of the product |
| Feed.TaggedRowsMember | api/inventory/views.py:104-107 | a row is in a tagged query exactly when it is the tagged row of an event of the product below the bound |
| Feed.TaggedRowsCount | api/inventory/views.py:104-107 | a query has exactly as many rows as the product has events below the bound |
| Feed.TaggedRowsLength | api/inventory/views.py:104-107 | with a bounded table, a query returns one row per event of the product |
| Feed.Tagged | api/inventory/views.py:108 | `purchase.union(sales)`: the purchase query's rows followed by the sale query's; `Build`, `FeedMovements` and `FeedLength` state what it holds |
| Feed.LowerBound | api/inventory/views.py:108 | a date below an inserted row and below every row of a list is below every row of any rearrangement of the two |
| Feed.InsertStep | api/inventory/views.py:108 | putting a list's head back in front of an insertion into its rest keeps the result ordered and adds exactly the inserted row |
| Feed.InsertByDate | api/inventory/views.py:108 | inserting into a date-ordered list keeps it ordered and adds exactly that row |
| Feed.SortByDate | api/inventory/views.py:108 | `order_by(date)` returns a permutation of its input that is ordered by date |
| Feed.Build | api/inventory/views.py:104-108 | the feed is ordered by date and is a permutation of the union of the two tagged queries; with no product to join the price from, it is empty |
| Feed.FeedMovements | api/inventory/views.py:104-108 | a row is in the feed exactly when it is the tagged row of a purchase or a sale of the product |
| Feed.FeedLength | api/inventory/tests/test_views.py:239-252 | the feed has one row per purchase and one per sale of the product |
| Feed.FeedEmpty | api/inventory/tests/test_views.py:255-262 | with intact foreign keys, the feed is empty exactly when the product has no purchases and no sales, including for an unknown id |
| Feed.Inventory | api/inventory/views.py:96-110 | the response is either rows or BadRequest; BadRequest exactly when the request has no id; the rows are ordered by date, and empty for an unknown product |
| Ledger.Store.Valid | api/inventory/models.py:6-48 | the store invariant: ids lie below their counters, stored products, purchases and files pass their validators, and every product and file reference resolves |
| Ledger.Store.Purchased | api/inventory/tests/test_views.py:221-236 | the purchased total the stock rule compares with: 0 for a product with no purchases, and never negative while purchase quantities are valid |
| Ledger.Store.Sold | api/inventory/tests/test_views.py:221-236 | the sold total the stock rule compares with: 0 for a product with no sales |
| Ledger.Store.StockHolds | api/inventory/tests/test_views.py:221-236 | no product has sold more than was purchased of it |
| Ledger.Store.constructor | api/inventory/models.py:6-48 | an empty, valid store where every counter starts at 1 |
| Ledger.Store.GetObject | api/inventory/views.py:19-26 | returns the product when its id exists, otherwise NotFound |
| Ledger.Store.Get | api/inventory/views.py:28-39 | with no id, returns the whole catalogue; with an id, returns that product, or NotFound when it is absent |
| Ledger.Store.Post | api/inventory/views.py:41-48 | a valid product is stored under the next id and the counter advances by one; an invalid one gives BadRequest and changes nothing, counter included; other tables are unchanged |
| Ledger.Store.Put | api/inventory/views.py:50-58 | an absent id gives NotFound before any validation; invalid data gives BadRequest; otherwise only that product's entry is replaced |
| Ledger.Store.Delete | api/inventory/views.py:60-66 | an absent id gives NotFound; otherwise the product and all its purchases and sales go, other rows and their totals stay, its totals become 0, and the stock invariant is preserved |
| Ledger.Store.RecordPurchase | api/inventory/views.py:74-82 | with an unknown product or a negative quantity, gives BadRequest; otherwise appends the purchase under the next id, with the date defaulting to now, and the counter advances by one (it stays put on BadRequest); only that product's purchased total grows, by the quantity; the stock invariant is preserved |
| Ledger.Store.RecordSale | api/inventory/tests/test_views.py:201-236 | with invalid input, gives BadRequest; Rejected exactly when sold + quantity would exceed purchased; otherwise appends a manual sale under the next id; the sale counter advances exactly when the sale is accepted; the sold total stays within purchased; other products are unchanged; the stock invariant is preserved |
| Ledger.Store.CreateSalesFile | api/inventory/migrations/0002_salesfile_sale_import_file.py:26-29 | a file row is stored under the next id, and the counter advances by one, exactly when its name fits 100 characters; otherwise nothing changes |
| Ledger.Store.DeleteSalesFile | api/inventory/migrations/0002_salesfile_sale_import_file.py:48-58 | deleting a file row removes exactly the sales imported from it and keeps every other sale unchanged |
| Ledger.Store.Inventory | api/inventory/views.py:96-110 | over a valid store the response is rows or BadRequest, BadRequest exactly without an id; the rows are ordered by date, empty exactly when the product has no events, and one per event of an existing product |
| Scenarios.StockRule | api/inventory/tests/test_views.py:221-236 | after buying 5, a sale of 10 is refused, a sale of 5 is accepted and one more unit is refused: 5 purchased and 5 sold |
| Scenarios.PendingFile | api/inventory/migrations/0002_salesfile_sale_import_file.py:26-40 | registering a file after those sales leaves it as the one pending file, with the sale counter at 2 |
| Scenarios.WidgetDrainEffect | batch/management/commands/import_sales.py:17-22 | importing the file that stages 3, 4 and 2 units of Widget appends those rows after the manual sale, takes three ids and sells 9 units |
| Scenarios.ImportDrain | batch/management/commands/import_sales.py:29-37 | one drain imports the pending file without a stock check: Widget ends with 14 sold against 5 purchased, the file is processed and nothing is pending |
| ImportSales.RowSale | batch/management/commands/import_sales.py:18-19 | the `Sale(...)` built from one spreadsheet row: its product, date and quantity, and a reference to the file; `AppendedContents` states where each one is stored |
| ImportSales.Appended | batch/management/commands/import_sales.py:17-22 | `bulk_create` of the rows' sales at the ids `next`, `next + 1`, …; its contents are stated by `AppendedContents`, `AppendedReferences` and `SoldAfterImport` |
| ImportSales.AppendedContents | batch/management/commands/import_sales.py:17-22 | bulk_create keeps every old sale and adds exactly one sale per row at consecutive ids, each with the row's product, date and quantity and a reference to the file |
| ImportSales.AppendedReferences | batch/management/commands/import_sales.py:17-22 | the appended rows stay below the new counter, and every new sale refers to an existing product and to the file |
| ImportSales.SoldAfterImport | batch/management/commands/import_sales.py:17-22 | without any stock check, each product's sold total grows by exactly the quantities of its rows |
| ImportSales.FirstPending | batch/management/commands/import_sales.py:31-32 | finds the first unprocessed file in an id range, or reports that there is none |
| ImportSales.OldestPending | batch/management/commands/import_sales.py:31-32 | `filter(status=ASYNC_UNPROCESSED).order_by('id').first()` gives the smallest pending id, and None exactly when nothing is pending |
| ImportSales.ImportRows | batch/management/commands/import_sales.py:17-25 | the writes of an import: the rows' sales are appended at the next ids, the counter advances by their number, the file becomes processed, sold totals grow by the rows, and the store stays valid |
| ImportSales.Execute | batch/management/commands/import_sales.py:8-25 | a file that is not pending is skipped; an unreadable file or a row with an unknown product rolls back completely; otherwise one sale per row is appended at consecutive ids, each holding its row and referring to the file, the file becomes processed, and sold totals grow by the rows |
| ImportSales.FilesTotalSnoc | batch/management/commands/import_sales.py:29-37 | the rows imported over a sequence of files add up file by file |
| ImportSales.FilesRowsSnoc | batch/management/commands/import_sales.py:29-37 | the number of rows imported over a sequence of files adds up file by file |
| ImportSales.FullyDrained | batch/management/commands/import_sales.py:33-35 | a pass that ends with nothing pending has imported every file pending at its start, each exactly once |
| ImportSales.ProgressPending | batch/management/commands/import_sales.py:29-37 | during a drain, a file is still pending exactly when it was pending and has not been imported |
| ImportSales.DrainStep | batch/management/commands/import_sales.py:29-37 | importing the oldest pending file extends the progress and removes exactly that file from the pending set |
| ImportSales.StoppedAt | batch/management/commands/import_sales.py:29-37 | a pass that stops at a pending file has imported every older pending file |
| ImportSales.AppendedAll | batch/management/commands/import_sales.py:29-37 | the sales after importing a sequence of files one at a time, each file's rows appended after the earlier files'; its keys and kept sales are stated by `AppendedAllKeys` |
| ImportSales.AppendedAllKeys | batch/management/commands/import_sales.py:29-37 | importing a sequence of files keeps every earlier sale and adds exactly the ids from the counter up to the counter plus their total row count |
| ImportSales.SalesStep | batch/management/commands/import_sales.py:29-37 | one more import keeps every earlier sale, and all totals account for exactly the processed files |
| ImportSales.TailOfIncreasing | batch/management/commands/import_sales.py:31-32 | the tail of an increasing id list is increasing and lists every id of the list except its head, which it does not list |
| ImportSales.IncreasingCount | batch/management/commands/import_sales.py:31-32 | ids listed in increasing order are listed once each |
| ImportSales.ImportNext | batch/management/commands/import_sales.py:31-37 | one round of the drain on the oldest pending file: on success the file is processed, leaves the pending set, and its rows are appended after those of the earlier rounds; on failure nothing changes and the reason is the one `Execute` gives |
| ImportSales.Handle | batch/management/commands/import_sales.py:29-37 | the drain terminates; it imports pending files by increasing id, each exactly once, until none is pending, or stops at the first failing file, which stays pending; the new sales are exactly one `RowSale` per row of each imported file, in import order at consecutive ids; sold totals grow by the imported rows, and the sale counter by their number; with nothing pending it is a no-op, sale counter included |

## Left out

- Row locking (`select_for_update`) and concurrent requests are not modelled. Each operation runs alone on the store, so two sales racing past the stock check cannot occur in the model.
- CSV reading with pandas is not modelled. Each file's rows are given by the stage map, and any read or parse error is one `Unreadable` outcome.
- HTTP routing, request parsing and serializer output formats are not modelled. Views return the affected record or id, or an error category:
  - `NotFound` stands for 404;
  - `BadRequest` stands for 400;
  - `Rejected` stands for 422.
- `ProductModelViewSet` (`api/inventory/views.py:69-71`) is left out. It is routed only for `list` and `create` (`api/inventory/urls.py:8-9`), so it duplicates `Get(None)` and `Post` with the same serializer validation. The product-create tests go through it (`api/inventory/tests/test_views.py:72-73`, `:89-90`).
- The synchronous sales-upload view (`SalesSyncView`) is not part of this model: no view in `api/inventory/views.py` creates `SalesFile` rows. File rows are created and deleted through `CreateSalesFile` and `DeleteSalesFile`.
- Migration 0001 is not part of this model. Its schema matches the records in `Models`.
- Rows of equal date in the feed: the database's order between them is unspecified. The model fixes one order (that of an insertion sort) and claims nothing about it.
- Ledger.Store.Get: the catalogue is returned as the whole table, not as a list in the database's order.
- Ledger.Store.Put: replaces every field, as a full PUT with all fields does. Partial-field semantics are not modelled.
- Ledger.Store.RecordSale: the stock rule comes from the tests. The view and serializer do not enforce it.
- ImportSales.Execute: `StockHolds` is not preserved by an import, because the import has no stock check at all: in `Scenarios.ImportDrain` Widget ends with 14 sold against 5 purchased. No contract claims it is.
- Ledger.Store.DeleteSalesFile: `StockHolds` is not preserved either. The quantities of imported rows are not validated, because `bulk_create` skips field validators, so removing a negative imported sale raises the sold total. No contract claims it is.
- ImportSales.Execute: dates and quantities are taken as the parsed row gives them. Type coercion of spreadsheet cells is not modelled.
- ImportSales.Handle: an import failure ends the pass (`Aborted`), as an exception escaping the loop would. Retrying and logging are not modelled.
- Models.ValidProduct: the price is bounded only below. The integer column's range, which the serializer takes from the database backend and enforces with 400, is not modelled.
- Models.ValidProduct: the name is checked as given. The serializer's `CharField` strips surrounding whitespace before its blank and length checks, so a name of only spaces, which the source refuses with 400, is accepted here, and a name is stored untrimmed.
- Models.ValidQuantity: the quantity is bounded only below. The integer column's range, enforced by the serializer with 400, is not modelled.
- Timestamps are integers. Time zones and the `DateTimeField` format are not modelled.
