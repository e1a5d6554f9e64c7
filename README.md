# Sales analytics API: store and aggregation model

A Dafny model of the in-memory sales API of a small sales-analytics demo
(`app/api/main.py`). The API keeps one global, ordered list of sale records.
It answers four read queries over that list and one write:

- the KPI snapshot: total revenue, order count, average ticket and two fixed placeholder figures;
- the list of all records;
- a daily rollup over a trailing window of days (7 by default), with random filler for days that have no records, and an internal-error answer when the window reaches before the first representable date;
- a per-category rollup, in order of first occurrence;
- a batch import that appends records.

Files and modules:

- `records.dfy`, module `SaleRecords`: the `SaleItem` record and the recursive sums `Revenue` (sum of `amount * quantity`) and `TotalQuantity`, with their additivity lemmas.
- `rollups.dfy`, module `Rollups`: the specification of each report and the lemmas about them.
  - `Kpis` is the KPI snapshot.
  - `OnDate`, `WindowDays` and `WindowDates` describe the daily window. `NewestFirst` is the date list as first built, and `WindowOverflows` says when building it fails.
  - `InCategory`, `Categories` and `FirstIndex` describe the category groups. `InCategory` has the same shape as `OnDate`, because the source filters by date string and groups by category string in the same way; they are kept apart because they model two different source lines.
  - `Tally` says that a list of groups is the category rollup of some records. `TallyExtend` shows that one step of the rollup loop keeps `Tally` true.
- `store.dfy`, module `SalesApi`: the class `SalesStore`. Its field `sales: seq<SaleItem>` stands for the global list, and the constructor seeds it with the five built-in records. Its methods are the endpoints:
  - the KPI endpoint is the pure function `Rollups.Kpis` applied to `sales`, because the source computes it as a single expression over the list;
  - `GetAllSales` returns the list;
  - `GetDailySales` loops over the window's dates and filters the list once per date; `GetSalesByCategory` loops over the list once. Both are loops, like the source, and both are proved against the functions of `Rollups`;
  - `ImportBatch` appends item by item and `modifies` the store.

Modelling decisions:

- Money is `real`. Python floats become exact rationals, and `round(..., 2)` is not modelled.
- A date is its proleptic Gregorian ordinal, as Python's `date.toordinal` gives it: 0001-01-01 is day 1 and 9999-12-31 is day 3652059. "Now" is the parameter `today`, which lies in that range. The `strftime` rendering is the parameter `fmt: int -> string`.
- `days` defaults to 7 in `GetDailySales`, as the query parameter does. It is the method's last parameter.
- The random filler is the caller-supplied sequence `draws`. `draws[k]` is what `random.uniform(1000, 5000)` and `random.randint(5, 20)` return for the k-th day of the window, and a `requires` clause keeps every draw within those bounds.
- The `categories` dictionary of the source is a `seq<CategoryTotal>` plus a `map<string, nat>`. The sequence holds the values in insertion order, which is Python's dict order. The map gives each key's position in that sequence. The loop opens a zero group for a new category and then adds the line, as the source does.
- `amount` and `quantity` are unconstrained (`real`, `int`). The API's request model checks only the type of each field, so negative prices and zero quantities are stored as given. The model does not claim that they are rejected.
- `days <= 0` is accepted and gives an empty window, as `range(days)` does. The code does not check that `days` is positive.

## Model

| member | source | states |
|---|---|---|
| `SaleRecords.RevenueAppend` | app/api/main.py:90 | the revenue sum is additive over concatenation of record lists |
| `SaleRecords.TotalQuantityAppend` | app/api/main.py:153 | the quantity sum is additive over concatenation of record lists |
| `SaleRecords.RevenueNonNegative` | app/api/main.py:90 | if no record has a negative price or quantity, total revenue and total quantity are non-negative |
| `Rollups.Kpis` | app/api/main.py:85-99 | total revenue is the sum of `amount * quantity`; orders is the number of records; with no records the average ticket is 0 and no division happens; otherwise average × orders = revenue; active customers is 150 and growth is 12.5 |
| `Rollups.KpisAfterImport` | app/api/main.py:164-170 | appending a batch raises revenue by the batch's revenue and the order count by the batch size |
| `Rollups.KpisAfterResubmit` | app/api/main.py:164-170 | submitting the same batch twice counts its revenue and orders twice, so import does not deduplicate |
| `Rollups.OnDateMembers` | app/api/main.py:118-122 | the per-day filter keeps exactly the records whose date string equals the day's string, each as many times as it occurs in the store, so the day's order count counts repeated records |
| `Rollups.OnDateNonEmpty` | app/api/main.py:118-120 | a day has matches exactly when some record carries that date string |
| `Rollups.WindowShape` | app/api/main.py:112-113 | the window is oldest first and ends at today; every day lies in the last `days` days; consecutive entries differ by one day |
| `Rollups.WindowDatesDistinct` | app/api/main.py:113 | if the date formatter gives distinct strings to distinct days of the window, the window has no duplicate dates |
| `Rollups.ReversedIsWindow` | app/api/main.py:113-114 | reversing the newest-first date list (today, then each day before it) gives the oldest-first window |
| `Rollups.OverflowMeansEarlyDay` | app/api/main.py:112-113 | building a non-empty window fails exactly when one of its days lies before 0001-01-01 |
| `Rollups.InCategoryMembers` | app/api/main.py:145-146 | the per-category filter keeps exactly the records whose category string is equal, with no normalisation, each as many times as it occurs in the store |
| `Rollups.CategoriesMembers` | app/api/main.py:144-151 | a category string is listed exactly when some record carries it |
| `Rollups.CategoriesDistinct` | app/api/main.py:146-151 | each category is listed once |
| `Rollups.CategoriesFirstSeen` | app/api/main.py:142-155 | categories are listed in order of their first occurrence among the records |
| `Rollups.FirstIndex` | app/api/main.py:146 | gives the position of the first record of a category, or the length when there is none |
| `Rollups.TallyExtend` | app/api/main.py:144-153 | one loop step (open a zero group if the category is new, then add the line) turns the rollup of the records seen so far into the rollup of one more record |
| `Rollups.StepSums` | app/api/main.py:152-153 | one loop step keeps the groups' revenue and quantity sums equal to the totals of the records seen |
| `Rollups.StepGroups` | app/api/main.py:146-153 | one loop step keeps each group's totals equal to the totals of its category's records |
| `SalesApi.SeedKpis` | app/api/main.py:49-55 | the five seed records give revenue 11300, 5 orders and an average ticket of 2260 |
| `SalesApi.RollupAdvance` | app/api/main.py:144-153 | one iteration of the category loop, with its dictionary update, keeps the loop state |
| `SalesApi.SalesStore.constructor` | app/api/main.py:49-55 | the store starts with the five seed records, in order |
| `SalesApi.SalesStore.GetAllSales` | app/api/main.py:101-104 | returns the store's records unchanged and in insertion order, and changes nothing |
| `SalesApi.SalesStore.GetDailySales` | app/api/main.py:106-137 | answers with the internal error exactly when the window reaches before 0001-01-01; otherwise returns one record per window day, oldest first, with the window's date strings (none when `days <= 0`); a day with matches gets the sum of `amount * quantity` and the count of its matches; a day without matches gets its draw, with revenue in [1000, 5000] and orders in [5, 20] |
| `SalesApi.SalesStore.GetSalesByCategory` | app/api/main.py:139-155 | returns one group per distinct category in first-seen order, each with the revenue and quantity of its records; the groups' revenue sums to total revenue and their quantity to total quantity |
| `SalesApi.SalesStore.ImportBatch` | app/api/main.py:157-170 | the store becomes the old records followed by the batch, in the order given; earlier records are unchanged; returns the batch size |

These contracts compose. After `ImportBatch(b)`, `GetAllSales` returns the
earlier records followed by `b`, so an import can be read back in order.
`KpisAfterImport` and `KpisAfterResubmit` give the KPI effect of an import.

## Left out

- `root` and `health_check` (app/api/main.py:57-83): both return constant dictionaries, and the health check adds a wall-clock timestamp.
- FastAPI routing and the CORS middleware (app/api/main.py:25-30): these are web framework configuration.
- Error logging and the import endpoint's `HTTPException` (app/api/main.py:135-137, 180-182). The import handler is not modelled, because appending a validated record cannot fail. The daily endpoint's error path is modelled.
- SalesApi.SalesStore.GetDailySales: the HTTP 500 answer is `None`, and its detail message is not modelled. The model fails only on a date before 0001-01-01. `timedelta`'s own limit of 999999999 days is never reached first, because the window passes day 1 long before that. No upper date limit is modelled, because the window never goes past today.
- The request model's type coercion and its 422 rejection of bad input, which happen before `import_sales_batch` runs. The model also leaves out the response model's re-validation of `get_all_sales` output.
- `round(..., 2)` and float arithmetic: amounts are exact `real` values.
- `datetime.now`, `timedelta` and `strftime`: these are the `today` and `fmt` parameters.
- `random.uniform` and `random.randint`: these are the `draws` parameter, constrained only by its bounds.
- SalesApi.SalesStore.GetDailySales: draw `k` belongs to window position `k`. The source takes random values only on days without matches, one after another. Both are arbitrary values within the same bounds, so the reports are the same.
- Concurrent access to the global list: the source has no locking.
- The dashboard pages and the database seeding script: these are presentation and external-database I/O.
