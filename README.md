# Gas stock ledger: a verified model

The gas stock service records stock movements of gas sold by weight. Each
movement is one row of the records table (`StockRecord`): its direction
('in' or 'out'), weight, amount, unit ('kg' or 'jin') and creation instant.
The service also keeps one summary row (`StockSummary`) holding the current
stock in kilograms, the total cost and the total sales. Four handlers change
the state:

- stock in adds a record in kilograms;
- stock out takes a weight in jin, refuses when the stock in kilograms is
  below half of it, and otherwise adds a record;
- delete reverses one record's contribution and drops the record;
- update reverses the old contribution and applies the new one, keeping the
  record's direction.

Two read paths report the summary with its profit and list the records
newest first within a time range.

The model keeps the ledger and the summary in exact agreement. After every
handler call, whether it succeeds or fails:

- stock = Σ inbound weights − Σ outbound weights / 2
- cost = Σ inbound amounts
- sales = Σ outbound amounts

Files:

- `options.dfy`: the `Option` type used for request parameters that may be
  absent.
- `ledger.dfy` (module `Ledger`): records, the contribution of one record
  (`Contribution`) and the sum over the ledger map (`Sum`), with lemmas for
  inserting, removing and replacing one entry.
- `movements.dfy` (module `Movements`): the store as a value and each handler
  as a pure step. The summary arithmetic is written the way each handler does
  it, with `+=` and `-=` per direction. The lemmas prove that every step keeps
  the invariant above, and they prove the error cases, the round trips and
  idempotence.
- `listing.dfy` (module `Listing`): the filter, newest-first ordering and
  labels of the record listing.
- `service.dfy` (module `Service`): class `StockService`. The records map, the
  id counter and the three summary figures are fields updated in place. Each
  handler method is proved to perform exactly the matching step of
  `Movements` and to keep `Valid()`.

Weights and amounts are `real`. The handlers only add, subtract and divide by
2, and over `real` that arithmetic is exact.

## Model

| member | source | states |
|---|---|---|
| `Ledger.SumRemove` | gas-stock-system/backend/app.py:25-29 | The ledger sum does not depend on the order records are added: any one record can be split off as its contribution plus the sum of the rest |
| `Ledger.SumInsert` | gas-stock-system/backend/app.py:51-62 | Adding a record under an id not yet used adds exactly that record's contribution to the ledger sum |
| `Ledger.SumDelete` | gas-stock-system/backend/app.py:157-169 | Removing a record subtracts exactly its contribution from the ledger sum |
| `Ledger.SumReplace` | gas-stock-system/backend/app.py:185-203 | Overwriting a record changes the ledger sum by the new contribution minus the old one |
| `Ledger.Contribution` | gas-stock-system/backend/app.py:159-166 | One record's share of the summary: an 'in' record adds its weight to stock and its amount to cost, and an 'out' record removes weight/2 from stock and adds its amount to sales. Its use is stated by `SumInsert`, `SumDelete`, `SumReplace`, `DeleteRecordEffect` and `UpdateRecordEffect` |
| `Ledger.JinToKg` | gas-stock-system/backend/app.py:77 | The jin-to-kilogram conversion weight / 2, also used at lines 164 and 194-195. Stated by `StockOutEffect` (stock falls by weight/2), `StockOutPreserves`, `DeleteRecordEffect` and `UpdateMayGoNegative` |
| `Movements.Given` | gas-stock-system/backend/app.py:47 | The truthiness check on a parameter: present and not zero. Its effect is stated by `MissingParamsRefused` and the iff clauses of `StockInEffect`, `StockOutEffect` and `UpdateRecordEffect` |
| `Movements.Profit` | gas-stock-system/backend/app.py:103 | profit = total_sales − total_cost. Stated by `StockInEffect` (stock in lowers profit by the amount), `StockOutEffect` (stock out raises it by the amount) and `Service.StockService.GetSummary` |
| `Movements.StockIn` | gas-stock-system/backend/app.py:41-65 | The stock_in handler as a step on the store. Stated by `StockInEffect`, `StockInPreserves`, `MissingParamsRefused` and `DeleteUndoesStockIn` |
| `Movements.StockOut` | gas-stock-system/backend/app.py:67-98 | The stock_out handler as a step on the store. Stated by `StockOutEffect`, `StockOutPreserves`, `MissingParamsRefused` and `DeleteUndoesStockOut` |
| `Movements.DeleteRecord` | gas-stock-system/backend/app.py:151-170 | The delete_record handler as a step on the store. Stated by `DeleteRecordEffect`, `DeleteRecordPreserves`, `UnknownIdFirst`, `DeleteMayGoNegative` and the two round-trip lemmas |
| `Movements.UpdateRecord` | gas-stock-system/backend/app.py:172-205 | The update_record handler as a step on the store. Stated by `UpdateRecordEffect`, `UpdateRecordPreserves`, `UnknownIdFirst`, `UpdateToCurrentIsNoOp` and `UpdateIdempotent` |
| `Listing.TypeLabel` | gas-stock-system/backend/app.py:143 | 'in' is labelled 入库 and every other direction 出库. Stated by `LabelsDistinguish` |
| `Listing.UnitLabel` | gas-stock-system/backend/app.py:145 | 'kg' is labelled 公斤 and every other unit 斤. Stated by `LabelsDistinguish` |
| `Listing.Present` | gas-stock-system/backend/app.py:141-148 | One entry of the answer: the id, the labelled direction, the weight, the labelled unit, the amount and created_at. Stated by `ListRecordsMembers`, `ListLedger` and `Service.StockService.GetRecords` |
| `Listing.InRange` | gas-stock-system/backend/app.py:121-130 | start ≤ created_at when a start is given and created_at ≤ end when an end is given. Stated by `Filter`, `ListRecordsMembers` and `ListLedger` |
| `Movements.Initial` | gas-stock-system/backend/app.py:35-38 | The state at first boot has an empty ledger and stock, cost and sales all 0, so the ledger–summary invariant holds |
| `Movements.StockInPreserves` | gas-stock-system/backend/app.py:47-63 | Stock in keeps the invariant. The handler's own `+= weight`, `+= amount` equals adding the new record's contribution, and the new id is fresh |
| `Movements.StockOutPreserves` | gas-stock-system/backend/app.py:73-96 | Stock out keeps the invariant. The handler's `-= weight/2`, `+= amount` equals the contribution of an 'out' record stored in jin |
| `Movements.DeleteRecordPreserves` | gas-stock-system/backend/app.py:152-169 | Delete keeps the invariant. The per-direction reversal equals removing the record's contribution |
| `Movements.UpdateRecordPreserves` | gas-stock-system/backend/app.py:173-204 | Update keeps the invariant. Reversing the old figures and applying the new ones in the record's own direction equals replacing its contribution |
| `Movements.RunPreserves` | gas-stock-system/backend/app.py:41-205 | Any sequence of handler calls, successful or not, from an invariant-satisfying state ends in one |
| `Movements.FromBootConsistent` | gas-stock-system/backend/app.py:35-205 | Every state reachable from first boot through the four handlers satisfies the invariant |
| `Movements.FailureChangesNothing` | gas-stock-system/backend/app.py:47-183 | Every error answer (missing parameters, insufficient stock, unknown id) leaves the ledger, the counter and the summary unchanged |
| `Movements.MissingParamsRefused` | gas-stock-system/backend/app.py:44-48 | An absent or zero weight or amount is refused with MissingParams by stock in, stock out (lines 73-74) and update of an existing id (lines 182-183), with no change |
| `Movements.UnknownIdFirst` | gas-stock-system/backend/app.py:173-183 | An unknown id gives NotFound with no change for update, even with bad parameters, and for delete |
| `Movements.StockInEffect` | gas-stock-system/backend/app.py:51-63 | Stock in succeeds iff both parameters are given, that is present and non-zero, so negative values pass. It adds exactly one 'in'/kg record with the given weight, amount and time under a fresh id, leaves the other records as they were, raises stock by weight and cost by amount, leaves sales unchanged and lowers profit by amount |
| `Movements.StockOutEffect` | gas-stock-system/backend/app.py:76-96 | With both parameters given (present and non-zero, negative values included), stock out answers InsufficientStock iff stock < weight/2 and succeeds iff stock ≥ weight/2. On success it adds one 'out'/jin record, lowers stock by weight/2, raises sales by amount and leaves the stock ≥ 0 |
| `Movements.DeleteRecordEffect` | gas-stock-system/backend/app.py:157-169 | Deleting an existing id succeeds, removes only that record, leaves the id counter as it was and moves the summary by exactly minus the record's contribution |
| `Movements.DeleteMayGoNegative` | gas-stock-system/backend/app.py:157-161 | Delete does not re-check stock: deleting an 'in' record heavier than the current stock succeeds and leaves negative stock |
| `Movements.UpdateMayGoNegative` | gas-stock-system/backend/app.py:192-199 | Update does not re-check stock: raising an 'out' record's weight so that weight/2 exceeds the stock plus the old weight/2 succeeds and leaves negative stock |
| `Movements.DeleteUndoesStockIn` | gas-stock-system/backend/app.py:157-169 | A successful stock in followed by deleting the new record restores the ledger and all three summary figures. Only the id counter has moved on |
| `Movements.DeleteUndoesStockOut` | gas-stock-system/backend/app.py:157-169 | A successful stock out followed by deleting the new record restores the ledger and all three summary figures |
| `Movements.UpdateRecordEffect` | gas-stock-system/backend/app.py:185-203 | Update of an existing id succeeds iff both parameters are present and non-zero, negative values included. It changes only that record's weight and amount, keeping its direction, unit, time, the id counter and the other records. The summary moves by new contribution − old contribution. There is no stock re-check |
| `Movements.UpdateToSameIsNoOp` | gas-stock-system/backend/app.py:186-203 | Updating a record to its current weight and amount succeeds and changes nothing |
| `Movements.UpdateToCurrentIsNoOp` | gas-stock-system/backend/app.py:186-203 | In every store the handlers can reach, updating a record to its current weight and amount succeeds and changes nothing: the invariant guarantees the stored values are non-zero, so they pass the parameter check |
| `Movements.UpdateIdempotent` | gas-stock-system/backend/app.py:186-203 | Applying the same update twice gives the same answer and the same state as applying it once |
| `Listing.LabelsDistinguish` | gas-stock-system/backend/app.py:143-145 | The direction labels 入库/出库 tell 'in' from 'out', and the unit labels 公斤/斤 tell kg from jin |
| `Listing.Filter` | gas-stock-system/backend/app.py:121-130 | A row is kept, as often as it occurs, iff start ≤ created_at (when start is given) and created_at ≤ end (when end is given) |
| `Listing.InsertNewestFirst` | gas-stock-system/backend/app.py:133 | Inserting a row into a newest-first sequence gives a newest-first sequence holding exactly one more row |
| `Listing.SortNewestFirst` | gas-stock-system/backend/app.py:133 | The result is ordered by created_at descending and is a permutation of the input |
| `Listing.ListRecords` | gas-stock-system/backend/app.py:118-149 | The listing is ordered by created_at descending and is a permutation of the labelled in-range rows |
| `Listing.ListRecordsMembers` | gas-stock-system/backend/app.py:121-148 | An entry is in the listing iff it is the labelled form of some in-range row |
| `Listing.ListRecordsDistinct` | gas-stock-system/backend/app.py:133-148 | A table with distinct ids gives a listing with distinct ids, so no record is listed twice |
| `Listing.ListLedger` | gas-stock-system/backend/app.py:111-149 | Listing a table read in any order gives exactly the in-range records of the ledger, each once with its labels, newest first |
| `Service.StockService.constructor` | gas-stock-system/backend/app.py:35-38 | The service starts with no records and a zeroed summary row, and the invariant holds |
| `Service.StockService.StockIn` | gas-stock-system/backend/app.py:41-65 | Updates the fields in place exactly as `Movements.StockIn` prescribes and keeps the invariant |
| `Service.StockService.StockOut` | gas-stock-system/backend/app.py:67-98 | Updates the fields in place exactly as `Movements.StockOut` prescribes and keeps the invariant |
| `Service.StockService.DeleteRecord` | gas-stock-system/backend/app.py:151-170 | Updates the fields in place exactly as `Movements.DeleteRecord` prescribes and keeps the invariant |
| `Service.StockService.UpdateRecord` | gas-stock-system/backend/app.py:172-205 | Updates the fields in place exactly as `Movements.UpdateRecord` prescribes and keeps the invariant |
| `Service.StockService.GetSummary` | gas-stock-system/backend/app.py:100-109 | Reports the three stored figures and profit = total_sales − total_cost, which equals Σ outbound amounts − Σ inbound amounts of the surviving records. It changes nothing |
| `Service.StockService.GetRecords` | gas-stock-system/backend/app.py:111-149 | Returns every record whose created_at is within the given bounds, each once and labelled, newest first, and nothing else. It changes nothing |

## Left out

- HTTP routing, `request.get_json`, `jsonify`, status codes and CORS are plumbing. Each handler returns an `Outcome` (Ok, MissingParams, InsufficientStock, NotFound) instead of a status and message.
- SQLAlchemy and SQLite sessions are not modelled. Each handler method is one atomic step, and a crash between the ledger write and the summary write is not modelled.
- Concurrent requests and the lost update on the shared summary row are not modelled. The model is sequential.
- `created_at` comes from `datetime.utcnow` at insert time. The model takes it as the parameter `now` of the two create handlers.
- Ids are a counter starting at 1 that never goes back. SQLite hands out max(rowid)+1, so after deletes at the top of the id range it reuses every deleted id above the largest surviving one: create 1, 2 and 3, delete 3 and then 2, and the next two inserts get 2 and 3 again. The model's ids therefore differ from the program's after such deletes: stock in, delete 1, stock in gives id 1 in the program and id 2 in the model, so a later update of id 1 is Ok there and NotFound here. The invariant and every lemma only rely on each new id being unused by the live records, which holds under both schemes.
- The date strings of the listing and their conversion through `strptime` and the Asia/Shanghai zone are not modelled. The bounds are given as already-converted integer instants, absent when the string is missing or empty, and `created_at` is returned as an instant rather than a formatted local-time string. Line 129 sets the time of day to 23:59:59.999999 on the UTC value after conversion. So the actual end bound falls early on the end date in local time, not at the local end of that day. That conversion is not part of this model.
- Floating point: the `db.Float` columns are modelled as exact `real`, so rounding is not modelled. Update idempotence and the delete round trips are exact in the model but hold only up to rounding in the program.
- Python's dynamic typing is not modelled: a truthy non-numeric parameter would raise at `/ 2` or `+=`. Parameters are `Option<real>`, and "missing" means absent or zero.
- The order of records with equal `created_at` in the listing is not fixed by `ORDER BY created_at DESC`. `Listing.ListRecords` fixes one order, but its contract and `Service.StockService.GetRecords` promise only that the order is descending.

## Notes

- The handlers test weight and amount for truthiness only. A negative weight or amount is accepted, and a weight or amount of 0 is refused as missing (`Movements.Given`).
