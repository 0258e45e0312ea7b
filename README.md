# store-backend inventory core, modelled in Dafny

The model covers the inventory and sales core of a small drinks-store backend. It has two tables:
- `drinks_inventory`: one mutable row per product, with stock kept both as whole packs and as loose pieces, nullable pack and piece prices, a low-stock threshold and a "notified" flag.
- `daily_sales`: an append-only sales ledger.

The model covers these operations:
- **Process a sale.** The row is locked and read. Stock is checked, then the unit price is checked; a piece sale resolves its per-piece prices from pack prices when needed. A ledger record with a profit snapshot is inserted, and the one stock column is decremented. Any failure rolls everything back.
- **Auto-replenish.** Every row with fewer than 5 loose pieces and at least one pack opens `max(1, floor(packs / 2))` packs into pieces, all in one transaction. The pass returns a report with one entry per selected row.
- **Restock.** A partial `UPDATE` is built from whichever inputs are truthy. Stock deltas are added and pack prices are overwritten. The builder numbers the placeholders `$1, $2, ...`, binds the id last, and rejects an empty request.
- **Low-stock notification.**
  - The daily scan selects rows that are not yet notified and have a threshold, and keeps those whose total stock (`packs + pieces / pack_size`) is below the threshold. It mails them and only then sets their flags.
  - The reset endpoint clears one row's flag.
  - The `/low-stock` listing reports every row below its threshold, whatever its flag.
- **Reporting.**
  - The inventory overview derives, per row, the piece prices (with fallbacks to 0), total pieces, stock value, stock cost and potential profit, then orders the rows by name.
  - Today's profit is a sum over the ledger.
  - A per-product profit report groups sales by (name, sale timestamp) and orders them by date, then by profit, both descending.

Module layout, one module per source file:
- `Prelude` holds Option/Result and the sequence utilities.
- `Store` holds the tables and the store handle.
- `Sorting` is `ORDER BY`, as an insertion sort under a total order.
- The remaining modules are `Pricing`, `Sales`, `Replenish`, `Restock`, `LowStock`, `Notifications`, `Overview` and `Profit`.

The database is a `Store.Database` object with three fields:
- `items`: a map from id to row;
- `order`: one fixed sequence of the table's keys. The model takes every `SELECT` without `ORDER BY` to return rows in this sequence, and no transaction changes it;
- `sales`: the ledger.

Each transaction is a method that modifies this object. Store failures are an explicit parameter, `StoreFault`: `FailsAtWrite(n)` makes the n-th write statement of the transaction throw. Only write statements fail in the model. A rollback restores the state the transaction started from. The mail transport is a boolean parameter saying whether delivery succeeded. `NOW()` and `CURRENT_DATE` are parameters.

## Model

| member | source | states |
|---|---|---|
| `Pricing.ResolvePricing` | src/utils/pricing.ts:11-36 | It succeeds exactly when each side resolves to a non-zero price. An explicit piece price is used unchanged, even 0, which then fails. Otherwise a truthy pack price is split over the pack, so piece × packSize = pack. On success both prices are non-zero. |
| `Pricing.ResolvePricingFromPackPrices` | src/utils/pricing.ts:20-26 | A pack of 12 priced 120/60 gives piece prices 10/5. |
| `Store.AddToStock` | src/services/sales.service.ts:74-80 | `col = col + delta` on one stock column changes only that field, and moves total pieces by delta × (pack size or 1). |
| `Sales.UnitPricesFor` | src/services/sales.service.ts:27-55 | The stock check comes before the pricing check, and each yields its own error. A pack sale needs both pack prices truthy and uses them as stored. A piece sale uses `ResolvePricing`, and that function's failure fails the sale. The booked prices are non-zero. |
| `Sales.Decremented` | src/services/sales.service.ts:74-80 | Only the stock field matching the sale type drops, by exactly the quantity; every other field is kept. Total pieces drop by quantity × pieces per unit. |
| `Sales.SaleOutcome` | src/services/sales.service.ts:12-88 | A missing id gives "Item not found". Otherwise the sale fails exactly when the checks fail. On success it gives the ledger record (unit prices, profit = (sell − purchase) × quantity, `NOW()`) and the decremented row, and stock stays non-negative. |
| `Sales.ProcessSale` | src/services/sales.service.ts:6-95 | On failure the ledger and the items are unchanged. With no store fault, exactly one record is appended, exactly that row is updated, and the returned profit is the recorded one. A failed INSERT or UPDATE reports a store error and rolls back. Non-negative stock is preserved. |
| `Sales.SaleKeepsStockNonNegative` | src/services/sales.service.ts:28-80 | A sale that passes its stock check keeps every row's stock at or above 0. |
| `Replenish.PacksToOpen` | src/workers/autoReplenishWorker.ts:30 | `max(1, floor(packs / 2))` is always at least 1 and at most `packs` when `packs` ≥ 1. For `packs` ≥ 2 the packs left are ceil(`packs` / 2); for `packs` = 1 one pack is opened and none is left. |
| `Replenish.Replenished` | src/workers/autoReplenishWorker.ts:30-43 | Packs drop by `PacksToOpen` and pieces grow by that many times the pack size. No other field changes, total pieces are conserved, and a selected row's stock stays non-negative. |
| `Replenish.Selection` | src/workers/autoReplenishWorker.ts:21-26 | A row is selected iff pieces < 5 and packs > 0. The selected ids keep their row order (a subsequence) and are distinct. |
| `Replenish.ReplenishedItems` | src/workers/autoReplenishWorker.ts:28-43 | The table after the updates keeps the same keys and ids. |
| `Replenish.ReplenishIteration` | src/workers/autoReplenishWorker.ts:28-54 | At iteration i, the i-th selected row is still as it was read, and updating it extends both the table and the report by exactly that row. |
| `Replenish.ResultFor` | src/workers/autoReplenishWorker.ts:45-54 | A report entry carries the id, the name, the packs opened, the pieces added and the new stock, and the new stock accounts for the same total pieces. |
| `Replenish.Report` | src/workers/autoReplenishWorker.ts:47-54 | The report has one entry per selected row. |
| `Replenish.ReportEntries` | src/workers/autoReplenishWorker.ts:45-54 | The report's i-th entry describes the i-th selected row, in selection order. |
| `Replenish.ReplenishPass` | src/workers/autoReplenishWorker.ts:21-43 | Over the whole pass, exactly the selected rows change, each as `Replenished`. Every row keeps its total pieces, and non-negative stock is preserved. |
| `Replenish.ReplenishExamples` | src/workers/autoReplenishWorker.ts:30-43 | 4 packs of 12 with 2 pieces become 2 packs and 26 pieces. 1 pack of 6 with no pieces becomes 0 packs and 6 pieces and is no longer selected. |
| `Replenish.OpenPacks` | src/workers/autoReplenishWorker.ts:36-45 | The UPDATE subtracts `$1` packs and adds `$2` pieces on one row and returns that row. |
| `Replenish.ReplenishRow` | src/workers/autoReplenishWorker.ts:28-54 | One loop iteration replenishes the next selected row and appends its report entry: the table and the report then cover one more row of the selection. |
| `Replenish.AutoReplenishStock` | src/workers/autoReplenishWorker.ts:13-73 | Success means: the table is the selected rows replenished, and the result is the report in selection order. Among the modelled faults, which strike only the updates, the pass fails iff the fault hits one of its updates, and then the table is exactly as before. |
| `Restock.RestockRow` | src/services/restock.service.ts:14-32 | Truthy deltas are added to stock, truthy prices overwrite the pack prices, and every other field is kept. With no data the row is unchanged. |
| `Restock.NatToString` | src/services/restock.service.ts:15 | The rendered placeholder number is a non-empty string of digits. |
| `Restock.ParseNatToString` | src/services/restock.service.ts:15-31 | Reading a rendered placeholder number gives the number back. |
| `Restock.ClauseText` | src/services/restock.service.ts:15-31 | The clause text pushed onto `updates` names its placeholder `$k` recoverably: the numeral after its last `$` is k. |
| `Restock.ConsiderColumn` | src/services/restock.service.ts:14-32 | One `if (input.field) { push; push; idx++ }` block takes the builder from j considered columns to j + 1. |
| `Restock.BuildSetClauses` | src/services/restock.service.ts:10-36 | There is one clause per truthy input, in the order packs, pieces, purchase price, selling price. The k-th clause uses `$k` bound to `values[k-1]`, and `idx` = clause count + 1. There are no clauses iff there is no data. Run as SQL on any row, the SET list gives exactly `RestockRow`. |
| `Restock.RestockItem` | src/services/restock.service.ts:4-57 | No data gives "No restock data provided" and leaves the table unchanged, as does a store error. Otherwise an existing row becomes `RestockRow` and is returned. A missing id changes nothing and returns no row. |
| `Restock.RestockChangesTotalByDeltas` | src/services/restock.service.ts:14-22 | Total pieces move by exactly packsAdded × pack size + piecesAdded. |
| `Restock.RestockKeepsStockNonNegative` | src/services/restock.service.ts:14-22 | With non-negative deltas, stock stays non-negative. |
| `LowStock.TotalStock` | src/services/email.service.ts:29-31 | Total stock × pack size equals total pieces. |
| `LowStock.TotalStockCrossMultiplied` | src/services/email.service.ts:29-31 | total < threshold ⇔ packs × size + pieces < threshold × size. |
| `LowStock.ScanRows` | src/services/email.service.ts:41-45 | The scan sees exactly the un-notified rows with a threshold, in row order. |
| `LowStock.LowStockScan` | src/services/email.service.ts:41-55 | A row is reported iff it is un-notified, has a threshold and its total is below it. The report keeps row order. |
| `LowStock.CollectLowStock` | src/services/email.service.ts:47-55 | The loop keeps exactly the rows whose total is below their threshold, in order. |
| `LowStock.Ids` | src/services/email.service.ts:61 | The i-th id is the i-th item's id. |
| `LowStock.MarkNotified` | src/services/email.service.ts:62-65 | Exactly the listed rows get `low_stock_notified = true`; all else is unchanged. |
| `LowStock.CheckLowStockAndNotify` | src/services/email.service.ts:34-76 | The mailed list is the scan's result. Flags are set on exactly those rows only if the list is non-empty, the mail was delivered and the UPDATE succeeded; otherwise nothing changes. |
| `LowStock.ScanIdempotent` | src/services/email.service.ts:41-65 | After a scan's rows are flagged, an immediate second scan reports nothing. |
| `Notifications.ResetNotification` | src/routes/notification.routes.ts:29-41 | The flag is cleared on the given id only, and success is reported whenever the statement runs. An unknown id changes nothing. |
| `Notifications.LowStockListing` | src/routes/notification.routes.ts:44-56 | A row is listed iff it has a threshold and is below it, whatever its flag. The listing keeps row order. |
| `Notifications.ScanIsUnnotifiedListing` | src/routes/notification.routes.ts:46-54 | The scan's result is exactly the listing restricted to un-notified rows. |
| `Notifications.ResetMakesEligible` | src/routes/notification.routes.ts:33-36 | After a reset, a row below its threshold is reported by the next scan. |
| `Overview.DerivedPiecePrice` | src/services/inventory.service.ts:16-20 | The result is the stored piece price if non-null. Otherwise pack / pack_size when the pack price is non-null and pack_size ≠ 0, otherwise 0. |
| `Overview.DeriveRow` | src/services/inventory.service.ts:5-67 | The row carries: total_pieces = packs × size + pieces; stock value and cost = total pieces × the derived piece prices; potential profit = total pieces × (sell − purchase). Identity and stock columns are copied. |
| `Overview.DerivedPricesAgreeWithResolver` | src/services/inventory.service.ts:16-27 | The resolver succeeds iff both derived piece prices are non-zero, and then it returns exactly those prices. |
| `Overview.StringLeTotal` | src/services/inventory.service.ts:70 | Any two names are comparable. |
| `Overview.NameOrderTotal` | src/services/inventory.service.ts:70 | `ORDER BY d.name` is a total order on overview rows. |
| `Overview.DerivedRows` | src/services/inventory.service.ts:5-69 | There is one derived row per inventory row, in row order. |
| `Overview.InventoryOverview` | src/services/inventory.service.ts:3-75 | The result is sorted by name and is a permutation of the derived rows. |
| `Overview.OverviewListsEveryRow` | src/services/inventory.service.ts:69-74 | Every inventory row appears in the overview with its derived columns. |
| `Profit.TodayProfit` | src/services/profit.service.ts:3-11 | The result is 0 when no sale is dated today. |
| `Profit.TodayProfitAfterSale` | src/services/profit.service.ts:4-8 | A new sale adds its profit to today's total iff it is dated today. |
| `Profit.GroupKeys` | src/services/profit.service.ts:21-23 | Each group occurs once. Every joined sale's (name, sale_date) is a group, and every group has a sale. |
| `Profit.GroupRows` | src/services/profit.service.ts:16-25 | Each group's row carries its name, date, SUM(profit) and SUM(quantity). |
| `Profit.ProfitOrderTotal` | src/services/profit.service.ts:24 | `sale_date DESC, total_profit DESC` is a total order. |
| `Profit.ProfitByProduct` | src/services/profit.service.ts:14-28 | The result is sorted by date, then profit, both descending, and is a permutation of the group rows. |
| `Profit.GroupProfitAppend` | src/services/profit.service.ts:19 | A new sale adds its profit to its own group and to no other. |
| `Profit.GroupsPartitionJoinedSales` | src/services/profit.service.ts:15-25 | The groups' profits add up to the profit of all sales that join a row: grouping loses and duplicates nothing. |
| `Profit.ProfitByProductTotal` | src/services/profit.service.ts:14-28 | The report's rows add up to the total profit of the joined sales. |

## Left out

- HTTP routing, status codes and response bodies; authentication, JWT, bcrypt and invite codes; the schema validation library; the admin-creation script; the connection pool's setup; console logging (the replenish pass's per-row and summary messages, the scan's progress and error messages). These are plumbing, or foreign libraries.
- The sale route's input guard (truthy id, type and quantity, quantity > 0) is `ProcessSale`'s precondition. A sale type other than "pack" is treated as a piece sale by the source; the model's `SaleType` has only the two values.
- The replenish timer (start/stop), the daily cron schedule, the mail transport and its HTML body. Sending mail is a boolean "delivered" parameter. Its failure is logged and swallowed, and the model keeps that effect: no flags are set.
- A failure of the scan's own `SELECT` is not modelled: it is logged and swallowed and changes nothing. A failed flag `UPDATE` is modelled as a store fault on the scan's one write.
- Row locks (`FOR UPDATE`), concurrent transactions and overlapping scheduler ticks; each transaction is one atomic method. The scan and the flag update are not one transaction in the source; in the model nothing runs between them.
- JavaScript floating point, and node-pg returning NUMERIC columns as strings. Prices are exact reals, and "truthy" means non-null and non-zero.
- SQL time zones and date casts. A sale date is an abstract (day, time of day) pair, and `CURRENT_DATE` and `NOW()` are parameters.
- String collation. `ORDER BY d.name` is ordered lexicographically by character code. Rows with equal sort keys may come in any order, and the model states only sortedness and permutation.
- The exact whitespace and surrounding SQL text of the restock statement. The statement is the `UpdateStatement` value (clauses, placeholder numbers, bound values); only each clause's text is rendered.
- The reset endpoint's id arrives as a URL string; a non-numeric id makes the store reject the statement. The model takes the id as an integer.
- `pack_size` is assumed positive (`PosInt`); the code never enforces it. The overview guards against 0 with `NULLIF(pack_size, 0)`, a branch kept in `DerivedPiecePrice` but never taken from a table row, while piece-price resolution and the low-stock total divide by `pack_size` unguarded. A row with `pack_size` 0 is outside the model.
- Restock does not validate its deltas. A negative delta is truthy and is applied, so it can drive stock below 0. `RestockKeepsStockNonNegative` therefore assumes non-negative deltas.
- `Replenish.PacksToOpen`: for a single pack the row ends with 0 packs, not ceil(1/2) = 1. The "packs left = ceil(packs/2)" relation holds only from 2 packs up, and the model states it that way.
- The per-product report groups by item name and the exact sale timestamp, not by day. Two items with the same name share groups, and the model keeps both behaviours.
- Store failures of statements other than writes. In the source, `BEGIN`, a transaction's `SELECT` and `COMMIT` can also throw, and each then rolls back and rethrows (the sale's row lookup, the replenish pass's locking `SELECT`, and the commits of sale, replenish and restock). The model's `StoreFault` strikes only write statements. So `Replenish.AutoReplenishStock` succeeds under every fault when nothing is selected, `Sales.ProcessSale` reports only `ItemNotFound` for a missing id, and `Restock.RestockItem` fails only when its `UPDATE` is hit.
- SQL leaves the order of a `SELECT` without `ORDER BY` undefined, and in PostgreSQL it can change after an `UPDATE` writes a new row version. The model fixes one order per table, `Database.order`, and every transaction keeps it (`db.order == old(db.order)`). So "in row order" and "in selection order" in `Replenish.Selection`, `Replenish.ReportEntries`, `LowStock.ScanRows`, `LowStock.LowStockScan` and `Notifications.LowStockListing` are relative to that assumed order.
- The error text of a store failure is the store's own message, which is not modelled; the model returns a `StoreError` value.
