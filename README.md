# InventarioJH core: cash ledger, purchases, sales and master data

This project models the data layer of InventarioJH, a small inventory and cash-register application for a shop. It is a Dafny model of the five repository modules under `app/db/`.

- **Cash ledger** (`cash_repo.py`, module `Cash`).
  - The ledger is an append-only list of cash movements (INGRESO / EGRESO) and, per calendar day, at most one closure snapshot.
  - Balances, day and range summaries, and the filtered listing are folds over the movement list.
  - Every write goes through one gateway. It normalises the tipo, refuses a non-positive monto and refuses any instant of a closed day.
- **Products** (`products_repo.py`, module `Products`).
  - A product table with a unique codigo and field validation.
  - An `activo` switch, the low-stock alert and the listing.
- **Suppliers** (`suppliers_repo.py`, module `Suppliers`).
  - A supplier table with a NIT duplicate check, an `activo` switch and the listing.
- **Purchases** (`entries_repo.py`, module `Entries`).
  - `crear_entrada` adds each line's quantity to its product's stock and sums quantity × price into the entry total.
  - When paid, it writes one EGRESO through the ledger gateway in the same transaction.
  - Any refusal rolls everything back.
- **Sales** (`sales_repo.py`, module `Sales`).
  - `crear_venta` takes each line's quantity out of stock, checking it against the stock the earlier lines of the same sale left.
  - `anular_venta` gives the quantities back once and marks the sale voided.
  - `eliminar_venta` deletes a sale without giving anything back.
  - Sales write no cash movement.

Shared modules:

- `Schema`: the rows, and one `Error` constructor per `ValueError` the repositories raise.
- `Text`: Python's `strip`/`upper`, SQLite's `lower` and `LIKE`, and `str(n)`.
- `Tables`: listing by id descending.
- `Store`: the database.

`Store.Database` is a class holding every table. It stands in for the ORM session:

- `new Database.Begin(db)` opens a unit of work (a private copy of the tables).
- `db.Commit(work)` is `db.commit()`.
- Dropping the unit of work is the rollback.

The imperative operations are methods on it, proved against specification functions: the line loops of purchases, sales and voids, and every table update. The specification functions are in turn related by lemmas to per-product reference definitions. Examples are `Restocked`, `Depleted`, and `SumSubtotals` of the details.

Modelling choices:

- Timestamps are integer microseconds (the resolution of Python's `datetime`). Days are `t / 86_400_000_000`.
- Amounts and quantities are exact `real`s.
- The wall clock is an explicit `now` parameter.
- An optional text that Python reads as `(x or "")` is a plain string, with `""` standing for None.
- The ledger invariant is proved per operation as a lemma, rather than carried by the methods. It says: ids 1, 2, 3, …; positive amounts; and each closure's totals still equal to its day's totals. The lemmas are `StagedKeepsInvariant`, `CloseKeepsInvariant` and `EntryKeepsInvariant`.

## Model

| member | source | states |
|---|---|---|
| Cash.DtRange | app/db/cash_repo.py:15-18 | an instant lies between the day's first and last instant exactly when it falls on that day |
| Cash.InDay | app/db/cash_repo.py:15-18 | `start(d) <= t <= end(d)` iff `day(t) == d` |
| Cash.EstaCerrado | app/db/cash_repo.py:24-27 | a day is closed iff it has a closure row (a predicate; its consequences are stated by StageMovement and ClosedDayRefusesWrites) |
| Cash.ObtenerSaldo | app/db/cash_repo.py:38-59 | an empty ledger, or one whose movements all come after `hasta`, has balance 0 |
| Cash.TotalPrepend | app/db/cash_repo.py:48-57 | a per-kind sum over a ledger with one more movement in front is that movement's contribution plus the rest |
| Cash.SaldoIsRunningBalance | app/db/cash_repo.py:38-59 | the balance query (sum of INGRESO minus sum of EGRESO up to `hasta`, or over everything) equals an independent running sum of signed amounts; an empty ledger gives 0 |
| Cash.SaldoAfterAppend | app/db/cash_repo.py:38-59 | appending a movement changes the balance by that movement's signed amount when it is inside the cut-off, and not at all otherwise |
| Cash.TotalSplit | app/db/cash_repo.py:44-46 | a sum up to `c` is the sum up to `b` plus the sum over `(b, c]` |
| Cash.TotalSplitOpen | app/db/cash_repo.py:44-57 | the sum over everything is the sum up to `b` plus the sum after `b` |
| Cash.OpeningBalance | app/db/cash_repo.py:216-219 | with the corrected cut-off, the opening balance is the whole balance less the net amount from `start` on |
| Cash.Summarize | app/db/cash_repo.py:203-229 | the summary carries its bounds, the corrected opening balance and saldo_final = saldo_inicial + ingresos − egresos, which for an ordered range is the balance at the last instant of the range |
| Cash.ResumenDelDia | app/db/cash_repo.py:193-229 | the day's summary has that day as bounds, opens at the corrected opening balance and closes at the balance at the day's last instant |
| Cash.TotalOfQuietWindow | app/db/cash_repo.py:203-214 | a window with no movement in it sums to 0 (the `coalesce(…, 0)`) |
| Cash.ResumenRango | app/db/cash_repo.py:264-265 | reversed bounds are swapped, so the summary always has `desde <= hasta` |
| Cash.ClosingIsBalanceAtEnd | app/db/cash_repo.py:216-222 | with the corrected opening cut-off, a period's saldo_final (saldo_inicial + ingresos − egresos) is the balance at the period's last instant |
| Cash.ConsecutiveDays | app/db/cash_repo.py:196-197 | with the corrected opening cut-off, day d's saldo_final is day d+1's saldo_inicial |
| Cash.QuietDay | app/db/cash_repo.py:203-222 | a day without movements has ingresos = egresos = 0 and saldo_final = saldo_inicial |
| Cash.RangeSymmetric | app/db/cash_repo.py:264-265 | `resumen_rango(a, b) == resumen_rango(b, a)` |
| Cash.RangeOfOneDay | app/db/cash_repo.py:257-296 | a one-day range is that day's `resumen_del_dia` |
| Cash.RangeExtendsByOneDay | app/db/cash_repo.py:257-296 | with the corrected opening cut-off, extending a range by one day adds that day's ingresos and egresos, keeps saldo_inicial, and ends at that day's saldo_final |
| Cash.AsWrittenOpeningMissesLastSecond | app/db/cash_repo.py:216-219 | the code's opening balance (cut-off `start − 1 s`) differs from the balance strictly before `start` by exactly the movements of the last second before `start` |
| Cash.AsWrittenOpeningBreaksCarryOver | app/db/cash_repo.py:216-219 | an INGRESO of 100 at 23:59:59.5 counts in day 0's saldo_final but not in the code's day-1 opening balance, while the corrected opening carries it |
| Cash.Newest | app/db/cash_repo.py:100 | the listing core keeps at most `cap` movements, each from the ledger and passing the filter |
| Cash.NewestComplete | app/db/cash_repo.py:100 | when the result is below the cap (or takes every movement), no movement passing the filter is missing |
| Cash.NewestIdsInRange | app/db/cash_repo.py:100 | with ids 1…n, every listed id is in 1…n |
| Cash.NewestDecreasing | app/db/cash_repo.py:100 | with ids 1…n, the listing is in strictly decreasing id order |
| Cash.NewestSkipsOnlyOlder | app/db/cash_repo.py:100 | with ids 1…n, a matching movement left out is older than every listed one |
| Cash.ListarMovimientos | app/db/cash_repo.py:62-100 | at most `limit` movements (a negative limit is no limit), each from the ledger, inside the day bounds, of the upper-cased stripped tipo, and matching q case-insensitively in concepto, referencia or observacion |
| Cash.ListingIsNewestFirst | app/db/cash_repo.py:100 | the listing is by id descending; a matching movement is left out only when the listing holds `limit` rows, and then it is older than all of them |
| Cash.NormalizeKindName | app/db/cash_repo.py:118-120 | a stored tipo name normalises back to its kind |
| Cash.NormalizeKind | app/db/cash_repo.py:118-120 | a tipo is accepted iff its stripped upper-case form is INGRESO or EGRESO, and then names the kind |
| Cash.UpperLowerKindName | app/db/cash_repo.py:118 | the lower-case tipo name is non-blank, stripped, and upper-cases back to the stored name |
| Cash.NormalizeKindLoose | app/db/cash_repo.py:163-165 | letter case and surrounding whitespace are ignored: `" egreso "` is EGRESO |
| Cash.ConceptOrDefault | app/db/cash_repo.py:135 | a blank concepto becomes `"Movimiento " + tipo`, any other is stored stripped; the result is never blank |
| Cash.StageMovement | app/db/cash_repo.py:118-140 | the checks in order (bad tipo, then monto <= 0, then closed day) each give their error; it succeeds iff all pass, with the normalised tipo, the next id, the monto, the fecha, the concepto as given stripped or `"Movimiento " + tipo` when blank, and referencia/observacion stripped or None |
| Cash.StageKind | app/db/cash_repo.py:121-140 | the gateway past the tipo check: monto then closed day are refused, and otherwise the row carries the kind, the next id, the monto, the fecha, the concepto stripped or defaulted from the kind, and referencia/observacion stripped or None |
| Cash.StageKindName | app/db/cash_repo.py:163-165 | passing a stored tipo name, as `crear_entrada` passes "EGRESO", is the gateway of that kind |
| Cash.AppendOutsideDay | app/db/cash_repo.py:127-130 | a movement outside day d leaves day d's ingresos and egresos unchanged |
| Cash.AppendKeepsInvariant | app/db/cash_repo.py:127-142 | appending the next positive movement outside every closed day keeps the ledger invariant (in particular every closure still matches its day) |
| Cash.StagedKeepsInvariant | app/db/cash_repo.py:118-142 | every movement the gateway accepts keeps the ledger invariant when appended |
| Cash.RegistrarMovimientoEnDb | app/db/cash_repo.py:150-187 | the result is the gateway's; on success exactly that movement is appended to the caller's unit of work, and on refusal nothing changes |
| Cash.RegistrarMovimiento | app/db/cash_repo.py:106-144 | the same gateway in its own committed unit of work; no other table changes, and a refusal changes nothing |
| Cash.Snapshot | app/db/cash_repo.py:240-250 | the closure is keyed by its day and its saldo_final is saldo_inicial + ingresos − egresos |
| Cash.CerrarDia | app/db/cash_repo.py:233-254 | an already closed day is refused and nothing changes (so a second call always fails); otherwise the closure holds the day's summary (with the corrected opening cut-off) and the day is closed |
| Cash.CloseKeepsInvariant | app/db/cash_repo.py:233-254 | closing a day keeps the ledger invariant |
| Cash.ClosedDayRefusesWrites | app/db/cash_repo.py:127-130 | once a day is closed, every write dated in it is refused (bad tipo, non-positive monto or closed day) |
| Products.ToFloat | app/db/products_repo.py:8-12 | a missing value gives the default, a present one is itself |
| Products.UnitOrDefault | app/db/products_repo.py:25 | a blank unidad becomes "und", any other is stored stripped |
| Products.ValidateProduct | app/db/products_repo.py:23-36 | blank codigo or nombre, then negative precio, then negative minimum each give their error; it succeeds iff none holds, with codigo and nombre stripped and non-blank and both numbers non-negative |
| Products.NewProduct | app/db/products_repo.py:43-51 | the new row has the given fields, no stock, and is active |
| Products.CreateProduct | app/db/products_repo.py:15-55 | the validation error, then a codigo already in the table, refuse; it succeeds iff neither, giving the new active row under the next id |
| Products.InsertKeepsTable | app/db/products_repo.py:38-55 | inserting a row with an unused codigo under the next id keeps codigo unique and ids in range |
| Products.CrearProducto | app/db/products_repo.py:15-55 | inserts CreateProduct's row under the next id and keeps the table invariant; a refusal changes nothing |
| Products.WithFields | app/db/products_repo.py:130-134 | an update writes codigo, nombre, unidad, precio and minimum, and keeps id, stock_actual and activo |
| Products.UpdateProduct | app/db/products_repo.py:92-134 | validation, then an unknown id, then a codigo held by another product refuse; it succeeds iff none holds (a product may keep its own codigo) |
| Products.ReplaceKeepsTable | app/db/products_repo.py:122-134 | replacing a row by one whose codigo no other row has keeps the table invariant |
| Products.ActualizarProducto | app/db/products_repo.py:92-138 | writes UpdateProduct's row in place and keeps the table invariant; a refusal changes nothing |
| Products.Toggled | app/db/products_repo.py:148 | activo is negated and every other column is kept |
| Products.ToggleTwice | app/db/products_repo.py:141-151 | switching a product twice gives back the original table |
| Products.CambiarEstadoProducto | app/db/products_repo.py:141-151 | an unknown id is refused with nothing changed; otherwise that product's activo is negated, so switching it again gives back the old table |
| Products.DesactivarProducto | app/db/products_repo.py:154-161 | an unknown id is refused with nothing changed; otherwise that product's activo becomes false, and deactivating it again would change nothing |
| Products.DeactivateIdempotent | app/db/products_repo.py:154-161 | deactivating twice is deactivating once |
| Products.StockBajoMonotone | app/db/products_repo.py:164-172 | taking stock out of a low-stock product keeps it low; adding stock above the minimum clears the alert |
| Products.EsStockBajo | app/db/products_repo.py:164-172 | a product is low on stock iff its minimum is positive and its stock is at or below it (a predicate; StockBajoMonotone states its behaviour) |
| Products.StockChangeKeepsTable | app/db/products_repo.py:38-55 | a change of stock_actual alone keeps the product table invariant (ids and unique codigos untouched) |
| Products.ListarProductos | app/db/products_repo.py:71-89 | every listed product passes the filters (active when inactive ones are excluded, stripped texto matched case-insensitively in codigo or nombre), every passing product is listed, and the order is by id descending |
| Products.ListingCoversTable | app/db/products_repo.py:71-89 | with the table invariant, a product is listed iff it passes the filters |
| Suppliers.StoredNit | app/db/suppliers_repo.py:15 | a missing or empty NIT is stored as None, and any other is stored stripped |
| Suppliers.InsertKeepsTable | app/db/suppliers_repo.py:13-22 | inserting under the next id keeps every row under its own id and below the counter |
| Suppliers.CreateSupplier | app/db/suppliers_repo.py:6-19 | refused iff a non-empty NIT is stored verbatim by some supplier; otherwise the next id, the stripped nombre, the stored NIT, and activo set |
| Suppliers.CrearProveedor | app/db/suppliers_repo.py:6-23 | inserts CreateSupplier's row under the next id; a refusal changes nothing |
| Suppliers.NitCheckMissesPadding | app/db/suppliers_repo.py:8-15 | with "900123" stored, a new supplier with NIT " 900123" is accepted and stored as "900123", a duplicate |
| Suppliers.UpdateSupplier | app/db/suppliers_repo.py:50-68 | an unknown id, then a non-empty NIT stored by a different supplier, refuse; otherwise nombre, nit, telefono and direccion are overwritten and id and activo kept |
| Suppliers.ActualizarProveedor | app/db/suppliers_repo.py:50-72 | writes UpdateSupplier's row in place; a refusal changes nothing |
| Suppliers.UpdateKeepsOwnNit | app/db/suppliers_repo.py:56-63 | a supplier whose NIT no other supplier has may be updated keeping that NIT |
| Suppliers.DesactivarProveedor | app/db/suppliers_repo.py:75-82 | an unknown id is refused with nothing changed; otherwise activo becomes false, and deactivating again would change nothing (idempotent) |
| Suppliers.CambiarEstadoProveedor | app/db/suppliers_repo.py:85-92 | an unknown id is refused with nothing changed; otherwise activo is negated, and switching again gives back the old table (an involution) |
| Suppliers.SupplierSwitches | app/db/suppliers_repo.py:75-92 | on the supplier table, switching twice gives back the table and deactivating twice is deactivating once |
| Suppliers.ListarProveedores | app/db/suppliers_repo.py:26-42 | every listed supplier passes the filters (active when inactive ones are excluded, texto in nombre or nit case-insensitively), every passing one is listed, by id descending |
| Suppliers.ListingOfActive | app/db/suppliers_repo.py:30-31 | with no text and inactive suppliers excluded, a supplier is listed iff it is active |
| Entries.StageLines | app/db/entries_repo.py:41-73 | the line loop as a function; a success has one detail per line |
| Entries.LinesMoveOnlyStock | app/db/entries_repo.py:41-73 | the line loop keeps every product and every column but stock_actual |
| Entries.RefusedPrefix | app/db/entries_repo.py:41-57 | once a prefix of the lines is refused, the whole entry is refused with that error |
| Entries.EntryDetails | app/db/entries_repo.py:62-68 | one detail per line |
| Entries.DetailsFollowLines | app/db/entries_repo.py:59-68 | the i-th detail is line i's, with subtotal = cantidad × precio |
| Entries.LinesAccepted | app/db/entries_repo.py:41-75 | when every line is acceptable, the loop yields each product restocked by the sum of its lines, the details in line order, and their subtotals summed as total |
| Entries.LineAccepted | app/db/entries_repo.py:59-73 | one more acceptable line extends that result by its own increment, detail and subtotal |
| Entries.RestockedStep | app/db/entries_repo.py:71-73 | one more line adds its quantity to its product once more (a product on two lines gets both) |
| Entries.FirstRefusedLine | app/db/entries_repo.py:46-57 | the entry is refused with the error of its first unacceptable line |
| Entries.LastLineRefused | app/db/entries_repo.py:46-57 | when only the last line is unacceptable, that line's error is the entry's |
| Entries.CreateEntry | app/db/entries_repo.py:9-98 | a success needs items and an active supplier, and holds the entry under the next entry id for that supplier with one detail per line, with a movement iff paid |
| Entries.ReferenceKept | app/db/entries_repo.py:88 | the reference `"Entrada {id}"` is stored by the gateway as given |
| Entries.EntryRefusedEarly | app/db/entries_repo.py:25-35 | an empty list, then a missing supplier, then an inactive supplier, is refused before any line |
| Entries.EntryRefusedByLine | app/db/entries_repo.py:41-57 | past the supplier checks, the first unacceptable line decides the error |
| Entries.EntryAccepted | app/db/entries_repo.py:41-94 | with acceptable lines the entry succeeds iff unpaid, or paid with a positive total on an open day; it holds the details, the total and the restocked products, and writes a movement iff paid |
| Entries.PaymentRecorded | app/db/entries_repo.py:81-90 | a recorded paid entry carries one EGRESO of its total, with the next movement id, the given texts and the fecha now |
| Entries.EntryPayment | app/db/entries_repo.py:81-90 | a successful paid entry writes one EGRESO of the entry's total, referenced `"Entrada {id}"`, with observation `"Método: …"`, dated now |
| Entries.EntryPaymentRefused | app/db/entries_repo.py:81-98 | a paid entry with total <= 0 is refused as a non-positive amount, and one on a closed day as a closed day |
| Entries.EntryKeepsInvariant | app/db/entries_repo.py:81-92 | a successful entry keeps the ledger invariant |
| Entries.PaidFreeEntryRefused | app/db/entries_repo.py:75-98 | goods at price 0 can be received unpaid but a paid entry of them is always refused |
| Entries.FreeLinesSumToZero | app/db/entries_repo.py:59-75 | details with zero subtotals sum to 0 |
| Entries.EntryKeepsProductTable | app/db/entries_repo.py:41-92 | a successful entry changes stock only, so the product table keeps its invariant |
| Entries.AddLines | app/db/entries_repo.py:41-73 | the in-place line loop returns the specification's result and leaves the unit of work's products as staged |
| Entries.WriteEntry | app/db/entries_repo.py:75-90 | adds the entry under the next entry id and, when paid, appends the gateway's EGRESO to the unit of work |
| Entries.EntrySession | app/db/entries_repo.py:9-98 | the session body: on success the committed store becomes Apply of the purchase, on refusal nothing is committed |
| Entries.CrearEntrada | app/db/entries_repo.py:9-98 | on success the committed store becomes the entry, the restocked products and (when paid) the EGRESO; on any refusal nothing is committed; the product table keeps its invariant |
| Sales.SellLines | app/db/sales_repo.py:26-66 | the line loop as a function; a success has one detail per line |
| Sales.LinesMoveOnlyStock | app/db/sales_repo.py:26-66 | the line loop keeps every product and every column but stock_actual |
| Sales.RefusedPrefix | app/db/sales_repo.py:26-50 | once a prefix of the lines is refused, the whole sale is refused with that error |
| Sales.SaleDetails | app/db/sales_repo.py:52-61 | one detail per line |
| Sales.FitsInPrefix | app/db/sales_repo.py:45-46 | whether a line fits depends only on the lines before it |
| Sales.DetailsFollowLines | app/db/sales_repo.py:52-61 | the i-th detail is line i's, with subtotal = cantidad × precio_venta |
| Sales.DepletedStep | app/db/sales_repo.py:64 | one more line takes its quantity out of its product once more |
| Sales.LinesSold | app/db/sales_repo.py:26-68 | when every line fits, the loop yields each product lowered by the sum of its lines, the details in order, and the summed subtotals as total |
| Sales.LineSold | app/db/sales_repo.py:32-66 | one more line that fits extends that result by its own decrement, detail and subtotal |
| Sales.FirstRefusedLine | app/db/sales_repo.py:32-50 | the sale is refused with the error of its first line that does not fit |
| Sales.LastLineRefused | app/db/sales_repo.py:32-50 | when only the last line does not fit, its error is the sale's |
| Sales.SaleSucceedsIff | app/db/sales_repo.py:26-50 | the loop succeeds iff every line fits against the stock the earlier lines left |
| Sales.SaleKeepsStockNonNegative | app/db/sales_repo.py:45-64 | a sale never drives a non-negative stock below zero |
| Sales.SameProductTwice | app/db/sales_repo.py:37-64 | 5 in stock and two lines of 3: one line sells, both lines are refused with 2 available |
| Sales.CreateSale | app/db/sales_repo.py:8-76 | a success needs items and holds an unvoided sale under the next id with one detail per line |
| Sales.SaleOutcome | app/db/sales_repo.py:8-72 | an empty list is refused; otherwise the sale succeeds iff every line fits, holding the details, their total, an unvoided sale, and every stock lowered by its lines |
| Sales.TakeLines | app/db/sales_repo.py:26-66 | the in-place line loop returns the specification's result and leaves the unit of work's products as staged |
| Sales.CrearVenta | app/db/sales_repo.py:8-76 | on success the committed store gains the sale under the next id and the depleted products and nothing else; on refusal nothing changes; the product table keeps its invariant |
| Sales.Restore | app/db/sales_repo.py:128-133 | the void loop as a function keeps the set of products |
| Sales.RestoreMovesOnlyStock | app/db/sales_repo.py:128-133 | the void loop keeps every product and every column but stock_actual |
| Sales.RestoreAdds | app/db/sales_repo.py:128-133 | voiding gives each existing product the sum of its details back and touches no other key |
| Sales.ReturnedIsSold | app/db/sales_repo.py:128-133 | the details of a sale give back exactly what its lines took |
| Sales.VoidSale | app/db/sales_repo.py:110-141 | an unknown sale is refused; it succeeds iff the sale exists and is not voided, and then the sale keeps its id, details and total, is voided at `now`, and only stock changes |
| Sales.VoidOnlyOnce | app/db/sales_repo.py:124-125 | after a successful void every later void of that sale is refused |
| Sales.VoidUndoesSale | app/db/sales_repo.py:110-141 | selling and then voiding that sale gives back every product as it was, and leaves the sale voided with its details |
| Sales.RestoreUndoesDepleted | app/db/sales_repo.py:128-133 | giving back a sale's details undoes taking its lines out of stock |
| Sales.ReturnLines | app/db/sales_repo.py:128-133 | the in-place void loop leaves the products as Restore of the details |
| Sales.AnularVenta | app/db/sales_repo.py:110-141 | an unknown, then an already voided, sale is refused with nothing changed; otherwise stock is restored and the sale marked voided with the stripped reason (or None) and the time; the product table keeps its invariant |
| Sales.EliminarVenta | app/db/sales_repo.py:97-107 | an unknown sale is refused; otherwise the sale is removed, and no stock changes either way, so the product table keeps its invariant |
| Sales.DeletedSaleCannotBeVoided | app/db/sales_repo.py:97-122 | a deleted sale can no longer be voided, so its stock never comes back |
| Text.Strip | app/db/cash_repo.py:118 | the result has no leading or trailing whitespace |
| Text.StripBlank | app/db/products_repo.py:23-28 | stripping leaves nothing iff the text is all whitespace |
| Text.StripIdempotent | app/db/suppliers_repo.py:15 | stripping twice is stripping once |
| Text.StripPadded | app/db/cash_repo.py:118 | whitespace around a stripped non-empty text is exactly what strip removes |
| Text.OrNone | app/db/cash_repo.py:137-138 | a blank text becomes None, any other is kept stripped and non-empty |
| Text.Upper | app/db/cash_repo.py:88 | upper-cases each character in place |
| Text.Lower | app/db/products_repo.py:87 | lower-cases each character in place |
| Text.LikeIsContains | app/db/products_repo.py:85-87 | for a text without wildcards, `LIKE '%t%'` is substring search |
| Text.ILikeIsCaseInsensitiveContains | app/db/cash_repo.py:90-98 | `ILIKE '%t%'` is substring search on the lower-cased texts |
| Text.NatToString | app/db/entries_repo.py:82 | `str(n)` is non-empty and ends in a digit |
| Text.NatToStringRoundTrip | app/db/entries_repo.py:88 | reading `str(n)` back gives n, so distinct entry ids give distinct references |
| Store.Database.Begin | app/db/entries_repo.py:30 | a new unit of work starts as a copy of the committed tables |
| Store.Database.Commit | app/db/entries_repo.py:92 | the committed tables become the unit of work's |

## Left out

- The PySide6 windows and dialogs, the amount formatters and parsers, and the PDF and Excel exporters. They are user interface or foreign libraries.
- The UI's extra EGRESO after `crear_entrada`, and its passing `metodo_pago` to sales. Sales and voids write no cash movement, as in the repository code.
- The SQLAlchemy engine and session factory, the schema and migration scripts, backups, and the debug and print scripts.
- The out-of-band reopen script that deletes a closure. It is not a ledger operation, so the model has no reopen.
- The record classes in `models.py` are stale (they describe a product with name and unit only). The rows are modelled from the repositories' own use of the columns.
- Floating point: amounts and quantities are exact reals, with no IEEE-754 rounding.
  - `float(...)` and `int(...)` conversions of the inputs are taken as already done. A value that does not parse as a number is not modelled.
- Products.ToFloat: the text argument is read as a number before the call, so `float(value)` failing on a non-numeric text is not modelled.
- Cash.ResumenDelDia, Cash.ResumenRango, Cash.Summarize, Cash.Snapshot and Cash.CerrarDia use the corrected opening cut-off (the balance strictly before the start, `start − 1 µs`). The code's `start − 1 s` is Cash.OpeningBalanceAsWritten; see Findings.
- Suppliers.CreateSupplier and Suppliers.UpdateSupplier: `nombre` is a string, so `nombre=None` failing on `.strip()` is not modelled; `""` stands for a missing text.
- Only ASCII letters are case-mapped, in `upper()`, `lower()` and `ILIKE`.
- The wall clock (`datetime.now()`, `utcnow()`) is the parameter `now`.
- Concurrency. `registrar_movimiento` checks the closure in one session and inserts in another. The model makes the check and the insert one atomic step.
- Ids come from per-table counters. SQLite reusing the highest rowid after a delete is not modelled.
- The lookups `obtener_cierre`, `obtener_producto`, `obtener_producto_por_codigo`, `obtener_proveedor`, `listar_ventas` and `obtener_venta_con_detalle` are single-key reads. They are not modelled as separate members.
- No uniqueness invariant is kept on the entry and sale tables. Their rows are only ever added under a fresh counter value.
- Suppliers: the NIT check compares the NIT as given while the row stores it stripped. This is kept as written, so NIT uniqueness is not an invariant of the supplier table (see Suppliers.NitCheckMissesPadding).

## Findings

| source | as written | input that shows it | evidently intended | confidence | as-written member | corrected member |
|---|---|---|---|---|---|---|
| app/db/cash_repo.py:216-219, app/db/cash_repo.py:284 | the opening balance of a day or range is `obtener_saldo(start − 1 second)`, which leaves out movements stamped in the last second before `start` (timestamps have microseconds) | one INGRESO of 100 at 23:59:59.5 on day 0: day 0 closes at 100, day 1 opens at 0 | the balance of every movement strictly before `start`, so that each day opens at the previous day's close | not executed | Cash.AsWrittenOpeningBreaksCarryOver | Cash.ConsecutiveDays |
