# Pharmacy point of sale: stock lots, FEFO sales and settlement

This project is a Dafny model of the core of a Django point-of-sale application for a
pharmacy. The model covers:

- the **catalog** side: products whose stock is held in *lots* (batches with an initial
  quantity, a remaining quantity, an expiration date and prices), and an append-only
  log of *stock movements* (IN, OUT, ADJUSTMENT) that is replayed onto lots;
- the **sales** side:
  - *sales* and their totals, payment status and customer credit;
  - *sale items*, which draw stock from lots in FEFO order (first expired, first out)
    and record each draw as a *SaleItemLot* row;
  - *payments*;
- the JSON endpoints of the sale form: stock figures for a product, checking one line
  with its weighted average price, and the checks that run before a sale is created
  or updated;
- the `parse_product_feed` management command, which normalises a JSON product feed;
- the legacy `core` application, an older product-level stock ledger with its own
  sales, kept beside the active apps;
- the data migrations 0007 and 0010 of the sales app.

Money is counted in hundredths (FCFA cents), so a price of 1000.00 is `100000`.
A percentage discount value is counted in hundredths of a percent, so 12.50 % is
`1250`. Dates are day ordinals, and `today` is always a parameter. The subtotal,
total and balance of an active sale are `real`, because a percentage discount can
give them more than two decimal places.

What the model captures:

- **State the source updates in place is modelled as classes.** Lot, StockMovement,
  Sale, SaleItem and Payment are classes, and the legacy core has Product,
  StockMovement, Sale and SaleItem classes. The database tables are `seq` fields of a
  `Db` class, which the methods reassign. Each method states every table it writes,
  on success and on failure, as a pure function of the old state.
- **Pure computations are functions with lemmas.** These include the stock queries,
  the FEFO allocation, the discount, the payment status, the credit aggregate, the
  feed parsers and the migrations.
- **ORM effects are written out.** `Model.save` of a Django model writes a row, and
  `save(update_fields=…)` writes only the named columns (`Merge`). An aggregate is a
  sum over the table. An atomic block restores every table and every lot it touched
  when it fails.

Behaviour the model reproduces exactly as the code has it:

- **Double application on lots.** When a sale line commits a draw, it first calls
  `lot.adjust_quantity(-q)` and then saves an OUT movement of `q`. Saving that
  movement applies it to the same lot again. So a committed draw of `q` takes `2q`
  from the lot, and a reversed draw gives `2q` back. A line that needs more than one
  lot can never be committed, because its first draw empties that lot
  (`SaleItems.NewLineCommitIff`).
- **The discount on an existing sale.** `Sale.save` sets
  `subtotal = Σ line_total − discount_amount` for any sale that already has a key.
  This uses the legacy `discount_amount` field whatever the discount type, so a
  percentage discount that `update_totals_from_items` has just applied is replaced
  (`Sales.PercentageDiscountOverridden`).
- **Migration 0010 writes the status `'pending'`.** The sale model has no such
  choice; its own rule would give `'draft'`.
- **The feed's fallback counter advances on the barcode's prefix.** It moves for every
  barcode that starts with `BARCODEERROR`, including one the feed supplied itself. The
  generated barcodes remain distinct.
- **The legacy core** has these differences from the active apps:
  - `SaleItem.save` is not atomic;
  - an ADJUSTMENT sets the stock to an absolute level and records the distance moved;
  - customer credit counts only CREDIT sales;
  - `Sale.save` has no subtotal override.

## Model

| member | source | states |
|---|---|---|
| Lots.AdjustedSucceedsIff | catalog/models/lot.py:96-110 | adjust_quantity succeeds exactly when remaining + delta lies in [0, quantity], and then stores remaining + delta |
| Lots.AdjustedErrors | catalog/models/lot.py:97-108 | going below zero is reported first; going above the initial quantity is reported only for a non-negative result |
| Lots.AdjustRoundTrip | catalog/models/lot.py:96-110 | taking d out of an in-bounds lot and putting d back restores it |
| Lots.AdjustedAllConserves | catalog/models/lot.py:92-110 | after a successful run of adjustments, the lot holds its start value plus the net delta, and every intermediate value stays in [0, quantity] |
| Lots.Lot.constructor | catalog/models/lot.py:70-76 | a new lot starts with remaining_quantity equal to its initial quantity |
| Lots.Lot.AdjustQuantity | catalog/models/lot.py:92-110 | on success the lot holds remaining + delta and stays in bounds; on either error it keeps its value |
| Movements.MovementTable.constructor | catalog/models/stock_movement.py:49-57 | the movement log starts empty |
| Movements.AppliedMeaning | catalog/models/stock_movement.py:59-71 | IN adds q and OUT subtracts q, each refused outside [0, quantity]; ADJUSTMENT sets q |
| Movements.AdjustmentIgnoresBounds | catalog/models/stock_movement.py:63-68 | an ADJUSTMENT above the initial quantity is accepted, while an IN that reaches the same value is refused |
| Movements.OutThenInRestores | catalog/models/stock_movement.py:66-71 | an OUT of q followed by an IN of q restores an in-bounds lot |
| Movements.StockMovement.constructor | catalog/models/stock_movement.py:49-57 | a new movement is unsaved and keeps its fields and skip flag |
| Movements.StockMovement.ApplyToLot | catalog/models/stock_movement.py:59-72 | the lot's new remaining quantity is the one Applied gives; on an error the lot is unchanged |
| Movements.StockMovement.Save | catalog/models/stock_movement.py:49-57 | a new, unflagged movement is applied to its lot and then logged, and an error aborts the insert; a flagged movement is logged without touching the lot; a re-save changes neither |
| Movements.Create | catalog/models/stock_movement.py:49-57 | objects.create gives a fresh movement that is applied to its lot and logged, or refused with the lot unchanged |
| Stock.StockOf | catalog/models/product.py:86-98 | the snapshot covers exactly the product's lots, each at its current remaining quantity |
| Stock.ActiveLots | catalog/models/product.py:54-113 | exactly the active lots of the product |
| Stock.StockPartition | catalog/models/product.py:86-113 | total_stock plus total_expired_stock is all the stock of the active lots |
| Stock.InactiveLotsIgnored | catalog/models/product.py:54-113 | inactive lots affect neither stock figure nor the latest-lot choice |
| Stock.SellableStockBounds | catalog/models/product.py:86-98 | each sellable lot's remaining quantity is part of total_stock |
| Stock.SellableStockZero | catalog/models/product.py:86-98 | total_stock is zero exactly when no active, unexpired lot holds stock |
| Stock.LatestActiveLot | catalog/models/product.py:77-80 | the chosen lot is active and no active lot was created after it; there is none exactly when no lot is active |
| Stock.PricesFromLatestLot | catalog/models/product.py:54-84 | both prices come from one active lot that no other active lot postdates, and are 0 when no lot is active |
| Stock.BelowThresholdMeaning | catalog/models/product.py:115-120 | the alert is always raised when no lot is sellable, and a product above the threshold has an active, unexpired lot holding stock |
| SaleRules.DiscountAmountMeaning | sales/models/sale.py:129-136 | an amount discount is its value; a percentage between 0 and 100 % of a non-negative subtotal lies between 0 and the subtotal; 100 % is the subtotal; a zero value removes nothing |
| SaleRules.ComputeStatusCases | sales/models/sale.py:147-152 | Paid exactly when paid ≥ total, Partial exactly when 0 < paid < total, Draft otherwise, never Pending |
| SalesDb.Merge | sales/models/sale.py:145 | a plain save writes every column; update_fields writes only the named ones and keeps the stored values of the rest |
| SalesDb.CreditOfMeaning | sales/models/sale.py:164-182 | a customer's credit is never negative, and is zero when none of its sales has a positive balance |
| SalesDb.CreditFollowsSale | sales/models/sale.py:164-182 | re-pointing one sale moves its positive balance from the old customer's credit to the new one's and changes no other customer's credit |
| SalesDb.PaymentsTotalAppend | sales/models/sale.py:155 | a new payment row raises its own sale's payment total by its amount and no other sale's |
| SalesDb.PaymentsTotalRemove | sales/models/sale.py:155 | deleting a payment id takes exactly that row's amount off its sale's total |
| SalesDb.Db.constructor | sales/models/sale.py:184-203 | the database starts with empty tables and the first id 1 |
| Sales.RecomputedMeaning | sales/models/sale.py:194-199 | after save the instance is settled: its total is subtotal + tax and its balance is total − paid, with the derived status; an existing sale's subtotal is Σ line_total − discount_amount; saving again changes nothing |
| Sales.DiscountTypeIgnoredOnSave | sales/models/sale.py:194-196 | for an existing sale, the totals that save leaves do not depend on the discount type or value |
| Sales.PercentageDiscountOverridden | sales/models/sale.py:138-145 | the percentage-discounted totals that update_totals_from_items assigns are replaced by the legacy subtotal when it saves |
| Sales.TotalsStoredSettled | sales/models/sale.py:138-145 | the row a totals save leaves is settled when the tax, payments and discount in memory agree with the stored ones |
| Sales.PaymentSaveColumns | sales/models/sale.py:154-159 | a payment-summary save writes amount_paid, balance and status, and never the subtotal or total |
| Sales.RecalcCreditMeaning | sales/models/sale.py:164-182 | the customer's credit becomes the sum of its positive balances and no other customer changes; no id, or an unknown customer, changes nothing |
| Sales.CreditsAfterSaveMeaning | sales/models/sale.py:201-203 | after save, both the customer the sale left and the customer it now has hold their full credit aggregate; every other customer is untouched |
| Sales.Sale.constructor | sales/models/sale.py:184-203 | a new sale is unsaved and carries the model defaults |
| Sales.Sale.Save | sales/models/sale.py:184-203 | an existing sale fails if its row is gone, and otherwise is recomputed, written with the named columns and then recredited; a new sale gets a fresh id and is inserted, or is refused when fields are named |
| Sales.Sale.Recompute | sales/models/sale.py:194-199 | the instance's columns become Recomputed of the old ones |
| Sales.Sale.UpdateTotalsFromItems | sales/models/sale.py:138-145 | the four totals columns are saved, with the values that save's recomputation gives |
| Sales.PaymentsRolledUpMeaning | sales/models/sale.py:154-158 | rolling up the payments sets amount_paid to their sum, keeps subtotal, total and customer, and settles balance and status against the kept total; the save that follows recomputes from the same values as without the rollup |
| Sales.Sale.RefreshPaymentSummary | sales/models/sale.py:154-159 | amount_paid becomes the sum of the sale's payments; when the row is gone the rolled-up columns stay in memory and nothing is written; otherwise the payment columns are saved and the customers recredited |
| Sales.RecalculateCredits | sales/models/sale.py:201-203 | the customers table becomes CreditsAfterSave of the old one |
| Sales.RecalculateCustomerCredit | sales/models/sale.py:164-182 | the customers table becomes RecalcCredit of the old one |
| Payments.Payment.constructor | sales/models/payment.py:36-41 | a new payment is unsaved and uses the default method, cash |
| Payments.Payment.Save | sales/models/payment.py:52-54 | the row is written first, under a fresh id for a new payment, and the sale's amount_paid then counts it; the sale row gets the payment columns and the customers their full credit, or, when the sale row is gone, DoesNotExist with sales and customers untouched; a payment of an unsaved sale is refused |
| Payments.Payment.Delete | sales/models/payment.py:56-59 | the row is removed before the refresh, so the refresh no longer counts it; the sale row and the customers are then written as for a save, and the removal stands when the refresh fails with Unsaved or DoesNotExist |
| Fefo.SortFefoCorrect | sales/models/sale_item.py:73 | the candidate order is sorted by (expiration_date, created_at) and is a permutation of its input |
| Fefo.Eligible | sales/models/sale_item.py:66-73 | exactly the active lots that expire after today and hold stock |
| Fefo.CandidatesMeaning | sales/models/sale_item.py:66-73 | the candidates are exactly the eligible lots, in FEFO order and with their multiplicities |
| Fefo.RemsOf | sales/models/sale_item.py:78-84 | one remaining quantity per candidate, in order |
| Fefo.DrawsOfMeaning | sales/models/sale_item.py:75-84 | the walk takes min(need, all stock); every draw is positive and at most its lot's stock; every draw but the last empties its lot |
| Fefo.Pair | sales/models/sale_item.py:83 | the pairs are the first candidates zipped with their draws |
| Fefo.Allocation | sales/models/sale_item.py:57-93 | the FEFO pairs, or a shortfall that reports the need and what was found |
| Fefo.ExpiredOrExhaustedNeverDrawn | catalog/models/lot.py:78-90 | a lot that is expired today or exhausted is never a FEFO candidate, and zeroing its stock leaves total_stock unchanged |
| Fefo.CandidatesHoldSellableStock | sales/models/sale_item.py:66-73 | the candidates together hold exactly total_stock |
| Fefo.AllocationMeaning | sales/models/sale_item.py:57-93 | the allocation fails exactly when the need exceeds total_stock, and then reports all of it as available; on success the draws total the need, follow FEFO order and stay within each lot |
| Fefo.TwoLotExample | sales/models/sale_item.py:66-84 | with two lots of 5 and a need of 7, the earlier-expiring lot gives 5 and the other 2, whatever their listed order |
| Fefo.AllocationNoDuplicates | sales/models/sale_item.py:224 | an allocation draws from each lot at most once, so the (sale_item, lot) uniqueness holds |
| Fefo.AllocationAgree | sales/models/sale_item.py:57-93 | the allocation depends only on the stock of the product's own lots |
| SaleItems.CommitDraw | sales/models/sale_item.py:108-119 | one committed pair changes only its own lot |
| SaleItems.CommitAll | sales/models/sale_item.py:99-119 | the commit changes no lot outside the pairs |
| SaleItems.RevertRow | sales/models/sale_item.py:131-142 | one reversed row changes only its own lot |
| SaleItems.RevertAll | sales/models/sale_item.py:127-142 | the reversal changes no lot outside the rows |
| SaleItems.CommitRows | sales/models/sale_item.py:101-106 | one SaleItemLot row per pair, with the pair's lot and quantity and the lot's price |
| SaleItems.CommitMoves | sales/models/sale_item.py:112-119 | one OUT movement per pair, with the pair's lot and quantity |
| SaleItems.RevertMoves | sales/models/sale_item.py:135-142 | one IN movement per row, with the row's lot and quantity |
| SaleItems.CommitDrawMeaning | sales/models/sale_item.py:108-119 | an in-bounds lot survives a committed pair of q exactly when it holds at least 2q, and then loses 2q |
| SaleItems.RevertRowMeaning | sales/models/sale_item.py:131-142 | reversing a row of q raises the lot by 2q, when that stays within its initial quantity |
| SaleItems.NewLineCommitIff | sales/models/sale_item.py:170-174 | a new line commits exactly when its whole need is taken from the first FEFO lot and that lot holds at least twice the need |
| SaleItems.CommitAllFrame | sales/models/sale_item.py:99-119 | a commit changes only the lots its pairs name |
| SaleItems.RevertAllFrame | sales/models/sale_item.py:127-142 | a reversal changes only the lots its rows name |
| SaleItems.CommitThenRevert | sales/models/sale_item.py:95-145 | reversing the rows that a successful commit wrote, over distinct in-bounds lots, restores every lot |
| SaleItems.Allocated | sales/models/sale_item.py:172-174 | allocation and commit from the current stock, or the first error |
| SaleItems.Reversed | sales/models/sale_item.py:121-145 | every recorded row of the item reversed, then its rows deleted, or the first error |
| SaleItems.NewLineEffect | sales/models/sale_item.py:170-174 | saving a new line of quantity q succeeds exactly when one lot holding at least 2q covers it; that lot loses 2q, and one SaleItemLot row and one OUT movement of q are written |
| SaleItems.UnchangedQuantityKeepsState | sales/models/sale_item.py:175 | re-saving a line at its recorded quantity touches no lot, row or movement |
| SaleItems.NewLineThenDelete | sales/models/sale_item.py:185-191 | deleting a line just after saving it new restores every lot and the SaleItemLot table, while the log keeps both halves |
| SaleItems.Snapshot | sales/models/sale_item.py:99-145 | the snapshot holds each lot's current remaining quantity |
| SaleItems.CommitOne | sales/models/sale_item.py:99-119 | one pass of the commit loop: the result is CommitDraw's, and the row and the movement are written |
| SaleItems.RevertOne | sales/models/sale_item.py:127-142 | one pass of the reversal loop: the result is RevertRow's, and the movement is written |
| SaleItems.CommitDraws | sales/models/sale_item.py:99-119 | the commit loop ends as CommitAll says, with its rows and movements |
| SaleItems.RevertRows | sales/models/sale_item.py:127-142 | the reversal loop ends as RevertAll says, with its movements |
| SaleItems.WalkLots | sales/models/sale_item.py:75-84 | the loop takes what DrawsOf says, and leaves need − Σ draws |
| SaleItems.Restore | sales/models/sale_item.py:147 | a failed atomic block leaves every table and every snapshotted lot as before |
| SaleItems.CloseSave | sales/models/sale_item.py:183 | after successful lot handling the sale is re-totalled: its row takes the totals columns and the stored and current customers get their full credit, with no other table changed; any failure restores the tables and the lots |
| SaleItems.SaleItem.constructor | sales/models/sale_item.py:147-183 | a new line is unsaved and keeps its sale, product, quantity and unit price |
| SaleItems.SaleItem.GetLotsForSale | sales/models/sale_item.py:57-93 | the result is Allocation from the current stock |
| SaleItems.SaleItem.CreateSaleItemLots | sales/models/sale_item.py:95-119 | the result and the new stock, rows and movements are CommitAll's |
| SaleItems.SaleItem.RemoveSaleItemLots | sales/models/sale_item.py:121-145 | the result and the new stock, rows and movements are Reversed's |
| SaleItems.SaleItem.Allocate | sales/models/sale_item.py:172-174 | the result and the new state are Allocated's |
| SaleItems.SaleItem.SyncLots | sales/models/sale_item.py:168-180 | the result and the new state are LineLots', given the previous quantity |
| SaleItems.SaleItem.WriteRow | sales/models/sale_item.py:165 | a new line is inserted under the next id, and a saved line is written in place |
| SaleItems.SaleItem.WriteAndSync | sales/models/sale_item.py:165-180 | the row is written, then the lots follow LineLots |
| SaleItems.SaleItem.SaveAdmitted | sales/models/sale_item.py:147-183 | the row and the lots follow SaveEffect, the sale row is re-totalled and the customers recredited, or every table and lot is rolled back |
| SaleItems.SaleItem.Save | sales/models/sale_item.py:147-183 | the unit price defaults to the product's and line_total is price × quantity; the row and lots follow SaveEffect, the sale row is re-totalled and the customers recredited, or everything is rolled back |
| SaleItems.SaleItem.DeleteAdmitted | sales/models/sale_item.py:185-191 | the lots follow DeleteEffect, the row is removed, the sale row is re-totalled and the customers recredited, or everything is rolled back |
| SaleItems.SaleItem.RemoveLine | sales/models/sale_item.py:188-190 | the row is removed only when the reversal passes; otherwise the row and the key stay |
| SaleItems.SaleItem.Delete | sales/models/sale_item.py:185-191 | an unsaved line or sale is refused before anything is written; otherwise the lots, the row, the sale row and the customers end as DeleteAdmitted says |
| SaleForm.ExpiredStockPositive | sales/api_views.py:62-79 | the expired aggregate is positive exactly when some active, expired lot still holds stock |
| SaleForm.SearchFiguresMeaning | sales/api_views.py:40-81 | the search figures are the product's total_stock, expired stock, latest price and threshold alert, and the two stocks add up to all active stock |
| SaleForm.StockInfo | sales/api_views.py:97-148 | the figures accumulated over the FEFO candidates equal those product_search computes, and available_lots lists exactly the candidates in FEFO order with expiry, remaining quantity and sale price |
| SaleForm.ListAvailable | sales/api_views.py:110-118 | the running total is the sum of the candidates' remaining quantities, and there is one entry per candidate, in order |
| SaleForm.PriceOfAppend | sales/api_views.py:216-218 | one more pair adds its price × quantity to the total |
| SaleForm.WalkedMeaning | sales/api_views.py:187-201 | the walk draws min(need, total_stock); when stock suffices, its pairs are _get_lots_for_sale's allocation |
| SaleForm.AverageTimesQuantity | sales/api_views.py:220 | the average price times the quantity gives the total price back |
| SaleForm.CheckedMeaning | sales/api_views.py:176-230 | the answer is Insufficient exactly when the need exceeds total_stock, reporting that stock and the need; otherwise the pairs are the FEFO allocation, they draw exactly the need, and the average is total / quantity |
| SaleForm.WeightedAverageExample | sales/api_views.py:211-220 | 10 units at 1000.00 and 2 at 1200.00 cost 12400.00 in all, 1033.33… a unit |
| SaleForm.ExampleWalk | sales/api_views.py:187-201 | the walk of that example takes the 10 units of the first lot, then 2 |
| SaleForm.WalkCounting | sales/api_views.py:183-201 | the loop yields the DrawsOf pairs; an unmet need means total_available counts every candidate |
| SaleForm.TotalPrice | sales/api_views.py:216-218 | the total is Σ sale_price × quantity over the pairs |
| SaleForm.ValidateSaleItem | sales/api_views.py:165-230 | a quantity under 1 is refused first, then a missing product; otherwise the answer is Checked over the current stock |
| SaleForm.FindProduct | sales/api_views.py:351-355 | the product with that id, or none when no product has it |
| SaleForm.AlreadySold | sales/api_views.py:609-610 | the quantity of the sale's first line of that product, and 0 when the sale has none |
| SaleForm.LineStock | sales/api_views.py:604-613 | current total_stock plus what the sale already holds of the product |
| SaleForm.WalkPricing | sales/api_views.py:380-393 | the loop yields the DrawsOf pairs and total_price is their price |
| SaleForm.CheckItem | sales/api_views.py:344-403 | the line's errors, or its FEFO pairs, total and average price, as ItemVerdict says |
| SaleForm.PriceLine | sales/api_views.py:379-403 | the validated line carries the walk's pairs, their total, and the total over the quantity |
| SaleForm.ItemVerdictValid | sales/api_views.py:361-403 | a line whose product exists and whose quantity is positive and within stock is validated with its walk |
| SaleForm.CheckItems | sales/api_views.py:342-403 | the line errors and the validated lines are ItemErrors' and ValidItems' |
| SaleForm.CheckPayments | sales/api_views.py:405-429 | the payment errors and validated payments are PaymentErrors' and ValidPayments', or an amount that Decimal rejects ends the request |
| SaleForm.ValidateSale | sales/api_views.py:319-436 | the checks' verdict is FormVerdictOf |
| SaleForm.CreateLineAllocates | sales/api_views.py:375-403 | a validated create_sale line draws exactly its quantity, as _get_lots_for_sale's allocation |
| SaleForm.StockCheckMeaning | sales/api_views.py:604-617 | a line is refused for stock exactly when its quantity exceeds stock plus what the sale already holds, and then that sum is reported |
| SaleForm.UpdateLinePricesCurrentStockOnly | sales/api_views.py:613-635 | update_sale accepts units already on the line but prices only the current stock it can walk |
| SaleForm.PaymentVerdictMeaning | sales/api_views.py:413-421 | a payment is valid exactly when its amount is positive and its method is one of the five; a missing method is cash |
| SaleForm.AcceptedMeaning | sales/api_views.py:319-436 | an accepted form has a non-negative discount, at least one line, a known customer or none, every line valid and every payment valid |
| SaleForm.ItemsAllValid | sales/api_views.py:342-403 | with no line errors, every line is validated, one per input line |
| SaleForm.PaymentsAllValid | sales/api_views.py:405-429 | with no payment errors, every payment is validated |
| SaleForm.AmountsPaidPositive | sales/api_views.py:490-497 | validated payments sum to a positive amount unless there are none |
| SaleForm.SaleTotalsMeaning | sales/api_views.py:442-502 | the totals are refused exactly when the discount exceeds the lines; otherwise total = lines − discount + tax, paid + balance = total, and the status follows compute_status |
| ProductFeed.TrimStart | catalog/management/commands/parse_product_feed.py:182-183 | drops leading whitespace only: the result is a suffix with no leading space |
| ProductFeed.TrimEnd | catalog/management/commands/parse_product_feed.py:182-183 | drops trailing whitespace only: the result is a prefix with no trailing space |
| ProductFeed.Strip | catalog/management/commands/parse_product_feed.py:182-183 | empty exactly when the text is all whitespace, and otherwise starting and ending with a non-space |
| ProductFeed.StripSurrounded | catalog/management/commands/parse_product_feed.py:182-183 | stripping a word surrounded by whitespace gives the word |
| ProductFeed.StripIdempotent | catalog/management/commands/parse_product_feed.py:182-183 | stripping twice is stripping once |
| ProductFeed.Lower | catalog/management/commands/parse_product_feed.py:94 | lower-cases character by character and keeps the length |
| ProductFeed.LowerIdempotent | catalog/management/commands/parse_product_feed.py:93-101 | a lower-cased key is its own key |
| ProductFeed.Filter | catalog/management/commands/parse_product_feed.py:193 | keeps only accepted characters, and is never longer |
| ProductFeed.FilterTwice | catalog/management/commands/parse_product_feed.py:193-194 | filtering twice is filtering once with both tests |
| ProductFeed.FilterAppend | catalog/management/commands/parse_product_feed.py:193 | filtering distributes over concatenation |
| ProductFeed.CleanCurrencyIsCleanInt | catalog/management/commands/parse_product_feed.py:193-194 | deleting the separators after keeping them leaves exactly what the integer filter keeps |
| ProductFeed.ReadIntRoundTrip | catalog/management/commands/parse_product_feed.py:220 | int() reads back what str() writes |
| ProductFeed.CleanIntOfRendered | catalog/management/commands/parse_product_feed.py:215 | a rendered integer passes the digit filter unchanged |
| ProductFeed.ParseCurrency | catalog/management/commands/parse_product_feed.py:186-204 | a value and an issue exclude each other, and an issue names this field |
| ProductFeed.ParseInt | catalog/management/commands/parse_product_feed.py:206-225 | a value and an issue exclude each other, and an issue names this field |
| ProductFeed.CurrencyReadsAsInt | catalog/management/commands/parse_product_feed.py:186-225 | the currency parser reads every value as the integer parser does, and has a problem on exactly the same inputs |
| ProductFeed.ParseIntRoundTrip | catalog/management/commands/parse_product_feed.py:214-220 | a rendered integer given as text is read back as itself, with no issue |
| ProductFeed.GroupedPriceExample | catalog/management/commands/parse_product_feed.py:192-199 | "1,500.00" is read as 150000 because the decimal point is deleted |
| ProductFeed.NormalizeBarcode | catalog/management/commands/parse_product_feed.py:180-184 | a non-blank text code is stripped; anything else becomes BARCODEERROR followed by the counter |
| ProductFeed.FallbackNumber | catalog/management/commands/parse_product_feed.py:184 | a fallback barcode starts with the prefix and carries its counter |
| ProductFeed.FallbacksDiffer | catalog/management/commands/parse_product_feed.py:184 | fallbacks with different numbers are different barcodes |
| ProductFeed.FieldIssues | catalog/management/commands/parse_product_feed.py:158-161 | at most one issue per parsed field, and never the fallback issue |
| ProductFeed.ParseSingleProductFails | catalog/management/commands/parse_product_feed.py:155 | a record fails to parse exactly when its category is present and is not an object |
| ProductFeed.ParseSingleProductIssues | catalog/management/commands/parse_product_feed.py:148-178 | the fallback issue is reported, and reported first, exactly when the barcode has the fallback prefix; at most five issues in all |
| ProductFeed.ParseSingleProductNames | catalog/management/commands/parse_product_feed.py:154-155 | the category and dosage-form names are never falsy; a given category name is kept and a missing one becomes its placeholder |
| ProductFeed.Position | catalog/management/commands/parse_product_feed.py:93-96 | the first group with the key, or the end when none has it |
| ProductFeed.GroupedStep | catalog/management/commands/parse_product_feed.py:93-101 | one setdefault-and-append keeps the dict grouped |
| ProductFeed.SourcesAfterAppend | catalog/management/commands/parse_product_feed.py:93-101 | an entry appends its id to its own key's ids only |
| ProductFeed.GroupingMeaning | catalog/management/commands/parse_product_feed.py:88-101 | the dict holds one group per key, named by the first spelling and holding every id of that key in order; a key is present exactly when some entry has it |
| ProductFeed.Counter | catalog/management/commands/parse_product_feed.py:82-91 | the counter starts at 1 and never drops below it |
| ProductFeed.StepOf | catalog/management/commands/parse_product_feed.py:88-112 | a record that parses with text names extends the two dicts, the products and the error lines |
| ProductFeed.CounterAppend | catalog/management/commands/parse_product_feed.py:90-91 | the counter advances by one exactly on a barcode with the fallback prefix |
| ProductFeed.CrashStops | catalog/management/commands/parse_product_feed.py:88-112 | once a record raises, a longer input fails on the same record |
| ProductFeed.Report | catalog/management/commands/parse_product_feed.py:105-112 | each issue of the product is appended with its source id and index |
| ProductFeed.FeedOfNext | catalog/management/commands/parse_product_feed.py:88-112 | the loop's state after one more record is the step from its state before |
| ProductFeed.HandleRecord | catalog/management/commands/parse_product_feed.py:88-112 | one pass is Step, and the counter it returns is the counter of the new products |
| ProductFeed.Handle | catalog/management/commands/parse_product_feed.py:81-112 | the loop's result is FeedOf of the records |
| ProductFeed.StepSuccess | catalog/management/commands/parse_product_feed.py:88-112 | a successful pass has parsed the record with the counter its predecessors left |
| ProductFeed.FeedProducts | catalog/management/commands/parse_product_feed.py:88-103 | product i is record i, parsed with the counter its predecessors leave |
| ProductFeed.FeedGroups | catalog/management/commands/parse_product_feed.py:93-101 | the two dicts are the groupings of all products' category names and dosage-form names |
| ProductFeed.FeedErrors | catalog/management/commands/parse_product_feed.py:105-112 | the error lines are every product's issues in order, numbered by 1-based position |
| ProductFeed.ErrorsIndexed | catalog/management/commands/parse_product_feed.py:105-112 | every error line names a real record by its index, with that record's id and one of its issues |
| ProductFeed.ErrorsInOrder | catalog/management/commands/parse_product_feed.py:88-112 | the error lines come in record order |
| ProductFeed.CounterGrows | catalog/management/commands/parse_product_feed.py:90-91 | the counter never goes back |
| ProductFeed.FallbackBarcodeOf | catalog/management/commands/parse_product_feed.py:150-152 | a record without a usable product_code gets the fallback numbered by the counter |
| ProductFeed.FallbacksDistinct | catalog/management/commands/parse_product_feed.py:88-91 | the generated barcodes are all different |
| ProductFeed.FeedFallbacksDistinct | catalog/management/commands/parse_product_feed.py:88-103 | the generated barcodes among the loop's products are all different |
| LegacyCore.StockAdjusted | core/models.py:138-173 | a zero delta changes nothing; the only failure is an IN or OUT that would go below zero |
| LegacyCore.StockAdjustedMeaning | core/models.py:150-159 | IN and OUT move the stock by delta and record \|delta\|; ADJUSTMENT sets it to max(0, delta) and records the distance moved |
| LegacyCore.InOutRoundTrip | core/models.py:154-159 | an IN or OUT is undone by the opposite delta, which records the same quantity |
| LegacyCore.AdjustmentAbsolute | core/models.py:150-153 | an ADJUSTMENT's result does not depend on the stock before, and repeating it moves nothing |
| LegacyCore.Applied | core/models.py:468-477 | the only failure is an OUT above the stock |
| LegacyCore.AppliedMeaning | core/models.py:468-477 | OUT undoes IN and IN undoes OUT, and an OUT never takes the stock below zero |
| LegacyCore.ReplayAgrees | core/models.py:138-173 | replaying the movement that adjust_stock records reproduces its stock exactly in the cases listed, and in no other |
| LegacyCore.MovementTable.constructor | core/models.py:461-466 | the core log starts empty |
| LegacyCore.Product.constructor | core/models.py:114-115 | a product keeps its price, threshold and stock |
| LegacyCore.Product.AdjustStock | core/models.py:138-173 | the stock changes as StockAdjusted says and one movement is logged with the skip flag; a zero delta or a refused change leaves the stock and the log alone |
| LegacyCore.StockMovement.constructor | core/models.py:461-466 | a new movement is unsaved and keeps its fields and skip flag |
| LegacyCore.StockMovement.ApplyToProduct | core/models.py:468-477 | the product's new stock is the one Applied gives; on an error it is unchanged |
| LegacyCore.StockMovement.Save | core/models.py:461-466 | a new, unflagged movement is applied and then logged, and an error aborts the insert; a flagged or inserted movement leaves the product alone |
| LegacyCore.CreateMovement | core/models.py:461-477 | objects.create gives a fresh movement that is applied and logged, or refused with the stock unchanged |
| LegacyCore.Merge | core/models.py:250 | a plain save writes every column; update_fields writes each named column from the instance and keeps the stored value of every other column |
| LegacyCore.RecomputedMeaning | core/models.py:286-296 | after save the instance is settled and keeps every input column; it is Paid exactly when nothing is owed; saving again changes nothing |
| LegacyCore.FindSale | core/models.py:289 | the sale with that id, or none when no row has it |
| LegacyCore.WriteSale | core/models.py:296 | only the row with that id changes, and it gets the merged columns |
| SalesDb.ItemsTotalAppend | core/models.py:245 | a new item adds its line total to its own sale's sum and to no other (the sum the legacy core and migration 0010 both take) |
| LegacyCore.CreditOfMeaning | core/models.py:269-284 | the credit is never negative, and is zero exactly when none of the customer's sales is an owed CREDIT sale |
| LegacyCore.CreditIgnoresOtherSales | core/models.py:276-282 | rewriting a sale that owes no credit, before or after, leaves the customer's credit alone |
| LegacyCore.SetCredit | core/models.py:283-284 | only the customer with that id gets the new credit |
| LegacyCore.RecalcCreditMeaning | core/models.py:269-284 | the customer's credit becomes the sum of its owed CREDIT balances and no other customer changes; no id, or an unknown customer, changes nothing |
| LegacyCore.CreditsAfterSaveMeaning | core/models.py:297-299 | after save, both the previous and the current customer hold their full credit aggregate; every other customer is untouched |
| SalesDb.FindItem | core/models.py:340 | the item with that id, or none |
| SalesDb.WriteItem | core/models.py:343 | only the row with that id is replaced |
| SalesDb.RemoveItem | core/models.py:361 | exactly the rows with another id remain |
| LegacyCore.CoreDb.constructor | core/models.py:176-299 | the core tables start empty, with first id 1 |
| LegacyCore.RecalculateCustomerCredit | core/models.py:269-284 | the customers table becomes RecalcCredit of the old one, and no other table changes |
| LegacyCore.Sale.constructor | core/models.py:194-235 | a new sale is unsaved and has the model defaults |
| LegacyCore.Sale.Save | core/models.py:286-299 | an existing sale fails if its row is gone, and otherwise is recomputed, written and recredited; a new sale gets a fresh id, or is refused when fields are named |
| LegacyCore.Sale.UpdateTotalsFromItems | core/models.py:244-250 | the subtotal becomes the items' sum, and the four totals columns are saved after save's recomputation; when the row is gone the recomputed instance stays in memory and nothing is written |
| LegacyCore.Sale.RefreshPaymentSummary | core/models.py:259-264 | amount_paid becomes the payments' sum, and the payment columns are saved after save's recomputation |
| LegacyCore.PaymentSaveColumns | core/models.py:259-264 | a payment-summary save never writes the subtotal or total |
| LegacyCore.SaleItem.constructor | core/models.py:333-343 | a new line is unsaved and keeps its sale, product, quantity and price |
| LegacyCore.SaleItem.StoreRow | core/models.py:333-343 | the unit price defaults to the product's and line_total is price × quantity; a missing row, an unsaved sale or a second line for the product is refused before any write |
| LegacyCore.SaleItem.Save | core/models.py:333-355 | the row is stored, then the stock moves by −(quantity − previous) and one OUT of \|quantity − previous\| is logged under the sale's label, then the sale row and the customers are written as update_totals_from_items does (or the sale row is gone and only the instance is re-totalled); db.nextId advances for a new line; when the stock refuses, the row stays written and the sale is not re-totalled |
| LegacyCore.SaleItem.MoveStock | core/models.py:345-353 | the product moves as adjust_stock says for −(quantity − previous), logging one OUT with the sale's label and the item's comment, or nothing when the quantity is unchanged |
| LegacyCore.SaleItem.Delete | core/models.py:357-369 | the row is removed, the full quantity goes back with one IN logged as the sale's reversal, and the sale row and customers are re-totalled without the line |
| LegacyCore.ResaveMovesDifference | core/models.py:345-353 | re-saving with a larger quantity takes only the difference; a smaller quantity gives the difference back, though it is logged as OUT |
| Migrations.MigrationStatus | sales/migrations/0010_recalculate_total_amount_after_discount.py:36-41 | the status the migration writes is never draft |
| Migrations.MigrationStatusIsComputeStatus | sales/migrations/0010_recalculate_total_amount_after_discount.py:36-41 | it agrees with compute_status, except that it writes Pending where that gives Draft |
| Migrations.RecalculatedMeaning | sales/migrations/0010_recalculate_total_amount_after_discount.py:16-48 | the subtotal is the items total less the discount its type and value describe; total = subtotal + tax; balance = total − paid; only those four columns change; running it again changes nothing |
| Migrations.RecalculatedMatchesTotalsAssigned | sales/migrations/0010_recalculate_total_amount_after_discount.py:22-47 | the migration computes the subtotal, total and balance that update_totals_from_items assigns, and its status but for Pending |
| Migrations.SumLineTotals | sales/migrations/0010_recalculate_total_amount_after_discount.py:18-20 | the inner loop's sum is the total of that sale's line totals |
| Migrations.RecalculatedTable | sales/migrations/0010_recalculate_total_amount_after_discount.py:16-48 | one row per sale, in table order |
| Migrations.RecalculateTotalAmountAfterDiscount | sales/migrations/0010_recalculate_total_amount_after_discount.py:8-48 | every sale gets the columns Recalculated gives from its own items; no other table changes |
| Migrations.ReverseRecalculate | sales/migrations/0010_recalculate_total_amount_after_discount.py:51-55 | the reverse step changes nothing |
| Migrations.ForwardMeaning | sales/migrations/0007_migrate_discount_amount_to_type_value.py:13-19 | a migrated sale becomes an amount discount valued at its legacy amount, other sales are untouched, and migrating again changes nothing |
| Migrations.ReverseMeaning | sales/migrations/0007_migrate_discount_amount_to_type_value.py:28-31 | reverse copies only an amount discount's positive value back to the legacy field |
| Migrations.ForwardThenReverse | sales/migrations/0007_migrate_discount_amount_to_type_value.py:13-31 | forward then reverse keeps a migrated sale's legacy amount |
| Migrations.ReverseOverwritesUnmigrated | sales/migrations/0007_migrate_discount_amount_to_type_value.py:14-31 | for a sale the forward step skipped, an amount discount with a value already set overwrites an unrelated legacy amount |
| Migrations.ForwardTable | sales/migrations/0007_migrate_discount_amount_to_type_value.py:13-19 | one row per sale, in table order |
| Migrations.ReverseTable | sales/migrations/0007_migrate_discount_amount_to_type_value.py:28-31 | one row per sale, in table order |
| Migrations.TableRoundTrip | sales/migrations/0007_migrate_discount_amount_to_type_value.py:13-31 | on the whole table, forward then reverse keeps every id, the order, and every migrated sale's legacy amount |
| Migrations.MigrateDiscountAmountToTypeValue | sales/migrations/0007_migrate_discount_amount_to_type_value.py:7-19 | every sale becomes Forward of itself, and no other table changes |
| Migrations.ReverseMigrate | sales/migrations/0007_migrate_discount_amount_to_type_value.py:22-31 | every sale becomes Reverse of itself, and no other table changes |

## Left out

- HTTP plumbing of the endpoints: authentication, JSON decoding, status codes and response formatting. Request bodies are datatypes.
- The writes of create_sale and update_sale inside their transactions (sales/api_views.py:438-528 and the rest of update_sale). The totals they compute are modelled (SaleTotals); the row creation and the lot.adjust_stock calls are not, and the view calls adjust_stock, which Lot does not define.
- The product_search text query (name or barcode icontains, at most 20 results). The figures are modelled per product.
- Decimal arithmetic: 2-place rounding of stored decimals, and the crash of `Decimal(str(...))` on a malformed tax or discount. A malformed payment amount is modelled as the request failing.
- Floats and booleans in the feed, the `to_dict` rendering, file I/O, the output payload and `recordsTotal`.
- `str.lower` beyond ASCII and Latin-1 letters.
- ProductFeed.ParseInt and ProductFeed.ParseCurrency: only the ASCII digits 0-9 count as digits. Python's `\d` and `int()`/`Decimal()` also accept every other Unicode decimal digit (Arabic-Indic digits, for example), which the model reports as an issue instead of reading.
- SaleForm.ValidateSaleItem: the quantity arrives as an integer. The view's `int(data.get('quantity', 0))` (sales/api_views.py:161) also truncates a JSON float, parses a numeric string and answers 400 for anything else; that conversion is part of the request decoding above.
- SaleForm.StockInfo: each available_lots entry stands for the lot by its object and leaves out `batch_number` (or its `Lot #id` placeholder) and the ISO rendering of the date.
- Customer ids are taken to be positive, as the database's auto-increment keys are. An id of 0, which `if not customer_id` would treat as no customer, is not distinguished.
- Product.lots is a sequence, and the stock sums count a lot as often as it is listed. The database never lists a lot twice; where a result depends on it, distinctness is a stated requirement: Fefo.AllocationNoDuplicates requires NoDuplicates of the lots, and SaleItems.CommitThenRevert requires the draws to name distinct lots.
- The core Payment save and delete (core/models.py:425-432). They mirror the active app's Payment (sales/models/payment.py), which is modelled.
- Invoices, the admin, the shadowed duplicate definitions of the core app, and the other migrations.
- The primary-key counter: one counter serves all tables, and it is part of the state a failed atomic block rolls back, so an id given to a row that was rolled back is handed out again. A database sequence (PostgreSQL's, for one) is not rolled back and would skip that id; the model does not tell database engines apart.
- Re-saving an already inserted movement is modelled as rewriting the same row with no effect on the lot.
- The field validators (lot quantity ≥ 1, payment amount ≥ 0.01, a non-negative movement quantity) are predicates and constants only, because Django runs validators in forms, not in save.
- Concurrency, row locking and database isolation.
- SaleItems.SaleItem.Save and SaleItems.SaleItem.Delete: after a failure that rolls the tables and lots back, the contract does not give the in-memory fields the failed block left changed (the id a new line was given, the sale's recomputed totals).
- The clock: `date.today()` and `timezone.now()` are parameters.
