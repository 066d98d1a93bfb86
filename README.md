# HenryTires inventory stock ledger, modelled in Dafny

The HenryTires inventory back end keeps stock for every (branch, item) pair.
The stock lives in an *inventory summary*: one entry per item condition
(New, Used), each with the quantity on hand and the quantity reserved, plus
totals over the entries and a version number. Stock changes through
*inventory transactions* of three types:

- In adds stock.
- Out removes stock and may not take it below zero.
- Adjust sets an absolute quantity.

A transaction is created as a Draft. It is then either committed, which
applies it to the summaries, or cancelled. Both outcomes are final.

*Sales* are numbered per branch and made of good and service lines. Posting
a sale records one Out transaction for its good lines and moves the stock
with its own per-line loop.

Around this core the model covers:

- master data: items with soft delete and revive, users with role and branch rules, and reference prices with an append-only history;
- invoice and stock reports;
- the dashboard figures;
- the conversions between the aggregates and their stored documents.

The model is organised as the source is:

- One module per domain entity: `Summaries`, `Transactions`, `TransactionLines`, `SaleLines`, `Sales`, `Prices`, `MasterData`.
- One module per domain service: `StockAvailability`, `PriceResolution`.
- One module per application service: `NewTransactionService`, `SaleService`, `PriceManagementService`, `ItemManagementService`, `UserService`, `ReportService`, `DashboardService`.
- One module per document mapper: `SummaryMapper`, `TransactionMapper`, `SaleMapper`, `PriceMapper`.
- `Repositories` holds the stores as in-memory classes.
- `Documents` holds the stored shapes.
- `Common` and `Sequences` hold shared vocabulary and sequence utilities.

Entities whose methods update their own fields are classes:

- the inventory summary;
- the inventory transaction;
- the reference price.

Values the services rebuild and store again are datatypes: items, users, branches, sales and lines.

Each imperative service operation is a method over the stores. Its
postcondition equals a specification function of the old store contents.
Lemmas then state what the source promises about that function.

Conventions:

- Money (C# `decimal`) is `real`.
- Quantities and versions are `int`.
- Instants are integer ticks.
- The current user, the clock ("now") and generated identifiers are parameters.
- Enumeration strings that the services parse arrive already parsed. An unparsable value is a distinct case: `None`, or `Unparsable` for optional update fields.
- Errors are the `Error` datatype, one case per exception kind the code throws:
  - the application's own: Validation, NotFound, Unauthorized and Business;
  - the database driver's: DuplicateKey, a write a unique index refuses;
  - the framework's: InvalidArgument, UnauthorizedAccess and InvalidOperation;
  - the domain entities': NotDraft, CancelCommitted, AlreadyCancelled and NegativeStock.

## Model

| member | source | states |
|---|---|---|
| Summaries.FindEntry | src/HenryTires.Inventory.Domain/Entities/InventorySummary.cs:22 | the entry found for a condition is the first one with that condition, and there is none exactly when no entry has it |
| Summaries.RelevantLines | src/HenryTires.Inventory.Domain/Entities/InventorySummary.cs:18 | the lines kept are exactly the transaction's lines for the summary's item, in order |
| Summaries.OtherItemsIgnored | src/HenryTires.Inventory.Domain/Entities/InventorySummary.cs:18 | inserting lines for other items anywhere in a transaction does not change what the summary sees |
| Summaries.NoRelevantLines | src/HenryTires.Inventory.Domain/Entities/InventorySummary.cs:18 | a transaction with no line for the item gives the summary no lines to apply |
| Summaries.EnsureEntry | src/HenryTires.Inventory.Domain/Entities/InventorySummary.cs:22-34 | after a missing entry is created, an entry for the condition always exists |
| Summaries.OnlyOutIsRejected | src/HenryTires.Inventory.Domain/Entities/InventorySummary.cs:36-52 | In and Adjust transactions are never rejected; only Out can fail |
| Summaries.ApplyLinesKeepsStockNonNegative | src/HenryTires.Inventory.Domain/Entities/InventorySummary.cs:36-52 | from non-negative stock with non-negative quantities, a successful apply leaves every entry's OnHand at zero or more |
| Summaries.ApplyLinesKeepsReserved | src/HenryTires.Inventory.Domain/Entities/InventorySummary.cs:20-55 | applying never removes or reorders entries and never changes a condition or a reserved quantity; appended entries reserve nothing |
| Summaries.ApplyLinesKeepsConditionsDistinct | src/HenryTires.Inventory.Domain/Entities/InventorySummary.cs:22-34 | entries stay one per condition |
| Summaries.SingleLine | src/HenryTires.Inventory.Domain/Entities/InventorySummary.cs:22-54 | one line: In adds, Adjust sets the absolute quantity, Out subtracts and fails exactly when the result is negative; a missing entry is appended with OnHand 0 and Reserved 0, and the touched entry gets the transaction date |
| Summaries.InThenOutScenario | src/HenryTires.Inventory.Domain/Entities/InventorySummary.cs:36-47 | on a fresh summary, In 10 then Out 4 leaves 6 on hand, and a further Out 7 is rejected |
| Summaries.InventorySummary.ApplyLine | src/HenryTires.Inventory.Domain/Entities/InventorySummary.cs:20-55 | one loop iteration changes only the entries, as the per-line specification says |
| Summaries.InventorySummary.ApplyTransaction | src/HenryTires.Inventory.Domain/Entities/InventorySummary.cs:16-60 | the entries become the result of applying the item's lines; on success the totals equal the sums over the entries and the version rises by exactly one, however many lines applied (zero included); on an Out that goes negative the error names the item and condition, and the totals and version are unchanged |
| Summaries.InventorySummary.GetAvailable | src/HenryTires.Inventory.Domain/Entities/InventorySummary.cs:62-66 | OnHand − Reserved of the first entry for the condition, 0 when there is none |
| Transactions.InventoryTransaction.Commit | src/HenryTires.Inventory.Domain/Entities/InventoryTransaction.cs:19-31 | succeeds exactly from Draft and then sets Committed, CommittedAt/By and ModifiedAt/By; otherwise it fails and nothing changes; lines, type, branch and date never change |
| Transactions.InventoryTransaction.Cancel | src/HenryTires.Inventory.Domain/Entities/InventoryTransaction.cs:33-44 | succeeds exactly from Draft and only sets the status to Cancelled; fails with a distinct error from Committed and from Cancelled, changing nothing |
| Transactions.InventoryTransaction.GetTotalAmount | src/HenryTires.Inventory.Domain/Entities/InventoryTransaction.cs:46-49 | 0 for no lines, and non-negative when every line total is |
| Transactions.CommitTwice | src/HenryTires.Inventory.Domain/Entities/InventoryTransaction.cs:19-31 | committing twice: the first succeeds exactly from Draft, the second always fails |
| TransactionLines.CalculateLineTotal | src/HenryTires.Inventory.Domain/Entities/InventoryTransactionLine.cs:24-27 | a zero quantity or price gives 0; non-negative inputs give a non-negative total; quantity 1 gives the unit price |
| TransactionLines.NewLine | src/HenryTires.Inventory.Domain/Entities/InventoryTransactionLine.cs:14-21 | a new line is taxable and carries the shop fee, and has no cost of goods sold and no price notes |
| TransactionLines.SumLineTotalsAppend | src/HenryTires.Inventory.Domain/Entities/InventoryTransaction.cs:46-49 | the sum of line totals is additive over concatenation |
| TransactionLines.SumLineTotalsNonNegative | src/HenryTires.Inventory.Domain/Entities/InventoryTransaction.cs:46-49 | non-negative line totals sum to a non-negative amount |
| SaleLines.SaleLine.LineTotal | src/HenryTires.Inventory.Domain/Entities/SaleLine.cs:16 | zero quantity gives 0; non-negative quantity and price give a non-negative total |
| SaleLines.NewSaleLine | src/HenryTires.Inventory.Domain/Entities/SaleLine.cs:12-17 | a new sale line has no inventory transaction link, and its total is quantity × price |
| Prices.ConsumableItemPrice.UpdatePrice | src/HenryTires.Inventory.Domain/Entities/ConsumableItemPrice.cs:18-35 | a price of 0 or less fails and changes nothing; otherwise the history gains exactly the replaced (price, date, author) at its end, earlier entries stay in order, and the latest price, date and author become the new ones; id, item code and currency never change |
| StockAvailability.Sufficient | src/HenryTires.Inventory.Domain/Services/StockAvailabilityService.cs:56-59 | a sufficient result records the available quantity and a request of 0 |
| StockAvailability.Insufficient | src/HenryTires.Inventory.Domain/Services/StockAvailabilityService.cs:61-64 | an insufficient result records both figures |
| StockAvailability.CheckEntries | src/HenryTires.Inventory.Domain/Services/StockAvailabilityService.cs:11-37 | no summary or no entry gives insufficient (0, requested); otherwise available is OnHand − Reserved, and the result is sufficient iff that covers the request |
| StockAvailability.CheckAvailability | src/HenryTires.Inventory.Domain/Services/StockAvailabilityService.cs:11-37 | the same on a summary object, which it only reads |
| StockAvailability.CheckAgreesWithGetAvailable | src/HenryTires.Inventory.Domain/Services/StockAvailabilityService.cs:21-29 | the check reports the summary's GetAvailable figure and is sufficient iff an entry exists and that figure covers the request |
| PriceResolution.NewMoney | src/HenryTires.Inventory.Domain/Services/PriceResolutionService.cs:21-31 | a money value exists iff the amount is non-negative (zero accepted) and the currency is not null, empty or white space |
| PriceResolution.Usd | src/HenryTires.Inventory.Domain/Services/PriceResolutionService.cs:33 | a non-negative amount in "USD" |
| PriceResolution.GetCurrentPrice | src/HenryTires.Inventory.Domain/Services/PriceResolutionService.cs:7-13 | no record gives no price; a record gives its latest price in its currency, and fails when that price is negative |
| Repositories.UpsertWithVersionCheck | src/HenryTires.Inventory.Infrastructure/Repositories/InventorySummaryRepository.cs:155-185 | the write goes through iff nothing is stored under the (branch, item) key or the stored version is the new one minus 1; otherwise the upsert's insert collides with the stored summary's id and (branch, item) key and the driver refuses it (DuplicateKey) |
| Repositories.SecondWriterLoses | src/HenryTires.Inventory.Infrastructure/Repositories/InventorySummaryRepository.cs:166-184 | of two writers that read the same version, the second is refused with DuplicateKey |
| Repositories.SerialWritersSucceed | src/HenryTires.Inventory.Infrastructure/Repositories/InventorySummaryRepository.cs:166-184 | a writer that read the previous write's result succeeds, and the stored version advances by one |
| Repositories.UpsertKeepsWellKeyed | src/HenryTires.Inventory.Infrastructure/Repositories/InventorySummaryRepository.cs:166-177 | the write keeps every summary under its own key |
| Repositories.SummaryStore.GetByKey | src/HenryTires.Inventory.Infrastructure/Repositories/InventorySummaryRepository.cs:30-50 | the stored summary for (branch, item), present exactly when one is stored |
| Repositories.PriceStore.GetByItemCode | src/HenryTires.Inventory.Infrastructure/Repositories/ConsumableItemPriceRepository.cs:20-30 | the stored price of an item, present exactly when one is stored |
| Repositories.SequenceGenerator.GetNextSequence | src/HenryTires.Inventory.Infrastructure/Adapters/Persistence/MongoDB/Repositories/MongoSequenceGenerator.cs:19-52 | the counter goes up by one and its new value is returned; a counter never used starts from 0 |
| Repositories.DrawTwice | src/HenryTires.Inventory.Infrastructure/Adapters/Persistence/MongoDB/Repositories/MongoSequenceGenerator.cs:19-52 | two draws from one counter give consecutive values |
| SummaryMapper.ToEntryEntities | src/HenryTires.Inventory.Infrastructure/Adapters/Persistence/MongoDB/Mappings/InventorySummaryDocumentMapper.cs:38-58 | entries keep their count and order, and each entry's condition, OnHand, Reserved and date |
| SummaryMapper.EntriesRoundTrip | src/HenryTires.Inventory.Infrastructure/Adapters/Persistence/MongoDB/Mappings/InventorySummaryDocumentMapper.cs:38-58 | entry conversion is a round trip in both directions |
| SummaryMapper.ToDocument | src/HenryTires.Inventory.Infrastructure/Adapters/Persistence/MongoDB/Mappings/InventorySummaryDocumentMapper.cs:23-36 | version and totals are copied, not recomputed, and the entries read back as the summary's |
| SummaryMapper.ToEntity | src/HenryTires.Inventory.Infrastructure/Adapters/Persistence/MongoDB/Mappings/InventorySummaryDocumentMapper.cs:8-21 | a new summary with the document's fields, which converts back to the same document |
| SummaryMapper.ToDocumentDeterminesEntity | src/HenryTires.Inventory.Infrastructure/Adapters/Persistence/MongoDB/Mappings/InventorySummaryDocumentMapper.cs:8-36 | two summaries with the same document agree on every field, so reading back gives the summary field by field |
| TransactionMapper.ToLineEntities | src/HenryTires.Inventory.Infrastructure/Adapters/Persistence/MongoDB/Mappings/InventoryTransactionDocumentMapper.cs:52-96 | lines keep count, order, quantity, price, flags, price source, line total and cost of goods sold |
| TransactionMapper.LinesRoundTrip | src/HenryTires.Inventory.Infrastructure/Adapters/Persistence/MongoDB/Mappings/InventoryTransactionDocumentMapper.cs:52-96 | line conversion is a round trip in both directions |
| TransactionMapper.ToDocument | src/HenryTires.Inventory.Infrastructure/Adapters/Persistence/MongoDB/Mappings/InventoryTransactionDocumentMapper.cs:30-50 | status and commit fields are copied, and the lines read back as the transaction's |
| TransactionMapper.ToEntity | src/HenryTires.Inventory.Infrastructure/Adapters/Persistence/MongoDB/Mappings/InventoryTransactionDocumentMapper.cs:8-28 | a new transaction with the document's fields, which converts back to the same document |
| TransactionMapper.ToDocumentDeterminesEntity | src/HenryTires.Inventory.Infrastructure/Adapters/Persistence/MongoDB/Mappings/InventoryTransactionDocumentMapper.cs:8-50 | two transactions with the same document agree on every field |
| SaleMapper.ToEntity | src/HenryTires.Inventory.Infrastructure/Adapters/Persistence/MongoDB/Mappings/SaleDocumentMapper.cs:8-28 | a sale read from a document always has the Cash payment method |
| SaleMapper.DocumentRoundTrip | src/HenryTires.Inventory.Infrastructure/Adapters/Persistence/MongoDB/Mappings/SaleDocumentMapper.cs:8-50 | storing what was read back stores the same document |
| SaleMapper.EntityRoundTrip | src/HenryTires.Inventory.Infrastructure/Adapters/Persistence/MongoDB/Mappings/SaleDocumentMapper.cs:8-84 | a round trip keeps id, number, branch, status, posting and audit fields, and the count and order of lines with their inventory link, classification and condition; line totals come back as quantity × price and the payment method as Cash |
| SaleMapper.PaymentMethodIsLost | src/HenryTires.Inventory.Domain/Entities/Sale.cs:16 | a sale paid other than in cash reads back as Cash, so it does not survive the round trip |
| SaleMapper.EntityRoundTripExactWhen | src/HenryTires.Inventory.Infrastructure/Adapters/Persistence/MongoDB/Mappings/SaleDocumentMapper.cs:30-84 | the round trip is exact iff the sale is paid in cash and, under the model's assumption that a line read back has both flags set (see Left out), every line is taxable and carries the shop fee |
| PriceMapper.ToHistoryEntities | src/HenryTires.Inventory.Infrastructure/Adapters/Persistence/MongoDB/Mappings/ConsumableItemPriceDocumentMapper.cs:36-54 | history keeps its length, order and every entry's price, date and author |
| PriceMapper.HistoryRoundTrip | src/HenryTires.Inventory.Infrastructure/Adapters/Persistence/MongoDB/Mappings/ConsumableItemPriceDocumentMapper.cs:36-54 | history conversion is a round trip in both directions |
| PriceMapper.ToDocument | src/HenryTires.Inventory.Infrastructure/Adapters/Persistence/MongoDB/Mappings/ConsumableItemPriceDocumentMapper.cs:22-34 | latest price, date, author and currency are copied, and the history reads back as the record's |
| PriceMapper.ToEntity | src/HenryTires.Inventory.Infrastructure/Adapters/Persistence/MongoDB/Mappings/ConsumableItemPriceDocumentMapper.cs:8-20 | a new price record with the document's fields, which converts back to the same document |
| PriceMapper.ToDocumentDeterminesEntity | src/HenryTires.Inventory.Infrastructure/Adapters/Persistence/MongoDB/Mappings/ConsumableItemPriceDocumentMapper.cs:8-34 | two price records with the same document agree on every field |
| NewTransactionService.ValidateBranchAccess | src/HenryTires.Inventory.Application/UseCases/Inventory/NewTransactionService.cs:617-644 | an Admin must name a non-blank branch (Validation otherwise) and gets it back; anyone else gets their own branch code whatever they asked for, and is Unauthorized exactly when their account lacks a branch id or code |
| NewTransactionService.ValidateBranchAccessForQuery | src/HenryTires.Inventory.Application/UseCases/Inventory/NewTransactionService.cs:592-615 | an Admin's argument passes through unchanged, None meaning every branch; anyone else is scoped as for writes |
| NewTransactionService.NonAdminIgnoresRequestedBranch | src/HenryTires.Inventory.Application/UseCases/Inventory/NewTransactionService.cs:592-644 | for a non-Admin, both checks give the same answer whichever branch is requested |
| NewTransactionService.WriteAccessImpliesQueryAccess | src/HenryTires.Inventory.Application/UseCases/Inventory/NewTransactionService.cs:592-644 | whoever may write to a branch may read it, and reads the same one; the only caller who may read but not write is an Admin naming no branch |
| NewTransactionService.ResolveInPrice | src/HenryTires.Inventory.Application/UseCases/Inventory/NewTransactionService.cs:649-674 | In and Adjust pricing: a negative manual price is a Validation error and is the only error; otherwise the manual price wins (currency defaulting to USD), then the reference price, then 0 USD from the system default |
| NewTransactionService.InPriceNeverMissing | src/HenryTires.Inventory.Application/UseCases/Inventory/NewTransactionService.cs:649-674 | In and Adjust pricing fails only on a negative manual price, and with a non-negative reference price every resolved price is non-negative |
| NewTransactionService.ResolveOutPrice | src/HenryTires.Inventory.Application/UseCases/Inventory/NewTransactionService.cs:679-714 | Out pricing: a manual price from anyone but an Admin or Supervisor is Unauthorized, checked before its sign; a negative authorised one is a Validation error; otherwise the reference price is used, recorded as set by "System"; without one the result is a Business error |
| NewTransactionService.OutManualPriceOnlyByPrivilegedRoles | src/HenryTires.Inventory.Application/UseCases/Inventory/NewTransactionService.cs:685-708 | a resolved Out price is manual exactly when a manual price was given, then only for an Admin or Supervisor and recorded with that role; otherwise it is the reference price |
| NewTransactionService.BuildLine | src/HenryTires.Inventory.Application/UseCases/Inventory/NewTransactionService.cs:62-114 | a missing item is NotFound; a built line belongs to a stored, undeleted item, keeps the request's item, condition and quantity, totals quantity × price, has default tax and fee flags and no cost of goods, and records the caller and time; In and Adjust quantities are accepted |
| NewTransactionService.ItemLine | src/HenryTires.Inventory.Application/UseCases/Inventory/NewTransactionService.cs:71-114 | once the item is found: a built line means the item is not deleted, carries its id, the request's item, condition and quantity, totals quantity × price, keeps default flags, records the caller and time; In and Adjust quantities are accepted |
| NewTransactionService.PricedLine | src/HenryTires.Inventory.Application/UseCases/Inventory/NewTransactionService.cs:88-114 | a priced line keeps the item, condition and quantity and records the caller, the time and quantity × price |
| NewTransactionService.BuildLines | src/HenryTires.Inventory.Application/UseCases/Inventory/NewTransactionService.cs:60-117 | the line loop yields exactly the specification's lines, or its first failure |
| NewTransactionService.PrecheckLine | src/HenryTires.Inventory.Application/UseCases/Inventory/NewTransactionService.cs:154-175 | an Out line passes iff its condition parses, its quantity is positive and the stored stock check is sufficient; it fails only with Validation or Business |
| NewTransactionService.PrecheckIsPerLine | src/HenryTires.Inventory.Application/UseCases/Inventory/NewTransactionService.cs:152-176 | the pre-check passes iff every line passes on its own against the stored stock |
| NewTransactionService.DuplicateOutLinesCheckedSeparately | src/HenryTires.Inventory.Application/UseCases/Inventory/NewTransactionService.cs:152-176 | two lines that each fit the available stock both pass even when together they exceed it |
| NewTransactionService.ExampleOverSellPassesPrecheck | src/HenryTires.Inventory.Application/UseCases/Inventory/NewTransactionService.cs:152-176 | with five available, two Out lines of three for the same item and condition both pass the pre-check, though together they take six |
| NewTransactionService.PrecheckOut | src/HenryTires.Inventory.Application/UseCases/Inventory/NewTransactionService.cs:152-176 | the pre-check loop gives the specification's outcome |
| NewTransactionService.TransactionNumber | src/HenryTires.Inventory.Application/UseCases/Inventory/NewTransactionService.cs:119 | the number starts with the type's prefix and a dash (IN-, OUT-, ADJ-) |
| NewTransactionService.CreateTransaction | src/HenryTires.Inventory.Application/UseCases/Inventory/NewTransactionService.cs:55-141 | creating a draft stores exactly the specification's document under its id and returns it; on any error nothing is stored |
| NewTransactionService.BuiltLinesShape | src/HenryTires.Inventory.Application/UseCases/Inventory/NewTransactionService.cs:62-117 | built lines follow the requests one for one, in order |
| NewTransactionService.CreatedDraftShape | src/HenryTires.Inventory.Application/UseCases/Inventory/NewTransactionService.cs:119-138 | a created transaction is a Draft of the requested type in the checked branch, uncommitted, numbered with its prefix, with one line per request in order, each following its request; In and Out quantities are positive and Adjust ones not negative |
| NewTransactionService.OutPrecheckComesFirst | src/HenryTires.Inventory.Application/UseCases/Inventory/NewTransactionService.cs:146-180 | an Out transaction whose pre-check fails is refused with that failure before any item is looked up or price resolved |
| Sequences.Distinct | src/HenryTires.Inventory.Application/UseCases/Inventory/NewTransactionService.cs:364 | the group keys: each code once, exactly the codes present |
| NewTransactionService.ApplyToDocument | src/HenryTires.Inventory.Application/UseCases/Inventory/NewTransactionService.cs:387-389 | a successful apply keeps the key and id, raises the version by one, stamps the time, makes the totals equal the entry sums and the entries the applied ones; a failure is an Out line's NegativeStock |
| NewTransactionService.ApplyGroup | src/HenryTires.Inventory.Application/UseCases/Inventory/NewTransactionService.cs:367-389 | one item group loads the stored or a fresh summary (version 0, no entries) and applies the transaction to it |
| NewTransactionService.ApplyGroups | src/HenryTires.Inventory.Application/UseCases/Inventory/NewTransactionService.cs:364-394 | the group loop yields exactly the specified sequence of version-checked writes |
| NewTransactionService.GroupWriteGoesThrough | src/HenryTires.Inventory.Application/UseCases/Inventory/NewTransactionService.cs:369-393 | within one commit, the version check never refuses a group's write |
| NewTransactionService.CommitGroupsNeverConflict | src/HenryTires.Inventory.Application/UseCases/Inventory/NewTransactionService.cs:364-394 | a commit's writes fail only with an Out line's NegativeStock, never with a refused summary write (DuplicateKey) |
| NewTransactionService.CommitGroupsFrame | src/HenryTires.Inventory.Application/UseCases/Inventory/NewTransactionService.cs:364-394 | the writes touch only the transaction's branch and items, leaving every other summary as it was |
| NewTransactionService.CommitGroupsWrites | src/HenryTires.Inventory.Application/UseCases/Inventory/NewTransactionService.cs:364-394 | each item's summary ends as its stored or fresh summary with the lines applied |
| NewTransactionService.CommitTransaction | src/HenryTires.Inventory.Application/UseCases/Inventory/NewTransactionService.cs:345-413 | a commit stores the new summaries and the committed transaction together; any failure stores nothing |
| NewTransactionService.ApplyToDocumentKeepsStockNonNegative | src/HenryTires.Inventory.Application/UseCases/Inventory/NewTransactionService.cs:387-388 | from non-negative entries with non-negative quantities, a written summary has no negative entry |
| NewTransactionService.CommitMarksCommitted | src/HenryTires.Inventory.Application/UseCases/Inventory/NewTransactionService.cs:361 | a successful commit was of a Draft, and stores it as Committed by the caller at the current time with everything else kept |
| NewTransactionService.CommitErrors | src/HenryTires.Inventory.Application/UseCases/Inventory/NewTransactionService.cs:350-393 | a missing transaction is NotFound, a failed branch check gives its error, a non-Draft gives NotDraft; the only other error is an Out line's NegativeStock, never a refused summary write (DuplicateKey) |
| NewTransactionService.CommitTouchesOnlyItsItems | src/HenryTires.Inventory.Application/UseCases/Inventory/NewTransactionService.cs:364-394 | a commit leaves every summary of other branches or items unchanged, and adds only summaries of its own items |
| NewTransactionService.CommitUpdatesEachItemOnce | src/HenryTires.Inventory.Application/UseCases/Inventory/NewTransactionService.cs:364-393 | each item of the transaction is updated once by all its lines: a stored summary moves one version up with the lines applied; a new one is at version 1 holding just those lines; totals match entries |
| NewTransactionService.CommitTwiceFails | src/HenryTires.Inventory.Application/UseCases/Inventory/NewTransactionService.cs:361 | a committed transaction cannot be committed again |
| NewTransactionService.CommitAccessIgnoresTransactionBranch | src/HenryTires.Inventory.Application/UseCases/Inventory/NewTransactionService.cs:357-358 | a non-Admin with a branch is never refused a commit for access, whatever branch the transaction belongs to |
| NewTransactionService.CommitGroupsError | src/HenryTires.Inventory.Application/UseCases/Inventory/NewTransactionService.cs:364-394 | the summary writes fail only with NegativeStock or a refused summary write (DuplicateKey) |
| NewTransactionService.CommitKeepsStockNonNegative | src/HenryTires.Inventory.Application/UseCases/Inventory/NewTransactionService.cs:345-413 | with no negative stock stored and no negative quantity, a commit leaves no negative stock |
| NewTransactionService.CommitGroupsKeepStockNonNegative | src/HenryTires.Inventory.Application/UseCases/Inventory/NewTransactionService.cs:364-394 | the same for the summary writes alone |
| NewTransactionService.CancelSpec | src/HenryTires.Inventory.Application/UseCases/Inventory/NewTransactionService.cs:418-438 | a missing transaction is NotFound; with access, a Draft becomes Cancelled, stamped as modified by the caller with its lines and commit fields kept, a Committed one fails with CancelCommitted and a Cancelled one with AlreadyCancelled |
| NewTransactionService.CancelTransaction | src/HenryTires.Inventory.Application/UseCases/Inventory/NewTransactionService.cs:418-438 | cancelling stores exactly the specification's result, and nothing on error |
| NewTransactionService.CancelThenCommitFails | src/HenryTires.Inventory.Application/UseCases/Inventory/NewTransactionService.cs:418-438 | a cancelled transaction can no longer be committed |
| NewTransactionService.CommitThenCancelFails | src/HenryTires.Inventory.Application/UseCases/Inventory/NewTransactionService.cs:418-438 | a committed transaction cannot be cancelled, and a cancelled one cannot be cancelled again |
| NewTransactionService.GetInventorySummary | src/HenryTires.Inventory.Application/UseCases/Inventory/NewTransactionService.cs:502-510 | uses the strict write check (an Admin without a branch is refused), then returns the summary stored for that branch and item, if any |
| NewTransactionService.SummaryQueryStaysInOwnBranch | src/HenryTires.Inventory.Application/UseCases/Inventory/NewTransactionService.cs:502-510 | a non-Admin only ever sees a summary of their own branch |
| NewTransactionService.Listed | src/HenryTires.Inventory.Application/UseCases/Inventory/NewTransactionService.cs:521-532 | the listing is the stored summaries in the branch scope with the condition filter, in stored order |
| NewTransactionService.GeneralStock | src/HenryTires.Inventory.Application/UseCases/Inventory/NewTransactionService.cs:552-571 | the nested loop gives the New and Used on-hand sums, and total = New + Used |
| NewTransactionService.EntriesStockSplit | src/HenryTires.Inventory.Application/UseCases/Inventory/NewTransactionService.cs:554-565 | a summary's New plus Used stock is the sum of its on-hand quantities |
| NewTransactionService.GeneralStockMatchesOnHandTotals | src/HenryTires.Inventory.Application/UseCases/Inventory/NewTransactionService.cs:545-572 | when every summary's total agrees with its entries, the general stock total is the sum of the summaries' on-hand totals |
| NewTransactionService.GetInventorySummariesByBranch | src/HenryTires.Inventory.Application/UseCases/Inventory/NewTransactionService.cs:514-582 | refused iff the query check refuses; the listed items are the scoped summaries; general stock is present only without a condition filter and then holds the scope's New, Used and total stock |
| SaleService.NatToString | src/HenryTires.Inventory.Application/UseCases/Sales/SaleService.cs:120 | decimal digits only, at least one |
| SaleService.PadLeft | src/HenryTires.Inventory.Application/UseCases/Sales/SaleService.cs:120 | pads to the width, keeping a longer string whole and keeping it all digits |
| SaleService.FormatD7 | src/HenryTires.Inventory.Application/UseCases/Sales/SaleService.cs:120 | the "D7" format: at least seven characters, starting with a minus sign exactly for a negative value |
| SaleService.NatToStringValue | src/HenryTires.Inventory.Application/UseCases/Sales/SaleService.cs:120 | the digits written stand for the number |
| SaleService.FormatD7RoundTrip | src/HenryTires.Inventory.Application/UseCases/Sales/SaleService.cs:120 | reading back a D7-formatted counter value gives the value, negative or not |
| SaleService.FormatD7Width | src/HenryTires.Inventory.Application/UseCases/Sales/SaleService.cs:120 | a counter value below ten million is written with exactly seven characters |
| SaleService.SaleNumber | src/HenryTires.Inventory.Application/UseCases/Sales/SaleService.cs:120 | a sale number starts with the branch code and a dash |
| SaleService.SaleNumbersDistinct | src/HenryTires.Inventory.Application/UseCases/Sales/SaleService.cs:118-120 | different counter values give a branch different sale numbers |
| SaleService.SaleNumberExample | src/HenryTires.Inventory.Application/UseCases/Sales/SaleService.cs:120 | the 25000th sale of branch WARWICK is WARWICK-0025000 |
| SaleService.ToSaleLines | src/HenryTires.Inventory.Application/UseCases/Sales/SaleService.cs:58-73 | one sale line per request line, in order, with a fresh line id and no inventory link |
| SaleService.CheckSaleLine | src/HenryTires.Inventory.Application/UseCases/Sales/SaleService.cs:75-96 | the item is read by id skipping deleted items (ItemRepository.cs:100-104), so the line is NotFound iff every item with its id is deleted or there is none; it passes iff a live item with the id has the line's classification and the line has a condition exactly when it is a Good; otherwise Validation |
| SaleService.GoodsLines | src/HenryTires.Inventory.Application/UseCases/Sales/SaleService.cs:98 | the goods are exactly the lines classified Good |
| SaleService.CheckSaleStock | src/HenryTires.Inventory.Application/UseCases/Sales/SaleService.cs:99-115 | a goods line passes iff it has a condition and the branch has a summary with an entry for it whose OnHand covers the quantity; otherwise Business |
| SaleService.CheckSaleLines | src/HenryTires.Inventory.Application/UseCases/Sales/SaleService.cs:75-96 | the catalogue loop stops at the first failing line |
| SaleService.CheckGoodsStock | src/HenryTires.Inventory.Application/UseCases/Sales/SaleService.cs:98-115 | the stock loop stops at the first failing goods line |
| SaleService.CheckSale | src/HenryTires.Inventory.Application/UseCases/Sales/SaleService.cs:75-115 | the catalogue checks on every line, then the stock checks on the goods |
| SaleService.CreateSale | src/HenryTires.Inventory.Application/UseCases/Sales/SaleService.cs:49-141 | on success the branch's counter advances by one and the sale is stored under its id; on failure neither store changes |
| SaleService.CreateSaleAtBranch | src/HenryTires.Inventory.Application/UseCases/Sales/SaleService.cs:58-141 | the same once the branch is known |
| SaleService.NumberAndStore | src/HenryTires.Inventory.Application/UseCases/Sales/SaleService.cs:117-140 | a failed check is returned with neither store changed; otherwise the counter "sale-{code}" advances by one and the draft numbered from it is stored under its id |
| SaleService.PassingLinesHaveConditions | src/HenryTires.Inventory.Application/UseCases/Sales/SaleService.cs:88-94 | lines that pass the catalogue check have a condition on every goods line |
| SaleService.CreateSaleSucceedsIff | src/HenryTires.Inventory.Application/UseCases/Sales/SaleService.cs:49-141 | creation succeeds iff branch access is granted, the branch is found by code, every line passes the catalogue check and every goods line the stock check; it never fails with InvalidOperation |
| SaleService.CreateSaleShape | src/HenryTires.Inventory.Application/UseCases/Sales/SaleService.cs:118-140 | a created sale is an unposted Draft of the branch found by code, numbered one past the counter's value, created by the caller now, with the request's lines under fresh ids and no inventory link |
| SaleService.CreateAtBranchShape | src/HenryTires.Inventory.Application/UseCases/Sales/SaleService.cs:118-140 | the same at a known branch |
| SaleService.SaleChecksOutcome | src/HenryTires.Inventory.Application/UseCases/Sales/SaleService.cs:75-115 | the checks pass iff every line passes the catalogue check and every goods line the stock check, and never fail with InvalidOperation |
| SaleService.StockChecksOutcome | src/HenryTires.Inventory.Application/UseCases/Sales/SaleService.cs:98-115 | the stock checks pass iff every goods line is in stock; with conditions on all goods lines a failure is Business |
| SaleService.CreatedSaleCanBePosted | src/HenryTires.Inventory.Application/UseCases/Sales/SaleService.cs:118-155 | a sale just created is found, a Draft, its branch found by id and every goods line has a condition |
| SaleService.CreatedSaleReady | src/HenryTires.Inventory.Application/UseCases/Sales/SaleService.cs:58-139 | a created sale is a Draft of a branch that can be found by id, and each of its goods lines has a condition |
| SaleService.SaleCheckIgnoresReserved | src/HenryTires.Inventory.Application/UseCases/Sales/SaleService.cs:107 | with 5 on hand and 3 reserved a line for 4 passes the creation check while the availability check finds only 2 available |
| SaleService.SufficientPassesSaleCheck | src/HenryTires.Inventory.Application/UseCases/Sales/SaleService.cs:107 | with no negative reservations, a line the availability check finds sufficient also passes the creation check |
| SaleService.MoveStock | src/HenryTires.Inventory.Application/UseCases/Sales/SaleService.cs:276-292 | the entry for the condition (added at 0 when missing) moves by the delta and is dated; nothing else changes |
| SaleService.PostLine | src/HenryTires.Inventory.Application/UseCases/Sales/SaleService.cs:242-301 | one line posted: a missing summary is created at version 1 holding the movement; an existing one has the movement applied, its version bumped and its totals recomputed, with no version check and no negative guard |
| SaleService.PostInventoryLines | src/HenryTires.Inventory.Application/UseCases/Sales/SaleService.cs:237-311 | the line loop yields the specified per-line posting, each line written before the next is read |
| SaleService.MovedEntriesOnHand | src/HenryTires.Inventory.Application/UseCases/Sales/SaleService.cs:276-292 | moving an entry changes its condition's OnHand by the delta and no other condition's |
| SaleService.PostedSummaryEffect | src/HenryTires.Inventory.Application/UseCases/Sales/SaleService.cs:242-301 | one posted line moves its condition's stock by the line's delta, leaves other conditions alone, sets the version one past the stored one (1 when new) and keeps the totals equal to the entries |
| SaleService.PostLinesMovesStock | src/HenryTires.Inventory.Application/UseCases/Sales/SaleService.cs:242-301 | stock conservation: under each key at the branch each condition's OnHand moves by exactly the net movement of the lines for it; other keys do not change |
| SaleService.PostLinesCountsVersions | src/HenryTires.Inventory.Application/UseCases/Sales/SaleService.cs:294 | each line bumps its summary's version, so a version grows by the number of lines for its item |
| SaleService.PostLinesKeepsInvariants | src/HenryTires.Inventory.Application/UseCases/Sales/SaleService.cs:242-301 | posting keeps every summary under its own key with totals equal to its entries, and touches no other branch |
| SaleService.PostingCanDriveStockNegative | src/HenryTires.Inventory.Application/UseCases/Sales/SaleService.cs:288-292 | with no negative guard, an Out line for an item with no stock leaves a negative quantity stored |
| SaleService.PostingLine | src/HenryTires.Inventory.Application/UseCases/Sales/SaleService.cs:173-192 | an inventory line exists iff the goods line has a condition (InvalidOperation otherwise), and it copies item, condition, quantity and price |
| SaleService.PostingLinesMirror | src/HenryTires.Inventory.Application/UseCases/Sales/SaleService.cs:173-192 | building succeeds iff every goods line has a condition, and the lines mirror the goods one for one, priced by the sale |
| SaleService.PostingLinesTotal | src/HenryTires.Inventory.Application/UseCases/Sales/SaleService.cs:173-192 | the inventory lines posted for the goods lines carry their line totals (SaleLine.cs:16), so their sum, the transaction's total amount (InventoryTransaction.cs:46-49), is the goods lines' sale total |
| SaleService.SumTotalsOfCopiedLines | src/HenryTires.Inventory.Domain/Entities/InventoryTransaction.cs:46-49 | lines that each copy a sale line's total sum to the sale lines' total |
| SaleService.BuildPostingLines | src/HenryTires.Inventory.Application/UseCases/Sales/SaleService.cs:173-192 | the line loop yields the specified lines |
| SaleService.LinkGoods | src/HenryTires.Inventory.Application/UseCases/Sales/SaleService.cs:213-216 | goods lines are linked to the transaction; service lines are unchanged |
| SaleService.LinkGoodsLines | src/HenryTires.Inventory.Application/UseCases/Sales/SaleService.cs:213-216 | the link loop yields exactly that |
| SaleService.PostGoods | src/HenryTires.Inventory.Application/UseCases/Sales/SaleService.cs:194-216 | the posted summaries are stored and the committed transaction replaces the draft |
| SaleService.PostSale | src/HenryTires.Inventory.Application/UseCases/Sales/SaleService.cs:144-235 | on success the sale is stored posted, the summaries are the posted ones and, for a sale with goods, the committed transaction is stored; on failure nothing changes |
| SaleService.PostDraftSale | src/HenryTires.Inventory.Application/UseCases/Sales/SaleService.cs:162-235 | once the sale is found as a Draft of a known branch: the same outcome for its goods and the sale |
| SaleService.MirrorsMovement | src/HenryTires.Inventory.Application/UseCases/Sales/SaleService.cs:242-291 | mirroring lines posted Out move each (item, condition) by minus what the goods sell of it, and count the goods lines per item |
| SaleService.GoodsLinesHaveConditions | src/HenryTires.Inventory.Application/UseCases/Sales/SaleService.cs:162-164 | every Good line has a condition iff every goods line does |
| SaleService.PostSaleSucceedsIff | src/HenryTires.Inventory.Application/UseCases/Sales/SaleService.cs:144-168 | posting succeeds iff the sale is stored and still a Draft, its branch is found and every goods line has a condition; the stock is not consulted; a missing sale or branch is NotFound and a non-Draft sale Business |
| SaleService.PostSaleMarksPosted | src/HenryTires.Inventory.Application/UseCases/Sales/SaleService.cs:213-223 | the sale becomes Committed, posted and modified by the caller now, with identity, number, branch and date kept; goods lines are linked and service lines kept |
| SaleService.PostDraftPosts | src/HenryTires.Inventory.Application/UseCases/Sales/SaleService.cs:162-223 | the posted sale is the read sale with its goods lines linked, marked posted by the caller now, with or without goods |
| SaleService.PostSaleRecordsTransaction | src/HenryTires.Inventory.Application/UseCases/Sales/SaleService.cs:162-216 | there is a transaction exactly when the sale has goods: an Out transaction of the sale's branch, committed by the caller now, dated the sale's date, noted "Sale: {number}", one line per goods line; without goods no summary changes |
| SaleService.CommittedSaleTransaction | src/HenryTires.Inventory.Application/UseCases/Sales/SaleService.cs:170-204 | the committed transaction over lines mirroring the goods is an Out of the branch, committed by the caller now, dated and noted from the sale, one sale-priced line per goods line |
| SaleService.PostSaleMovesStock | src/HenryTires.Inventory.Application/UseCases/Sales/SaleService.cs:207-301 | at the sale's branch each condition's OnHand drops by exactly what the goods sell of it and versions grow by the number of goods lines per item; other branches are unchanged |
| SaleService.PostSaleTwiceFails | src/HenryTires.Inventory.Application/UseCases/Sales/SaleService.cs:154-155 | a posted, stored sale cannot be posted again: Business, and nothing changes |
| PriceManagementService.FirstPrice | src/HenryTires.Inventory.Application/UseCases/Inventory/PriceManagementService.cs:56-69 | a first reference price has an empty history and the item's code and new price |
| PriceManagementService.UpdateItemPrice | src/HenryTires.Inventory.Application/UseCases/Inventory/PriceManagementService.cs:33-81 | on success the record under the item's code is the specified one; on failure the price store does not change |
| PriceManagementService.UpdateItemPriceSucceedsIff | src/HenryTires.Inventory.Application/UseCases/Inventory/PriceManagementService.cs:38-52 | a price update succeeds iff the item is stored, not deleted and the new price positive; an unknown item is NotFound, every other refusal Validation |
| PriceManagementService.UpdateItemPriceRecords | src/HenryTires.Inventory.Application/UseCases/Inventory/PriceManagementService.cs:54-78 | the new price, date, author and currency become the latest; a first price starts an empty history under a new id; otherwise the id is kept and the history gains exactly the replaced price, earlier entries in place |
| PriceManagementService.SuccessiveUpdatesAppend | src/HenryTires.Inventory.Application/UseCases/Inventory/PriceManagementService.cs:71-78 | two successive updates append the two replaced prices oldest first and leave the second price latest |
| ItemManagementService.CreateItemAsWrittenDuplicatesCode | src/HenryTires.Inventory.Application/UseCases/Inventory/ItemManagementService.cs:43-79 | as written, with a lookup by code that skips deleted items, creating over a soft-deleted code takes the create path, whose insert the unique code index (ItemRepository.cs:15-18) refuses with DuplicateKey; nothing is written, the deleted item stays deleted and the revive path is never reached |
| ItemManagementService.CreateItemRevives | src/HenryTires.Inventory.Application/UseCases/Inventory/ItemManagementService.cs:49-62 | creating over a soft-deleted item revives it in place: same id, place and creation stamp, the request's description, classification and notes, undeleted, no item added and no price written |
| ItemManagementService.CreateItemSucceedsIff | src/HenryTires.Inventory.Application/UseCases/Inventory/ItemManagementService.cs:34-47 | creating succeeds iff the classification parses and no live item holds the code; every refusal is Validation and writes nothing |
| ItemManagementService.CreateItemAppends | src/HenryTires.Inventory.Application/UseCases/Inventory/ItemManagementService.cs:64-95 | a new code appends one active, undeleted item stamped with the caller and time; a first price with an empty history in the request's currency (USD by default) is stored exactly when a positive initial price is given |
| ItemManagementService.CodesSurvive | src/HenryTires.Inventory.Application/UseCases/Inventory/ItemManagementService.cs:64-79 | appending an item keeps every code findable and makes the new one findable |
| ItemManagementService.CreateItemKeepsCatalogueValid | src/HenryTires.Inventory.Application/UseCases/Inventory/ItemManagementService.cs:34-98 | creation keeps item codes distinct and every price stored under its own item's code |
| ItemManagementService.CreateItem | src/HenryTires.Inventory.Application/UseCases/Inventory/ItemManagementService.cs:34-98 | the item and price stores become what the specified creation says |
| ItemManagementService.UpdateItem | src/HenryTires.Inventory.Application/UseCases/Inventory/ItemManagementService.cs:100-120 | the result is the specified update and the item is replaced in place; on failure nothing changes |
| ItemManagementService.DeleteItem | src/HenryTires.Inventory.Application/UseCases/Inventory/ItemManagementService.cs:122-142 | the result is the specified soft delete and the item is replaced in place; on failure nothing changes |
| ItemManagementService.UpdateItemOutcome | src/HenryTires.Inventory.Application/UseCases/Inventory/ItemManagementService.cs:100-120 | an unknown code is NotFound, a deleted item Validation; otherwise only the description and the modification stamp change |
| ItemManagementService.DeleteItemOutcome | src/HenryTires.Inventory.Application/UseCases/Inventory/ItemManagementService.cs:122-142 | an unknown code is NotFound, an already deleted item Validation; otherwise only the deletion and modification stamps change, after which deleting, updating and repricing the item are all refused with Validation |
| UserService.CreateUser | src/HenryTires.Inventory.Application/UseCases/Users/UserService.cs:62-104 | the result is the specified new account, appended on success; on failure the users do not change |
| UserService.CreateUserSucceedsIff | src/HenryTires.Inventory.Application/UseCases/Users/UserService.cs:62-90 | creating succeeds iff the role parses, the username is unused, a Seller or StoreSeller gets a non-empty branch id and any given branch id is a stored branch; every refusal is Validation |
| UserService.CreateUserShape | src/HenryTires.Inventory.Application/UseCases/Users/UserService.cs:90-104 | a created account has the new id, requested name, role and activity, the hashed password and the caller and time as creator; only a branch-bound role keeps a branch; usernames stay unique |
| UserService.UpdateUser | src/HenryTires.Inventory.Application/UseCases/Users/UserService.cs:106-175 | the result is the specified update, replacing the account in place; on failure nothing changes |
| UserService.UpdateUserOutcome | src/HenryTires.Inventory.Application/UseCases/Users/UserService.cs:106-175 | an unknown id is NotFound, every other refusal Validation; an update keeps id and creation stamp, and sets the name, password, role and activity to what was sent, keeping them when nothing is sent; a branch-bound role takes the branch id sent, known when not empty, or keeps its existing non-empty one when none is sent; any other role loses its branch |
| UserService.UpdateUserSucceedsIff | src/HenryTires.Inventory.Application/UseCases/Users/UserService.cs:106-162 | updating a stored user succeeds exactly when a new name sent is free or the user's own, the role sent parses, and a branch-bound result role gets an empty or known branch id or already has a non-empty one; every refusal is Validation |
| UserService.UpdateUserKeepsUsernamesUnique | src/HenryTires.Inventory.Application/UseCases/Users/UserService.cs:114-122 | an update keeps usernames unique |
| UserService.UpdateUserKeepsRoleBranch | src/HenryTires.Inventory.Application/UseCases/Users/UserService.cs:138-162 | an account whose branch agrees with its role still agrees after an update that does not send an empty branch id |
| UserService.UpdateUserCanEmptySellerBranch | src/HenryTires.Inventory.Application/UseCases/Users/UserService.cs:140-152 | sending an empty branch id for a Seller stores a Seller without a branch, which creating a Seller refuses |
| UserService.DeleteUser | src/HenryTires.Inventory.Application/UseCases/Users/UserService.cs:177-191 | the result is the specified deletion, removing the account; on failure nothing changes |
| UserService.DeleteUserOutcome | src/HenryTires.Inventory.Application/UseCases/Users/UserService.cs:177-191 | deleting succeeds iff the id is stored and is not the caller's own account (Business); afterwards the id is gone, every other account remains and there is one account fewer |
| UserService.ToggleUserStatus | src/HenryTires.Inventory.Application/UseCases/Users/UserService.cs:193-213 | the result is the specified toggle, replacing the account in place; on failure nothing changes |
| UserService.ToggleUserStatusTwice | src/HenryTires.Inventory.Application/UseCases/Users/UserService.cs:193-213 | toggling flips the activity of another user's account and changes nothing else but the modification stamp; toggling twice restores it; the caller's own account is refused with Business |
| ReportService.ReportBranch | src/HenryTires.Inventory.Application/UseCases/Reports/ReportService.cs:58-69 | the report is for a stored branch with the requested id, or for every branch exactly when the id is empty or names no branch |
| ReportService.SummariesOfBranch | src/HenryTires.Inventory.Application/UseCases/Reports/ReportService.cs:73-79 | the summaries read are exactly those of the branch, or all of them when no branch is named |
| ReportService.GoodItemByCode | src/HenryTires.Inventory.Application/UseCases/Reports/ReportService.cs:83-93 | a good found by code is one of the goods and has that code |
| ReportService.SummaryRows | src/HenryTires.Inventory.Application/UseCases/Reports/ReportService.cs:95-107 | one row per entry of a summary, in order |
| ReportService.RowLeTotalPreorder | src/HenryTires.Inventory.Application/UseCases/Reports/ReportService.cs:132 | ordering rows by item code, then condition, is a total preorder, so sorting by it is well defined |
| ReportService.BuildRowsSound | src/HenryTires.Inventory.Application/UseCases/Reports/ReportService.cs:87-108 | every row built is the row of an entry of a summary whose item is a good |
| ReportService.BuildRowsComplete | src/HenryTires.Inventory.Application/UseCases/Reports/ReportService.cs:87-108 | every entry of a summary whose item is a good has its row |
| ReportService.BuildRowsCount | src/HenryTires.Inventory.Application/UseCases/Reports/ReportService.cs:87-108 | there are as many rows as entries of the summaries whose item is a good |
| ReportService.BuildRowsSum | src/HenryTires.Inventory.Application/UseCases/Reports/ReportService.cs:87-108 | a row figure summed over the rows is the entry figure it shows summed over the goods' stock entries |
| ReportService.TotalsOfStock | src/HenryTires.Inventory.Application/UseCases/Reports/ReportService.cs:110-125 | the on hand and reserved totals, overall and for New and for Used, are those figures of the goods' stock entries of that condition |
| ReportService.SplitByCondition | src/HenryTires.Inventory.Application/UseCases/Reports/ReportService.cs:111-124 | over rows that are New or Used, a total is the New total plus the Used total |
| ReportService.AvailableSum | src/HenryTires.Inventory.Application/UseCases/Reports/ReportService.cs:97-124 | summed available is summed on hand less summed reserved |
| ReportService.StockReportRows | src/HenryTires.Inventory.Application/UseCases/Reports/ReportService.cs:56-134 | every row is an entry of a summary of the report's branch (any branch when none is known) whose item is a live good, with that good's description and available = on hand - reserved; every such entry has its row; there is one row per such entry, so equal rows of two branches both appear; rows are ordered by code, then condition; the report fails only when two live goods share a code |
| ReportService.SortedRowListed | src/HenryTires.Inventory.Application/UseCases/Reports/ReportService.cs:87-132 | a row is listed exactly when it is an entry row of the summaries, and it is well formed |
| ReportService.RowTotals | src/HenryTires.Inventory.Application/UseCases/Reports/ReportService.cs:110-125 | the New and Used totals add up to the totals, available totals are on hand less reserved, and totals do not depend on row order |
| ReportService.StockReportTotalsAdd | src/HenryTires.Inventory.Application/UseCases/Reports/ReportService.cs:110-132 | the report's totals are the sums over the rows shown, split into New plus Used, with available = on hand - reserved at every level; each on hand and reserved total is that figure of the stock entries of goods in the report's scope |
| ReportService.InvoiceTotalsBounds | src/HenryTires.Inventory.Application/UseCases/Reports/ReportService.cs:307-328 | with no negative line total, both bases lie between 0 and the subtotal, the grand total between the subtotal and 108% of it, and all of it is due |
| ReportService.InvoiceTotalsFlags | src/HenryTires.Inventory.Application/UseCases/Reports/ReportService.cs:307-328 | lines all taxed and charged the fee total 108% of the subtotal; lines with neither total the subtotal |
| ReportService.InvoiceTotalsAdditive | src/HenryTires.Inventory.Application/UseCases/Reports/ReportService.cs:307-328 | the subtotal, bases, tax, fee and grand total of an invoice are the sums over any split of its lines |
| ReportService.SaleInvoiceLines | src/HenryTires.Inventory.Application/UseCases/Reports/ReportService.cs:150-161 | one invoice line per sale line, in order |
| ReportService.SaleInvoiceSubtotal | src/HenryTires.Inventory.Application/UseCases/Reports/ReportService.cs:150-163 | the invoice subtotal is the sum of the sale's line totals |
| ReportService.SaleInvoiceOutcome | src/HenryTires.Inventory.Application/UseCases/Reports/ReportService.cs:137-184 | a sale invoice exists iff the sale and its branch do (InvalidOperation otherwise); one line per sale line; since a stored sale keeps no payment method it reads "Cash"; under the model's assumption that a line read back has both flags set (see Left out) it totals 108% of the subtotal, all due |
| ReportService.TransactionInvoiceLines | src/HenryTires.Inventory.Application/UseCases/Reports/ReportService.cs:199-210 | one invoice line per transaction line, in order, the item code standing in as description |
| ReportService.TransactionInvoiceOutcome | src/HenryTires.Inventory.Application/UseCases/Reports/ReportService.cs:186-233 | a transaction invoice exists iff the transaction and the branch with its code do (InvalidOperation otherwise); it has no customer, reads "N/A" without a payment method, and its totals are its lines' with their own flags |
| ReportService.ParseTransactionType | src/HenryTires.Inventory.Application/UseCases/Reports/ReportService.cs:244-246 | a type filter is the type whose name is given, and no filter when the text names none |
| ReportService.ParseTransactionStatus | src/HenryTires.Inventory.Application/UseCases/Reports/ReportService.cs:248-250 | a status filter is the status whose name is given, and no filter when the text names none |
| ReportService.MatchingCount | src/HenryTires.Inventory.Infrastructure/Repositories/InventoryTransactionRepository.cs:26-64 | the search finds one record per matching stored record |
| ReportService.SearchTransactionsMembers | src/HenryTires.Inventory.Infrastructure/Repositories/InventoryTransactionRepository.cs:26-64 | a search returns exactly the transactions of the branch, created in the period, of the type and status asked for |
| ReportService.MovementLeTotalPreorder | src/HenryTires.Inventory.Application/UseCases/Reports/ReportService.cs:302 | ordering movements by date, then number, is a total preorder |
| ReportService.Movements | src/HenryTires.Inventory.Application/UseCases/Reports/ReportService.cs:273-291 | one movement per transaction found, in order |
| ReportService.MovementsOutcome | src/HenryTires.Inventory.Application/UseCases/Reports/ReportService.cs:235-305 | the movements report lists exactly the matching transactions, unparsable filters dropped, ordered by date then number, with the count of those listed, which is the number of matching stored transactions |
| ReportService.MovementsListed | src/HenryTires.Inventory.Application/UseCases/Reports/ReportService.cs:261-291 | the movements of a search are exactly those of the matching transactions |
| DashboardService.QueryScopeAsWritten | src/HenryTires.Inventory.Application/UseCases/Dashboard/DashboardService.cs:315-335 | as written: an Admin reads the branch asked for (none meaning every branch); anyone else reads their branch id, and asking for a branch other than that id, or having no branch id, is UnauthorizedAccess |
| DashboardService.QueryScope | src/HenryTires.Inventory.Application/UseCases/Dashboard/DashboardService.cs:315-335 | the branch check corrected (Findings row 2): an Admin reads the branch asked for (none meaning every branch); anyone else reads their own branch code, and asking for another branch or having none is UnauthorizedAccess |
| DashboardService.SalesInPeriod | src/HenryTires.Inventory.Infrastructure/Repositories/SaleRepository.cs:38-68 | the sale search returns exactly the sales of the branch id (all when none) dated in the period |
| DashboardService.SummaryFigures | src/HenryTires.Inventory.Application/UseCases/Dashboard/DashboardService.cs:111-170 | net is sales less purchases; sales count the sales and Out transactions, purchases the In transactions, and the total both; with no negative amounts today's figures lie between 0 and the period's |
| DashboardService.SummaryIgnoresAdjust | src/HenryTires.Inventory.Application/UseCases/Dashboard/DashboardService.cs:118-164 | an Adjust transaction changes no total and no count |
| DashboardService.SaleBranchKey | src/HenryTires.Inventory.Application/UseCases/Dashboard/DashboardService.cs:181 | the sale key corrected (Findings row 3): a sale whose branch id names a stored branch is grouped under that branch's code |
| DashboardService.BreakdownRowsOfKeys | src/HenryTires.Inventory.Application/UseCases/Dashboard/DashboardService.cs:185-231 | every breakdown row is the row of one of the keys, and every key has a row |
| DashboardService.BreakdownOrdered | src/HenryTires.Inventory.Application/UseCases/Dashboard/DashboardService.cs:233 | the breakdown is ordered by sales total, highest first, with one row per key |
| DashboardService.BreakdownKeysDistinct | src/HenryTires.Inventory.Application/UseCases/Dashboard/DashboardService.cs:185-188 | no two rows of the breakdown have the same key |
| DashboardService.BreakdownRowFigures | src/HenryTires.Inventory.Application/UseCases/Dashboard/DashboardService.cs:194-229 | each row adds up its key's sales and transactions, and its net is sales less purchases |
| DashboardService.BreakdownCoversGroups | src/HenryTires.Inventory.Application/UseCases/Dashboard/DashboardService.cs:181-192 | every sale's key and every transaction's branch code has a row, and every row's key is one of them |
| DashboardService.BreakdownOneRowPerBranch | src/HenryTires.Inventory.Application/UseCases/Dashboard/DashboardService.cs:178-231 | when every sale's branch id and transaction's code name stored branches, every row is a stored branch's code, named after that branch, and no branch has two rows |
| DashboardService.RecentActivityTop | src/HenryTires.Inventory.Application/UseCases/Dashboard/DashboardService.cs:244-295 | recent activity shows the ten newest of the sales and In transactions (all of them when fewer), newest first; any not shown is no newer than every shown item |
| DashboardService.DashboardOutcome | src/HenryTires.Inventory.Application/UseCases/Dashboard/DashboardService.cs:31-109 | with the branch check and the breakdown corrected (Findings rows 2-3), the dashboard is refused iff the period ends before it starts or two branches share a code (InvalidArgument), or the branch check fails (UnauthorizedAccess); otherwise it covers the period and its figures are those of the scope's committed sales and transactions |
| DashboardService.ScopedSalesMembers | src/HenryTires.Inventory.Application/UseCases/Dashboard/DashboardService.cs:61-78 | the sales counted are exactly the committed sales dated in the period and, when the scope names a known branch, of that branch's id; newest first |
| DashboardService.DashboardStaysInBranch | src/HenryTires.Inventory.Application/UseCases/Dashboard/DashboardService.cs:43-78 | a non-Admin's dashboard counts only committed transactions with their branch code and committed sales of the branch with that code, all in the period |
| DashboardService.ExampleScopedAsWritten | src/HenryTires.Inventory.Application/UseCases/Dashboard/DashboardService.cs:47-76 | scoped by branch id "b1" as written, the branch's own Out transaction (code "BR1") is not counted, while another branch's sale is |
| DashboardService.ExampleScoped | src/HenryTires.Inventory.Application/UseCases/Dashboard/DashboardService.cs:47-76 | scoped by the branch code "BR1", the branch's own transaction is counted and the other branch's sale is not |
| DashboardService.DashboardAsWrittenCrossesBranches | src/HenryTires.Inventory.Application/UseCases/Dashboard/DashboardService.cs:315-335 | with the branch check as written, a non-Admin whose branch id is not a branch code is refused their own branch code, and asking for no branch counts none of their branch's transactions and every committed sale of the period |
| DashboardService.CalculateBranchBreakdownAsWritten | src/HenryTires.Inventory.Application/UseCases/Dashboard/DashboardService.cs:178-233 | as written: every sale's branch id and every transaction's branch code has a row, every row's key is one of them, highest sales first |
| DashboardService.DashboardForAsWritten | src/HenryTires.Inventory.Application/UseCases/Dashboard/DashboardService.cs:43-108 | as written, the dashboard's summary and recent activity are those of the corrected one, and its breakdown is the as-written breakdown of the scope's committed sales and transactions |
| DashboardService.DashboardAsWrittenOutcome | src/HenryTires.Inventory.Application/UseCases/Dashboard/DashboardService.cs:31-109 | GetDashboardDataAsync as written is refused iff the period ends before it starts or two branches share a code (InvalidArgument), or the as-written branch check fails (UnauthorizedAccess); otherwise its figures are those of that check's scope and its breakdown groups sales by branch id |
| DashboardService.BreakdownAsWrittenSplitsBranch | src/HenryTires.Inventory.Application/UseCases/Dashboard/DashboardService.cs:181-222 | as written, a branch with a sale and a transaction in the period gets two rows, one keyed and named by its id and one by its code |

## Left out

- HTTP controllers, start-up and dependency registration: routing and wiring only.
- The MongoDB driver: regex search filters and paging (skip and limit); its duplicate-key errors are modelled only for the summary upsert and for item creation as written. Stores are in-memory maps and sequences, and queries return every match.
- Cross-document atomicity and rollback: a transaction scope is a staged copy of the summaries, written back only when the whole commit succeeds.
- Concurrent interleavings: the version-checked summary write is one step. Two writers racing on one summary are described by `Repositories.SecondWriterLoses`.
- Repositories.UpsertWithVersionCheck: on a version mismatch the write is refused as the duplicate-key error of the upsert's insert; the `ConcurrencyException` after the replace (InventorySummaryRepository.cs:177-183) is never reached, and a write conflict raised by the database transaction itself is not modelled.
- Identity, clock and hashing: generated ids, the current time, the day stamp and random token of a transaction number, and the password hash are all parameters.
- C# `decimal` rounding to 28 digits and 32-bit integer overflow: money is `real` and quantities are unbounded `int`.
- Culture-sensitive string comparison in the report orderings: `Sequences.StringLe` compares characters ordinally.
- Enumeration parsing (`Enum.TryParse`, case-insensitive for roles and classifications): requests arrive with the value parsed, or marked unparsable. The report filters (`ReportService.ParseTransactionType`, `ReportService.ParseTransactionStatus`) accept the exact names only; the numeric strings, padded names and comma lists `Enum.TryParse` also accepts (ReportService.cs:245, :249) are read as no filter.
- Malformed ids: ids are arbitrary strings assumed well-formed. The base repository builds an `ObjectId` from the id when the collection is keyed by `_id` (CrudRepository.cs:47, :69, :90), so an id that is not 24 hex digits makes the branch, transaction, sale, user and price lookups by id throw `FormatException`; the model answers such an id as absent (NotFound or InvalidOperation, as each service does for a missing document).
- PDF and Excel rendering of invoices and reports, the company details printed on invoices, and the dashboard's relative-time text (floating-point `TimeSpan` arithmetic).
- The legacy inventory balance model, which no transaction or sale flow uses.
- Read-only lookups that only fetch and project: fetching a transaction by id, listing a branch's transactions, the sale queries (by id, by branch and period, by period, search, count), the price lookups, the user list and lookup, and the item lookups, search and listing.
- The soft-delete filter of the item lookup by code (ItemRepository.cs:24): the item store answers with deleted items too, so the revive path of item creation is reachable (see Findings). A deleted item's code therefore meets the services' own deleted-item tests, a Validation error (NewTransactionService.cs:71-74, 189-192, 270-273; PriceManagementService.cs:44-47; ItemManagementService.cs:108-111, 130-133), where the filter would make it NotFound. The lookup by id keeps its filter (ItemRepository.cs:100-104): a sale line for a deleted item is NotFound.
- `NewTransactionService.ResolveInPrice` also stands for the Adjust price resolution, whose body is the same.
- Type drift in the sale line's tax and shop-fee flags: the entity (SaleLine.cs) and the request (SalesDtos.cs:49-59) declare no `IsTaxable` or `AppliesShopFee`, yet SaleService.cs:70-71 and ReportService.cs:159-160 read both, and the sale document and its mapper have neither. The model adds both flags to the sale line and its request, and reads a stored line back with both true, an assumption of its own and not mapper behaviour.
- SaleMapper.EntityRoundTripExactWhen: its flag half (every line taxable and with the shop fee) holds only under the assumption that a stored line reads back with both flags true; the source gives the flags no stored value at all.
- ReportService.SaleInvoiceOutcome: its 108% grand total holds only under the assumption that a stored line reads back with both flags true; with the flags the source leaves undeclared, the tax and fee of a sale invoice are not determined by the stored sale.
- `Dictionary` construction from branch codes throws on a duplicate key. The dashboard models this as InvalidArgument, and the stock report likewise when two live goods share a code.
- Recent activity shows a sale's branch id where a branch code is expected, as the code does.
- DashboardService.DashboardStaysInBranch: requires the branch id to be non-empty, as generated ids are.
- Type drift between layers is normalised: one `Currency` datatype (USD, DOP) everywhere, and the sale request carries the branch code and payment method.

## Findings

| source | as written | input that shows it | evidently intended | confidence | as-written member | corrected member |
|---|---|---|---|---|---|---|
| src/HenryTires.Inventory.Infrastructure/Repositories/ItemRepository.cs:24 | the lookup by code skips soft-deleted items, so creating an item over a soft-deleted code takes the create path; the unique code index refuses its insert with a duplicate-key error, and the revive path is never reached | a stored item "T1" that is soft-deleted; create item "T1" as a Good | the revive path of ItemManagementService.cs:49-62 restores the deleted item in place | not executed | ItemManagementService.CreateItemAsWrittenDuplicatesCode | ItemManagementService.CreateItemRevives |
| src/HenryTires.Inventory.Application/UseCases/Dashboard/DashboardService.cs:315-335 | a non-Admin's dashboard scope is their branch id, which is then matched against transaction branch codes and looked up as a branch code | a Seller with branch id "b1" and branch code "BR1", branch ("b1", "BR1"), one committed Out transaction of "BR1" and a committed sale of another branch | the scope is the user's branch code, so the dashboard counts exactly that branch's sales and transactions | not executed | DashboardService.DashboardAsWrittenCrossesBranches | DashboardService.DashboardStaysInBranch |
| src/HenryTires.Inventory.Application/UseCases/Dashboard/DashboardService.cs:181-188 | the breakdown groups sales by branch id and transactions by branch code, and shows both keys as a branch code | branch ("b1", "BR1") with one sale and one transaction in the period | one breakdown row per branch, keyed by its code | not executed | DashboardService.BreakdownAsWrittenSplitsBranch | DashboardService.BreakdownOneRowPerBranch |
