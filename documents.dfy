/**
 * The persisted shapes of the core aggregates, field for field as they are
 * stored in the document database.  Sale documents have no payment method,
 * and sale line documents have neither a line total nor tax and fee flags.
 */
module Documents {
  import opened Common

  datatype InventoryEntryDocument = InventoryEntryDocument(
    condition: ItemCondition,
    onHand: int,
    reserved: int,
    latestEntryDateUtc: Instant)

  datatype InventorySummaryDocument = InventorySummaryDocument(
    id: string,
    branchCode: string,
    itemCode: string,
    entries: seq<InventoryEntryDocument>,
    onHandTotal: int,
    reservedTotal: int,
    version: int,
    updatedAtUtc: Instant)

  datatype InventoryTransactionLineDocument = InventoryTransactionLineDocument(
    lineId: string,
    itemId: string,
    itemCode: string,
    condition: ItemCondition,
    quantity: int,
    unitPrice: real,
    currency: Currency,
    isTaxable: bool,
    appliesShopFee: bool,
    priceSource: PriceSource,
    priceSetByRole: string,
    priceSetByUser: string,
    lineTotal: real,
    costOfGoodsSold: Option<real>,
    priceNotes: Option<string>,
    executedAtUtc: Instant)

  datatype InventoryTransactionDocument = InventoryTransactionDocument(
    id: string,
    transactionNumber: string,
    branchCode: string,
    transactionType: TransactionType,
    status: TransactionStatus,
    transactionDateUtc: Instant,
    notes: Option<string>,
    paymentMethod: Option<PaymentMethod>,
    committedAtUtc: Option<Instant>,
    committedBy: Option<string>,
    lines: seq<InventoryTransactionLineDocument>,
    createdAtUtc: Instant,
    createdBy: string,
    modifiedAtUtc: Option<Instant>,
    modifiedBy: Option<string>)

  datatype SaleLineDocument = SaleLineDocument(
    lineId: Option<string>,
    itemId: string,
    itemCode: string,
    description: string,
    classification: Classification,
    condition: Option<ItemCondition>,
    quantity: int,
    unitPrice: real,
    currency: Currency,
    inventoryTransactionId: Option<string>)

  datatype SaleDocument = SaleDocument(
    id: string,
    saleNumber: string,
    branchId: string,
    saleDateUtc: Instant,
    lines: seq<SaleLineDocument>,
    customerName: Option<string>,
    customerPhone: Option<string>,
    notes: Option<string>,
    status: TransactionStatus,
    postedAtUtc: Option<Instant>,
    postedBy: Option<string>,
    createdAtUtc: Instant,
    createdBy: string,
    modifiedAtUtc: Option<Instant>,
    modifiedBy: Option<string>)

  datatype PriceHistoryEntryDocument = PriceHistoryEntryDocument(
    price: real,
    dateUtc: Instant,
    updatedBy: string)

  datatype ConsumableItemPriceDocument = ConsumableItemPriceDocument(
    id: string,
    itemCode: string,
    currency: Currency,
    latestPrice: real,
    latestPriceDateUtc: Instant,
    updatedBy: string,
    history: seq<PriceHistoryEntryDocument>)
}
