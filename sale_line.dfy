/**
 * Lines of a sale.  A line sells an item of a classification; goods carry a
 * condition, services do not.  The line total is derived from quantity and
 * price, and a line is linked to the inventory transaction that moved its
 * stock once the sale is posted.  The tax and shop-fee flags are not
 * declared by the entity, but the sale and report services read them, so
 * the model adds them.
 */
module SaleLines {
  import opened Common

  datatype SaleLine = SaleLine(
    lineId: Option<string>,
    itemId: string,
    itemCode: string,
    description: string,
    classification: Classification,
    condition: Option<ItemCondition>,
    quantity: int,
    unitPrice: real,
    currency: Currency,
    isTaxable: bool,
    appliesShopFee: bool,
    inventoryTransactionId: Option<string>)
  {
    /** Derived, read-only: quantity times unit price. */
    function LineTotal(): (total: real)
      ensures quantity == 0 ==> total == 0.0
      ensures quantity >= 0 && unitPrice >= 0.0 ==> total >= 0.0
    {
      quantity as real * unitPrice
    }
  }

  /** A freshly built sale line: no inventory transaction link yet. */
  function NewSaleLine(
    lineId: Option<string>, itemId: string, itemCode: string, description: string,
    classification: Classification, condition: Option<ItemCondition>, quantity: int,
    unitPrice: real, currency: Currency, isTaxable: bool, appliesShopFee: bool): (line: SaleLine)
    ensures line.inventoryTransactionId.None?
    ensures line.classification == classification && line.condition == condition
    ensures line.LineTotal() == quantity as real * unitPrice
  {
    SaleLine(lineId, itemId, itemCode, description, classification, condition, quantity,
             unitPrice, currency, isTaxable, appliesShopFee, None)
  }

  /** Sum of the derived line totals. */
  function SumSaleLineTotals(lines: seq<SaleLine>): real
  {
    if |lines| == 0 then 0.0 else SumSaleLineTotals(lines[..|lines| - 1]) + lines[|lines| - 1].LineTotal()
  }
}
