/**
 * One line of an inventory transaction: an item, a condition, a quantity and
 * the price recorded for it.  The line total is fixed when the line is built.
 */
module TransactionLines {
  import opened Common

  datatype InventoryTransactionLine = InventoryTransactionLine(
    lineId: string,
    itemId: string,
    itemCode: string,
    condition: ItemCondition,
    quantity: int,
    unitPrice: real,
    currency: Currency,
    isTaxable: bool,
    appliesShopFee: bool,
    priceSource: PriceSource,
    priceSetByRole: string,
    priceSetByUser: string,
    lineTotal: real,
    costOfGoodsSold: Option<real>,
    priceNotes: Option<string>,
    executedAtUtc: Instant)

  /** Quantity times unit price. */
  function CalculateLineTotal(quantity: int, unitPrice: real): (total: real)
    ensures quantity == 0 || unitPrice == 0.0 ==> total == 0.0
    ensures quantity >= 0 && unitPrice >= 0.0 ==> total >= 0.0
    ensures quantity == 1 ==> total == unitPrice
  {
    quantity as real * unitPrice
  }

  /**
   * A line built by an object initialiser that sets neither the tax and fee
   * flags nor the optional cost and notes: the flags default to true and the
   * optional fields are absent.
   */
  function NewLine(
    lineId: string, itemId: string, itemCode: string, condition: ItemCondition,
    quantity: int, unitPrice: real, currency: Currency, priceSource: PriceSource,
    priceSetByRole: string, priceSetByUser: string, lineTotal: real,
    executedAtUtc: Instant): (line: InventoryTransactionLine)
    ensures line.isTaxable && line.appliesShopFee
    ensures line.costOfGoodsSold.None? && line.priceNotes.None?
    ensures line.itemCode == itemCode && line.condition == condition
    ensures line.quantity == quantity && line.unitPrice == unitPrice && line.lineTotal == lineTotal
  {
    InventoryTransactionLine(
      lineId, itemId, itemCode, condition, quantity, unitPrice, currency,
      true, true, priceSource, priceSetByRole, priceSetByUser, lineTotal,
      None, None, executedAtUtc)
  }

  /** Sum of the line totals (LINQ Sum over LineTotal). */
  function SumLineTotals(lines: seq<InventoryTransactionLine>): real
  {
    if |lines| == 0 then 0.0 else SumLineTotals(lines[..|lines| - 1]) + lines[|lines| - 1].lineTotal
  }

  lemma {:induction false} SumLineTotalsAppend(a: seq<InventoryTransactionLine>, b: seq<InventoryTransactionLine>)
    ensures SumLineTotals(a + b) == SumLineTotals(a) + SumLineTotals(b)
    decreases |b|
  {
    if |b| == 0 {
      assert a + b == a;
    } else {
      assert (a + b)[..|a + b| - 1] == a + b[..|b| - 1];
      SumLineTotalsAppend(a, b[..|b| - 1]);
    }
  }

  lemma {:induction false} SumLineTotalsNonNegative(lines: seq<InventoryTransactionLine>)
    ensures (forall i | 0 <= i < |lines| :: lines[i].lineTotal >= 0.0) ==> SumLineTotals(lines) >= 0.0
    decreases |lines|
  {
    if |lines| > 0 {
      SumLineTotalsNonNegative(lines[..|lines| - 1]);
    }
  }
}
