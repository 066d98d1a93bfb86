/**
 * Conversion between inventory transactions (and their lines) and their
 * stored documents.  Every field is copied as it is.
 */
module TransactionMapper {
  import opened Common
  import opened Documents
  import opened TransactionLines
  import opened Transactions

  function ToLineEntity(d: InventoryTransactionLineDocument): InventoryTransactionLine
  {
    InventoryTransactionLine(
      d.lineId, d.itemId, d.itemCode, d.condition, d.quantity, d.unitPrice, d.currency,
      d.isTaxable, d.appliesShopFee, d.priceSource, d.priceSetByRole, d.priceSetByUser,
      d.lineTotal, d.costOfGoodsSold, d.priceNotes, d.executedAtUtc)
  }

  function ToLineDocument(l: InventoryTransactionLine): InventoryTransactionLineDocument
  {
    InventoryTransactionLineDocument(
      l.lineId, l.itemId, l.itemCode, l.condition, l.quantity, l.unitPrice, l.currency,
      l.isTaxable, l.appliesShopFee, l.priceSource, l.priceSetByRole, l.priceSetByUser,
      l.lineTotal, l.costOfGoodsSold, l.priceNotes, l.executedAtUtc)
  }

  /** Lines keep their count and order, and the priced fields of every line. */
  function ToLineEntities(ds: seq<InventoryTransactionLineDocument>): (ls: seq<InventoryTransactionLine>)
    ensures |ls| == |ds|
    ensures forall i | 0 <= i < |ds| ::
              && ls[i].itemCode == ds[i].itemCode && ls[i].condition == ds[i].condition
              && ls[i].quantity == ds[i].quantity && ls[i].unitPrice == ds[i].unitPrice
              && ls[i].isTaxable == ds[i].isTaxable && ls[i].appliesShopFee == ds[i].appliesShopFee
              && ls[i].priceSource == ds[i].priceSource && ls[i].lineTotal == ds[i].lineTotal
              && ls[i].costOfGoodsSold == ds[i].costOfGoodsSold
  {
    seq(|ds|, i requires 0 <= i < |ds| => ToLineEntity(ds[i]))
  }

  function ToLineDocuments(ls: seq<InventoryTransactionLine>): (ds: seq<InventoryTransactionLineDocument>)
    ensures |ds| == |ls|
    ensures forall i | 0 <= i < |ls| ::
              && ds[i].itemCode == ls[i].itemCode && ds[i].condition == ls[i].condition
              && ds[i].quantity == ls[i].quantity && ds[i].unitPrice == ls[i].unitPrice
              && ds[i].isTaxable == ls[i].isTaxable && ds[i].appliesShopFee == ls[i].appliesShopFee
              && ds[i].priceSource == ls[i].priceSource && ds[i].lineTotal == ls[i].lineTotal
              && ds[i].costOfGoodsSold == ls[i].costOfGoodsSold
  {
    seq(|ls|, i requires 0 <= i < |ls| => ToLineDocument(ls[i]))
  }

  lemma LinesRoundTrip(ls: seq<InventoryTransactionLine>, ds: seq<InventoryTransactionLineDocument>)
    ensures ToLineEntities(ToLineDocuments(ls)) == ls
    ensures ToLineDocuments(ToLineEntities(ds)) == ds
  {
  }

  function ToDocument(t: InventoryTransaction): (d: InventoryTransactionDocument)
    reads t
    ensures d.status == t.status && d.committedAtUtc == t.committedAtUtc && d.committedBy == t.committedBy
    ensures ToLineEntities(d.lines) == t.lines
  {
    LinesRoundTrip(t.lines, []);
    InventoryTransactionDocument(
      t.id, t.transactionNumber, t.branchCode, t.transactionType, t.status, t.transactionDateUtc,
      t.notes, t.paymentMethod, t.committedAtUtc, t.committedBy, ToLineDocuments(t.lines),
      t.createdAtUtc, t.createdBy, t.modifiedAtUtc, t.modifiedBy)
  }

  /** A new transaction object holding the document's fields; converting it back gives the document. */
  method ToEntity(d: InventoryTransactionDocument) returns (t: InventoryTransaction)
    ensures fresh(t)
    ensures t.id == d.id && t.transactionNumber == d.transactionNumber && t.branchCode == d.branchCode
    ensures t.transactionType == d.transactionType && t.status == d.status
    ensures t.transactionDateUtc == d.transactionDateUtc && t.lines == ToLineEntities(d.lines)
    ensures t.committedAtUtc == d.committedAtUtc && t.committedBy == d.committedBy
    ensures ToDocument(t) == d
  {
    t := new InventoryTransaction(
      d.id, d.transactionNumber, d.branchCode, d.transactionType, d.status, d.transactionDateUtc,
      d.notes, d.paymentMethod, d.committedAtUtc, d.committedBy, ToLineEntities(d.lines),
      d.createdAtUtc, d.createdBy, d.modifiedAtUtc, d.modifiedBy);
    LinesRoundTrip([], d.lines);
  }

  /**
   * Two transactions with the same document agree on every field, so
   * reading back a stored transaction gives it back field by field.
   */
  lemma ToDocumentDeterminesEntity(t1: InventoryTransaction, t2: InventoryTransaction)
    requires ToDocument(t1) == ToDocument(t2)
    ensures t1.id == t2.id && t1.transactionNumber == t2.transactionNumber && t1.branchCode == t2.branchCode
    ensures t1.transactionType == t2.transactionType && t1.status == t2.status
    ensures t1.transactionDateUtc == t2.transactionDateUtc && t1.notes == t2.notes
    ensures t1.paymentMethod == t2.paymentMethod
    ensures t1.committedAtUtc == t2.committedAtUtc && t1.committedBy == t2.committedBy
    ensures t1.lines == t2.lines
    ensures t1.createdAtUtc == t2.createdAtUtc && t1.createdBy == t2.createdBy
    ensures t1.modifiedAtUtc == t2.modifiedAtUtc && t1.modifiedBy == t2.modifiedBy
  {
  }
}
