/**
 * Conversion between sales (and their lines) and their stored documents.
 * The document has no payment method, and its lines have neither a line
 * total nor tax and fee flags: the payment method comes back as the Cash
 * default and the total is recomputed from quantity and price.  The sale
 * line entity declares no flags either, though the services read them; the
 * model gives a line read back both flags set, an assumption of its own.
 */
module SaleMapper {
  import opened Common
  import opened Documents
  import opened SaleLines
  import opened Sales

  function ToLineEntity(d: SaleLineDocument): SaleLine
  {
    SaleLine(d.lineId, d.itemId, d.itemCode, d.description, d.classification, d.condition,
             d.quantity, d.unitPrice, d.currency, true, true, d.inventoryTransactionId)
  }

  function ToLineDocument(l: SaleLine): SaleLineDocument
  {
    SaleLineDocument(l.lineId, l.itemId, l.itemCode, l.description, l.classification, l.condition,
                     l.quantity, l.unitPrice, l.currency, l.inventoryTransactionId)
  }

  function ToLineEntities(ds: seq<SaleLineDocument>): (ls: seq<SaleLine>)
    ensures |ls| == |ds|
    ensures forall i | 0 <= i < |ds| :: ls[i] == ToLineEntity(ds[i])
  {
    seq(|ds|, i requires 0 <= i < |ds| => ToLineEntity(ds[i]))
  }

  function ToLineDocuments(ls: seq<SaleLine>): (ds: seq<SaleLineDocument>)
    ensures |ds| == |ls|
    ensures forall i | 0 <= i < |ls| :: ds[i] == ToLineDocument(ls[i])
  {
    seq(|ls|, i requires 0 <= i < |ls| => ToLineDocument(ls[i]))
  }

  function ToEntity(d: SaleDocument): (s: Sale)
    ensures s.paymentMethod == DefaultPaymentMethod
  {
    Sales.Sale(d.id, d.saleNumber, d.branchId, d.saleDateUtc, ToLineEntities(d.lines), d.customerName,
         d.customerPhone, d.notes, DefaultPaymentMethod, d.status, d.postedAtUtc, d.postedBy,
         d.createdAtUtc, d.createdBy, d.modifiedAtUtc, d.modifiedBy)
  }

  function ToDocument(s: Sale): SaleDocument
  {
    SaleDocument(s.id, s.saleNumber, s.branchId, s.saleDateUtc, ToLineDocuments(s.lines), s.customerName,
                 s.customerPhone, s.notes, s.status, s.postedAtUtc, s.postedBy,
                 s.createdAtUtc, s.createdBy, s.modifiedAtUtc, s.modifiedBy)
  }

  /** Storing what was read back stores the same document: the loss is on the way out only. */
  lemma DocumentRoundTrip(d: SaleDocument)
    ensures ToDocument(ToEntity(d)) == d
  {
    assert ToLineDocuments(ToLineEntities(d.lines)) == d.lines;
  }

  /**
   * What a stored sale reads back as: identity, number, branch, status,
   * posting and audit fields are kept; lines keep count and order, their
   * inventory link, classification and condition, and their total; the
   * payment method is Cash and the line flags are set.
   */
  lemma EntityRoundTrip(s: Sale)
    ensures var r := ToEntity(ToDocument(s));
      && r.id == s.id && r.saleNumber == s.saleNumber && r.branchId == s.branchId
      && r.status == s.status && r.postedAtUtc == s.postedAtUtc && r.postedBy == s.postedBy
      && r.createdAtUtc == s.createdAtUtc && r.createdBy == s.createdBy
      && r.modifiedAtUtc == s.modifiedAtUtc && r.modifiedBy == s.modifiedBy
      && r.paymentMethod == Cash
      && |r.lines| == |s.lines|
      && (forall i | 0 <= i < |s.lines| ::
            && r.lines[i].inventoryTransactionId == s.lines[i].inventoryTransactionId
            && r.lines[i].classification == s.lines[i].classification
            && r.lines[i].condition == s.lines[i].condition
            && r.lines[i].LineTotal() == s.lines[i].quantity as real * s.lines[i].unitPrice
            && r.lines[i].isTaxable && r.lines[i].appliesShopFee)
  {
  }

  /** A sale paid other than in cash does not survive a round trip: it reads back as Cash. */
  lemma PaymentMethodIsLost(s: Sale)
    requires s.paymentMethod != Cash
    ensures ToEntity(ToDocument(s)).paymentMethod == Cash
    ensures ToEntity(ToDocument(s)) != s
  {
  }

  /** The round trip is exact precisely for cash sales whose lines carry both flags. */
  lemma EntityRoundTripExactWhen(s: Sale)
    ensures ToEntity(ToDocument(s)) == s
        <==> s.paymentMethod == Cash
             && forall i | 0 <= i < |s.lines| :: s.lines[i].isTaxable && s.lines[i].appliesShopFee
  {
    var r := ToEntity(ToDocument(s));
    if s.paymentMethod == Cash && forall i | 0 <= i < |s.lines| :: s.lines[i].isTaxable && s.lines[i].appliesShopFee {
      assert r.lines == s.lines;
    } else if r == s {
      assert r.paymentMethod == Cash;
      forall i | 0 <= i < |s.lines| ensures s.lines[i].isTaxable && s.lines[i].appliesShopFee {
        assert r.lines[i] == s.lines[i];
      }
    }
  }
}
