/**
 * A sale: numbered per branch, made of sale lines, Draft until it is posted
 * and then Committed with who posted it and when.
 */
module Sales {
  import opened Common
  import opened SaleLines

  datatype Sale = Sale(
    id: string,
    saleNumber: string,
    branchId: string,
    saleDateUtc: Instant,
    lines: seq<SaleLine>,
    customerName: Option<string>,
    customerPhone: Option<string>,
    notes: Option<string>,
    paymentMethod: PaymentMethod,
    status: TransactionStatus,
    postedAtUtc: Option<Instant>,
    postedBy: Option<string>,
    createdAtUtc: Instant,
    createdBy: string,
    modifiedAtUtc: Option<Instant>,
    modifiedBy: Option<string>)

  /** The payment method a sale has when none is set. */
  const DefaultPaymentMethod: PaymentMethod := Cash
}
