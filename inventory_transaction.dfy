/**
 * An inventory transaction: a dated, numbered set of lines of one type (In,
 * Out or Adjust) for one branch.  It is created as a Draft and moves once,
 * either to Committed or to Cancelled; both are final.
 */
module Transactions {
  import opened Common
  import opened TransactionLines

  class InventoryTransaction {
    var id: string
    var transactionNumber: string
    var branchCode: string
    var transactionType: TransactionType
    var status: TransactionStatus
    var transactionDateUtc: Instant
    var notes: Option<string>
    var paymentMethod: Option<PaymentMethod>
    var committedAtUtc: Option<Instant>
    var committedBy: Option<string>
    var lines: seq<InventoryTransactionLine>
    // audit trail
    var createdAtUtc: Instant
    var createdBy: string
    var modifiedAtUtc: Option<Instant>
    var modifiedBy: Option<string>

    constructor (
      id: string, transactionNumber: string, branchCode: string, transactionType: TransactionType,
      status: TransactionStatus, transactionDateUtc: Instant, notes: Option<string>,
      paymentMethod: Option<PaymentMethod>, committedAtUtc: Option<Instant>,
      committedBy: Option<string>, lines: seq<InventoryTransactionLine>,
      createdAtUtc: Instant, createdBy: string, modifiedAtUtc: Option<Instant>,
      modifiedBy: Option<string>)
      ensures this.id == id && this.transactionNumber == transactionNumber
      ensures this.branchCode == branchCode && this.transactionType == transactionType && this.status == status
      ensures this.transactionDateUtc == transactionDateUtc && this.notes == notes
      ensures this.paymentMethod == paymentMethod
      ensures this.committedAtUtc == committedAtUtc && this.committedBy == committedBy
      ensures this.lines == lines
      ensures this.createdAtUtc == createdAtUtc && this.createdBy == createdBy
      ensures this.modifiedAtUtc == modifiedAtUtc && this.modifiedBy == modifiedBy
    {
      this.id := id;
      this.transactionNumber := transactionNumber;
      this.branchCode := branchCode;
      this.transactionType := transactionType;
      this.status := status;
      this.transactionDateUtc := transactionDateUtc;
      this.notes := notes;
      this.paymentMethod := paymentMethod;
      this.committedAtUtc := committedAtUtc;
      this.committedBy := committedBy;
      this.lines := lines;
      this.createdAtUtc := createdAtUtc;
      this.createdBy := createdBy;
      this.modifiedAtUtc := modifiedAtUtc;
      this.modifiedBy := modifiedBy;
    }

    /**
     * Draft -> Committed, stamping who committed and when (also as the last
     * modification).  Any other starting status is refused and nothing changes,
     * so a second Commit always fails.
     */
    method Commit(user: string, at: Instant) returns (outcome: Outcome)
      modifies this
      ensures outcome.Pass? <==> old(status) == Draft
      ensures outcome.Fail? ==> outcome.error == NotDraft(old(status)) && unchanged(this)
      ensures outcome.Pass? ==>
        && status == Committed
        && committedAtUtc == Some(at) && modifiedAtUtc == Some(at)
        && committedBy == Some(user) && modifiedBy == Some(user)
      ensures id == old(id) && transactionNumber == old(transactionNumber)
      ensures lines == old(lines) && transactionType == old(transactionType) && branchCode == old(branchCode)
      ensures transactionDateUtc == old(transactionDateUtc) && notes == old(notes)
      ensures paymentMethod == old(paymentMethod)
      ensures createdAtUtc == old(createdAtUtc) && createdBy == old(createdBy)
    {
      if status != Draft {
        return Fail(NotDraft(status));
      }
      status := Committed;
      committedAtUtc := Some(at);
      committedBy := Some(user);
      modifiedAtUtc := Some(at);
      modifiedBy := Some(user);
      return Pass;
    }

    /**
     * Draft -> Cancelled.  A committed transaction must be reversed instead,
     * and a cancelled one cannot be cancelled again; in both cases nothing
     * changes.  Cancel touches no field but the status.
     */
    method Cancel() returns (outcome: Outcome)
      modifies this
      ensures outcome.Pass? <==> old(status) == Draft
      ensures old(status) == Committed ==> outcome == Fail(CancelCommitted)
      ensures old(status) == Cancelled ==> outcome == Fail(AlreadyCancelled)
      ensures outcome.Fail? ==> unchanged(this)
      ensures outcome.Pass? ==> status == Cancelled
      ensures id == old(id) && transactionNumber == old(transactionNumber)
      ensures lines == old(lines) && transactionType == old(transactionType) && branchCode == old(branchCode)
      ensures transactionDateUtc == old(transactionDateUtc) && notes == old(notes)
      ensures paymentMethod == old(paymentMethod)
      ensures committedAtUtc == old(committedAtUtc) && committedBy == old(committedBy)
      ensures createdAtUtc == old(createdAtUtc) && createdBy == old(createdBy)
      ensures modifiedAtUtc == old(modifiedAtUtc) && modifiedBy == old(modifiedBy)
    {
      if status == Committed {
        return Fail(CancelCommitted);
      }
      if status == Cancelled {
        return Fail(AlreadyCancelled);
      }
      status := Cancelled;
      return Pass;
    }

    /** Sum of the line totals; 0 for a transaction without lines. */
    function GetTotalAmount(): (total: real)
      reads this
      ensures |lines| == 0 ==> total == 0.0
      ensures (forall i | 0 <= i < |lines| :: lines[i].lineTotal >= 0.0) ==> total >= 0.0
    {
      SumLineTotalsNonNegative(lines);
      SumLineTotals(lines)
    }
  }

  /**
   * Commit followed by a second Commit: the first succeeds exactly from
   * Draft, and the second never does.
   */
  method CommitTwice(t: InventoryTransaction, user: string, at: Instant)
    returns (first: Outcome, second: Outcome)
    modifies t
    ensures first.Pass? <==> old(t.status) == Draft
    ensures second.Fail?
    ensures t.status != Draft
    ensures old(t.status) == Draft ==> t.status == Committed
  {
    first := t.Commit(user, at);
    second := t.Commit(user, at);
  }
}
