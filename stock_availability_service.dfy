/**
 * Whether a summary holds enough available stock (on hand minus reserved)
 * of one condition for a requested quantity.
 */
module StockAvailability {
  import opened Common
  import opened Summaries

  datatype StockCheckResult = StockCheckResult(isSufficient: bool, available: int, requested: int)

  /** A sufficient result records the available quantity and no request. */
  function Sufficient(available: int): (r: StockCheckResult)
    ensures r.isSufficient && r.available == available && r.requested == 0
  {
    StockCheckResult(true, available, 0)
  }

  function Insufficient(available: int, requested: int): (r: StockCheckResult)
    ensures !r.isSufficient && r.available == available && r.requested == requested
  {
    StockCheckResult(false, available, requested)
  }

  /**
   * The check on the entries of a summary, None standing for no summary: no
   * summary, or no entry for the condition, is insufficient with nothing
   * available.  Otherwise the available quantity is OnHand - Reserved of the
   * entry and the result is sufficient exactly when it covers the request.
   */
  function CheckEntries(entries: Option<seq<InventoryEntry>>, condition: ItemCondition, requested: int)
    : (r: StockCheckResult)
    ensures entries.None? ==> r == Insufficient(0, requested)
    ensures entries.Some? && FindEntry(entries.value, condition).None? ==> r == Insufficient(0, requested)
    ensures entries.Some? && FindEntry(entries.value, condition).Some? ==>
              var e := entries.value[FindEntry(entries.value, condition).value];
              && r.available == e.onHand - e.reserved
              && (r.isSufficient <==> e.onHand - e.reserved >= requested)
              && r.requested == (if r.isSufficient then 0 else requested)
  {
    match entries
    case None => Insufficient(0, requested)
    case Some(es) =>
      match FindEntry(es, condition)
      case None => Insufficient(0, requested)
      case Some(k) =>
        var available := es[k].onHand - es[k].reserved;
        if available >= requested then Sufficient(available) else Insufficient(available, requested)
  }

  /**
   * CheckAvailability on a summary object (null when the store has none).
   * The summary is only read.
   */
  function CheckAvailability(summary: InventorySummary?, condition: ItemCondition, requested: int)
    : (r: StockCheckResult)
    reads summary
    ensures summary == null ==> r == Insufficient(0, requested)
    ensures summary != null && FindEntry(summary.entries, condition).None? ==> r == Insufficient(0, requested)
    ensures summary != null && FindEntry(summary.entries, condition).Some? ==>
              var e := summary.entries[FindEntry(summary.entries, condition).value];
              && r.available == e.onHand - e.reserved
              && (r.isSufficient <==> e.onHand - e.reserved >= requested)
              && r.requested == (if r.isSufficient then 0 else requested)
  {
    CheckEntries(if summary == null then None else Some(summary.entries), condition, requested)
  }

  /**
   * The check reports the summary's GetAvailable figure, and is sufficient
   * exactly when an entry for the condition exists and that figure covers
   * the request (with no entry even a request of 0 is insufficient).
   */
  lemma CheckAgreesWithGetAvailable(summary: InventorySummary, condition: ItemCondition, requested: int)
    ensures CheckAvailability(summary, condition, requested).available == summary.GetAvailable(condition)
    ensures CheckAvailability(summary, condition, requested).isSufficient
        <==> FindEntry(summary.entries, condition).Some? && summary.GetAvailable(condition) >= requested
  {
  }
}
