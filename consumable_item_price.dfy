/**
 * The reference price of a consumable item: the latest price, when and by
 * whom it was set, and an append-only history of the prices it replaced.
 */
module Prices {
  import opened Common

  datatype PriceHistoryEntry = PriceHistoryEntry(price: real, dateUtc: Instant, updatedBy: string)

  class ConsumableItemPrice {
    var id: string
    var itemCode: string
    var currency: Currency
    var latestPrice: real
    var latestPriceDateUtc: Instant
    var updatedBy: string
    var history: seq<PriceHistoryEntry>

    constructor (id: string, itemCode: string, currency: Currency, latestPrice: real,
                 latestPriceDateUtc: Instant, updatedBy: string, history: seq<PriceHistoryEntry>)
      ensures this.id == id && this.itemCode == itemCode && this.currency == currency
      ensures this.latestPrice == latestPrice && this.latestPriceDateUtc == latestPriceDateUtc
      ensures this.updatedBy == updatedBy && this.history == history
    {
      this.id := id;
      this.itemCode := itemCode;
      this.currency := currency;
      this.latestPrice := latestPrice;
      this.latestPriceDateUtc := latestPriceDateUtc;
      this.updatedBy := updatedBy;
      this.history := history;
    }

    /**
     * Replaces the latest price by a positive new one.  The replaced price,
     * with its date and author, is appended to the history; earlier history
     * entries stay as they were, in order.  A price that is not positive is
     * refused and nothing changes.
     */
    method UpdatePrice(newPrice: real, user: string, dateUtc: Instant) returns (outcome: Outcome)
      modifies this
      ensures outcome.Fail? <==> newPrice <= 0.0
      ensures outcome.Fail? ==> outcome.error == InvalidArgument && unchanged(this)
      ensures outcome.Pass? ==>
        && history == old(history) + [PriceHistoryEntry(old(latestPrice), old(latestPriceDateUtc), old(updatedBy))]
        && latestPrice == newPrice && latestPriceDateUtc == dateUtc && updatedBy == user
      ensures old(history) <= history
      ensures id == old(id) && itemCode == old(itemCode) && currency == old(currency)
    {
      if newPrice <= 0.0 {
        return Fail(InvalidArgument);
      }
      history := history + [PriceHistoryEntry(latestPrice, latestPriceDateUtc, updatedBy)];
      latestPrice := newPrice;
      latestPriceDateUtc := dateUtc;
      updatedBy := user;
      return Pass;
    }
  }
}
