/**
 * Setting the reference price of an item.  The item must be in the catalogue
 * and the new price positive.  An item without a price gets a new record
 * with an empty history; an item with one goes through the record's
 * UpdatePrice, which pushes the replaced price onto the history, and also
 * takes the request's currency.
 */
module PriceManagementService {
  import opened Common
  import opened Documents
  import opened MasterData
  import opened Repositories
  import opened Prices
  import PriceMapper

  datatype UpdateItemPriceRequest = UpdateItemPriceRequest(newPrice: real, currency: Currency)

  /** The history entry that remembers a stored price once it is replaced. */
  function Replaced(d: ConsumableItemPriceDocument): PriceHistoryEntryDocument
  {
    PriceHistoryEntryDocument(d.latestPrice, d.latestPriceDateUtc, d.updatedBy)
  }

  /** A first reference price: nothing replaced yet. */
  function FirstPrice(id: string, itemCode: string, currency: Currency, price: real, now: Instant, user: string)
    : (d: ConsumableItemPriceDocument)
    ensures d.history == [] && d.itemCode == itemCode && d.latestPrice == price
  {
    ConsumableItemPriceDocument(id, itemCode, currency, price, now, user, [])
  }

  /** A stored price replaced by a new one, in a possibly new currency. */
  function Repriced(d: ConsumableItemPriceDocument, currency: Currency, price: real, now: Instant, user: string)
    : ConsumableItemPriceDocument
  {
    d.(currency := currency, latestPrice := price, latestPriceDateUtc := now, updatedBy := user,
       history := d.history + [Replaced(d)])
  }

  /** The stored price after UpdateItemPriceAsync, or its error. */
  function UpdateItemPriceSpec(user: CurrentUser, now: Instant, items: seq<Item>,
                               prices: map<string, ConsumableItemPriceDocument>, itemCode: string,
                               request: UpdateItemPriceRequest, priceId: string)
    : Result<ConsumableItemPriceDocument>
  {
    match ItemIndexByCode(items, itemCode)
    case None => Err(NotFound)
    case Some(k) =>
      if items[k].isDeleted then Err(Validation)
      else if request.newPrice <= 0.0 then Err(Validation)
      else if itemCode !in prices then
        Ok(FirstPrice(priceId, itemCode, request.currency, request.newPrice, now, user.username))
      else
        Ok(Repriced(prices[itemCode], request.currency, request.newPrice, now, user.username))
  }

  lemma HistoryAppend(hs: seq<PriceHistoryEntry>, h: PriceHistoryEntry)
    ensures PriceMapper.ToHistoryDocuments(hs + [h])
         == PriceMapper.ToHistoryDocuments(hs) + [PriceMapper.ToHistoryDocument(h)]
  {
  }

  method UpdateItemPrice(user: CurrentUser, now: Instant, items: ItemStore, prices: PriceStore,
                         itemCode: string, request: UpdateItemPriceRequest, priceId: string)
    returns (r: Result<ConsumableItemPriceDocument>)
    requires prices.Valid()
    modifies prices
    ensures prices.Valid()
    ensures match UpdateItemPriceSpec(user, now, old(items.items), old(prices.docs), itemCode, request, priceId)
            case Ok(d) => r == Ok(d) && prices.docs == old(prices.docs)[itemCode := d]
            case Err(e) => r == Err(e) && prices.docs == old(prices.docs)
  {
    match ItemIndexByCode(items.items, itemCode) {
      case None =>
        return Err(NotFound);
      case Some(k) =>
        if items.items[k].isDeleted {
          return Err(Validation);
        }
        if request.newPrice <= 0.0 {
          return Err(Validation);
        }
        var stored := prices.GetByItemCode(itemCode);
        if stored.None? {
          var record := new ConsumableItemPrice(priceId, itemCode, request.currency, request.newPrice, now,
                                                user.username, []);
          var d := PriceMapper.ToDocument(record);
          prices.Save(d);
          return Ok(d);
        }
        var record := PriceMapper.ToEntity(stored.value);
        var outcome := record.UpdatePrice(request.newPrice, user.username, now);
        assert outcome.Pass?;
        record.currency := request.currency;
        var d := PriceMapper.ToDocument(record);
        HistoryAppend(PriceMapper.ToHistoryEntities(stored.value.history),
                      PriceHistoryEntry(stored.value.latestPrice, stored.value.latestPriceDateUtc, stored.value.updatedBy));
        PriceMapper.HistoryRoundTrip([], stored.value.history);
        prices.Save(d);
        return Ok(d);
    }
  }

  /**
   * The price update succeeds exactly when the item is stored and not
   * deleted and the new price is positive (zero is refused); an unknown
   * item is NotFound, a deleted item or a price that is not positive a
   * Validation error.
   */
  lemma UpdateItemPriceSucceedsIff(user: CurrentUser, now: Instant, items: seq<Item>,
                                   prices: map<string, ConsumableItemPriceDocument>, itemCode: string,
                                   request: UpdateItemPriceRequest, priceId: string)
    requires DistinctItemCodes(items)
    ensures var r := UpdateItemPriceSpec(user, now, items, prices, itemCode, request, priceId);
            && (r.Ok? <==> (exists k | 0 <= k < |items| :: items[k].itemCode == itemCode && !items[k].isDeleted)
                            && request.newPrice > 0.0)
            && (r == Err(NotFound) <==> forall k | 0 <= k < |items| :: items[k].itemCode != itemCode)
            && (r.Err? ==> r.error in {NotFound, Validation})
  {
  }

  /**
   * A successful update leaves the new price, its date, author and currency
   * as the latest.  A first price starts an empty history under the new id;
   * otherwise the record keeps its id and its history gains exactly one
   * entry, the price it replaced, with every earlier entry in place.
   */
  lemma UpdateItemPriceRecords(user: CurrentUser, now: Instant, items: seq<Item>,
                               prices: map<string, ConsumableItemPriceDocument>, itemCode: string,
                               request: UpdateItemPriceRequest, priceId: string)
    requires forall c | c in prices :: prices[c].itemCode == c
    requires UpdateItemPriceSpec(user, now, items, prices, itemCode, request, priceId).Ok?
    ensures var d := UpdateItemPriceSpec(user, now, items, prices, itemCode, request, priceId).value;
            && d.itemCode == itemCode && d.latestPrice == request.newPrice && d.latestPriceDateUtc == now
            && d.updatedBy == user.username && d.currency == request.currency
            && (itemCode !in prices ==> d.id == priceId && d.history == [])
            && (itemCode in prices ==>
                  && d.id == prices[itemCode].id
                  && |d.history| == |prices[itemCode].history| + 1
                  && prices[itemCode].history <= d.history
                  && d.history[|d.history| - 1].price == prices[itemCode].latestPrice
                  && d.history[|d.history| - 1].dateUtc == prices[itemCode].latestPriceDateUtc
                  && d.history[|d.history| - 1].updatedBy == prices[itemCode].updatedBy)
  {
  }

  /**
   * Two successive price updates of an item that already has a price: the
   * history grows by the two replaced prices, oldest first, and the latest
   * price is the second one.
   */
  lemma SuccessiveUpdatesAppend(user: CurrentUser, t1: Instant, t2: Instant, items: seq<Item>,
                                prices: map<string, ConsumableItemPriceDocument>, itemCode: string,
                                first: UpdateItemPriceRequest, second: UpdateItemPriceRequest, priceId: string)
    requires forall c | c in prices :: prices[c].itemCode == c
    requires itemCode in prices
    requires UpdateItemPriceSpec(user, t1, items, prices, itemCode, first, priceId).Ok?
    ensures var d1 := UpdateItemPriceSpec(user, t1, items, prices, itemCode, first, priceId).value;
            var r2 := UpdateItemPriceSpec(user, t2, items, prices[itemCode := d1], itemCode, second, priceId);
            && (r2.Ok? <==> second.newPrice > 0.0)
            && (r2.Ok? ==>
                  && r2.value.history == prices[itemCode].history + [Replaced(prices[itemCode]), Replaced(d1)]
                  && r2.value.latestPrice == second.newPrice
                  && Replaced(d1).price == first.newPrice)
  {
  }
}
