/**
 * Conversion between reference prices (with their history) and their stored
 * documents.  Every field is copied as it is.
 */
module PriceMapper {
  import opened Common
  import opened Documents
  import opened Prices

  function ToHistoryEntity(d: PriceHistoryEntryDocument): PriceHistoryEntry
  {
    PriceHistoryEntry(d.price, d.dateUtc, d.updatedBy)
  }

  function ToHistoryDocument(h: PriceHistoryEntry): PriceHistoryEntryDocument
  {
    PriceHistoryEntryDocument(h.price, h.dateUtc, h.updatedBy)
  }

  /** History keeps its length, its order and every entry's price, date and author. */
  function ToHistoryEntities(ds: seq<PriceHistoryEntryDocument>): (hs: seq<PriceHistoryEntry>)
    ensures |hs| == |ds|
    ensures forall i | 0 <= i < |ds| ::
              hs[i].price == ds[i].price && hs[i].dateUtc == ds[i].dateUtc && hs[i].updatedBy == ds[i].updatedBy
  {
    seq(|ds|, i requires 0 <= i < |ds| => ToHistoryEntity(ds[i]))
  }

  function ToHistoryDocuments(hs: seq<PriceHistoryEntry>): (ds: seq<PriceHistoryEntryDocument>)
    ensures |ds| == |hs|
    ensures forall i | 0 <= i < |hs| ::
              ds[i].price == hs[i].price && ds[i].dateUtc == hs[i].dateUtc && ds[i].updatedBy == hs[i].updatedBy
  {
    seq(|hs|, i requires 0 <= i < |hs| => ToHistoryDocument(hs[i]))
  }

  lemma HistoryRoundTrip(hs: seq<PriceHistoryEntry>, ds: seq<PriceHistoryEntryDocument>)
    ensures ToHistoryEntities(ToHistoryDocuments(hs)) == hs
    ensures ToHistoryDocuments(ToHistoryEntities(ds)) == ds
  {
  }

  function ToDocument(p: ConsumableItemPrice): (d: ConsumableItemPriceDocument)
    reads p
    ensures d.latestPrice == p.latestPrice && d.latestPriceDateUtc == p.latestPriceDateUtc
    ensures d.updatedBy == p.updatedBy && d.currency == p.currency
    ensures ToHistoryEntities(d.history) == p.history
  {
    HistoryRoundTrip(p.history, []);
    ConsumableItemPriceDocument(p.id, p.itemCode, p.currency, p.latestPrice, p.latestPriceDateUtc,
                                p.updatedBy, ToHistoryDocuments(p.history))
  }

  /** A new price object holding the document's fields; converting it back gives the document. */
  method ToEntity(d: ConsumableItemPriceDocument) returns (p: ConsumableItemPrice)
    ensures fresh(p)
    ensures p.id == d.id && p.itemCode == d.itemCode && p.currency == d.currency
    ensures p.latestPrice == d.latestPrice && p.latestPriceDateUtc == d.latestPriceDateUtc
    ensures p.updatedBy == d.updatedBy && p.history == ToHistoryEntities(d.history)
    ensures ToDocument(p) == d
  {
    p := new ConsumableItemPrice(d.id, d.itemCode, d.currency, d.latestPrice, d.latestPriceDateUtc,
                                 d.updatedBy, ToHistoryEntities(d.history));
    HistoryRoundTrip([], d.history);
  }

  /**
   * Two prices with the same document agree on every field, so reading back
   * a stored price gives it back field by field.
   */
  lemma ToDocumentDeterminesEntity(p1: ConsumableItemPrice, p2: ConsumableItemPrice)
    requires ToDocument(p1) == ToDocument(p2)
    ensures p1.id == p2.id && p1.itemCode == p2.itemCode && p1.currency == p2.currency
    ensures p1.latestPrice == p2.latestPrice && p1.latestPriceDateUtc == p2.latestPriceDateUtc
    ensures p1.updatedBy == p2.updatedBy && p1.history == p2.history
  {
  }
}
