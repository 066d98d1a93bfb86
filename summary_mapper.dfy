/**
 * Conversion between the stock aggregate and its stored document.  Every
 * field is copied as it is: the totals are not recomputed and the version is
 * carried over unchanged.
 */
module SummaryMapper {
  import opened Common
  import opened Documents
  import opened Summaries

  function ToEntryEntity(d: InventoryEntryDocument): InventoryEntry
  {
    InventoryEntry(d.condition, d.onHand, d.reserved, d.latestEntryDateUtc)
  }

  function ToEntryDocument(e: InventoryEntry): InventoryEntryDocument
  {
    InventoryEntryDocument(e.condition, e.onHand, e.reserved, e.latestEntryDateUtc)
  }

  /** Entries keep their count, their order and every field. */
  function ToEntryEntities(ds: seq<InventoryEntryDocument>): (es: seq<InventoryEntry>)
    ensures |es| == |ds|
    ensures forall i | 0 <= i < |ds| ::
              && es[i].condition == ds[i].condition && es[i].onHand == ds[i].onHand
              && es[i].reserved == ds[i].reserved && es[i].latestEntryDateUtc == ds[i].latestEntryDateUtc
  {
    seq(|ds|, i requires 0 <= i < |ds| => ToEntryEntity(ds[i]))
  }

  function ToEntryDocuments(es: seq<InventoryEntry>): (ds: seq<InventoryEntryDocument>)
    ensures |ds| == |es|
    ensures forall i | 0 <= i < |es| ::
              && ds[i].condition == es[i].condition && ds[i].onHand == es[i].onHand
              && ds[i].reserved == es[i].reserved && ds[i].latestEntryDateUtc == es[i].latestEntryDateUtc
  {
    seq(|es|, i requires 0 <= i < |es| => ToEntryDocument(es[i]))
  }

  lemma EntriesRoundTrip(es: seq<InventoryEntry>, ds: seq<InventoryEntryDocument>)
    ensures ToEntryEntities(ToEntryDocuments(es)) == es
    ensures ToEntryDocuments(ToEntryEntities(ds)) == ds
  {
  }

  function ToDocument(s: InventorySummary): (d: InventorySummaryDocument)
    reads s
    ensures d.version == s.version && d.onHandTotal == s.onHandTotal && d.reservedTotal == s.reservedTotal
    ensures ToEntryEntities(d.entries) == s.entries
  {
    EntriesRoundTrip(s.entries, []);
    InventorySummaryDocument(s.id, s.branchCode, s.itemCode, ToEntryDocuments(s.entries),
                             s.onHandTotal, s.reservedTotal, s.version, s.updatedAtUtc)
  }

  /** A new aggregate object holding the document's fields; converting it back gives the document. */
  method ToEntity(d: InventorySummaryDocument) returns (s: InventorySummary)
    ensures fresh(s)
    ensures s.id == d.id && s.branchCode == d.branchCode && s.itemCode == d.itemCode
    ensures s.entries == ToEntryEntities(d.entries)
    ensures s.onHandTotal == d.onHandTotal && s.reservedTotal == d.reservedTotal
    ensures s.version == d.version && s.updatedAtUtc == d.updatedAtUtc
    ensures ToDocument(s) == d
  {
    s := new InventorySummary(d.id, d.branchCode, d.itemCode, ToEntryEntities(d.entries),
                              d.onHandTotal, d.reservedTotal, d.version, d.updatedAtUtc);
    EntriesRoundTrip([], d.entries);
  }

  /**
   * Two aggregates with the same document agree on every field, so reading
   * back a stored aggregate gives it back field by field.
   */
  lemma ToDocumentDeterminesEntity(s1: InventorySummary, s2: InventorySummary)
    requires ToDocument(s1) == ToDocument(s2)
    ensures s1.id == s2.id && s1.branchCode == s2.branchCode && s1.itemCode == s2.itemCode
    ensures s1.entries == s2.entries
    ensures s1.onHandTotal == s2.onHandTotal && s1.reservedTotal == s2.reservedTotal
    ensures s1.version == s2.version && s1.updatedAtUtc == s2.updatedAtUtc
  {
  }
}
