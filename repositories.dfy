/**
 * The stores behind the services, as in-memory collections.  Summaries are
 * keyed by (branch code, item code), the unique index of their collection;
 * transactions and sales by id; reference prices by item code, their unique
 * index.  Items and users keep their stored order, which is the order the
 * first-match queries see.
 */
module Repositories {
  import opened Common
  import opened Documents
  import opened MasterData

  datatype SummaryKey = SummaryKey(branchCode: string, itemCode: string)

  function KeyOf(d: InventorySummaryDocument): SummaryKey
  {
    SummaryKey(d.branchCode, d.itemCode)
  }

  /** Every stored summary sits under its own key. */
  predicate WellKeyed(docs: map<SummaryKey, InventorySummaryDocument>)
  {
    forall k | k in docs :: KeyOf(docs[k]) == k
  }

  /**
   * The version-checked upsert as one compare-and-set step: the write goes
   * through when no summary is stored under the key (an insert) or when the
   * stored one has exactly the version preceding the new one.  Otherwise the
   * filter matches nothing, the upsert inserts a second summary with the
   * stored one's id and key, and the unique indexes refuse it.
   */
  function UpsertWithVersionCheck(docs: map<SummaryKey, InventorySummaryDocument>,
                                  d: InventorySummaryDocument): (r: Result<map<SummaryKey, InventorySummaryDocument>>)
    ensures r.Ok? <==> KeyOf(d) !in docs || docs[KeyOf(d)].version == d.version - 1
    ensures r.Ok? ==> r.value == docs[KeyOf(d) := d]
    ensures r.Err? ==> r.error == DuplicateKey
  {
    var key := KeyOf(d);
    if key !in docs || docs[key].version == d.version - 1 then Ok(docs[key := d]) else Err(DuplicateKey)
  }

  /**
   * Two writers that read the same summary and both bump its version: the
   * first write succeeds and the second is refused, whether or not the
   * summary existed before.
   */
  lemma SecondWriterLoses(docs: map<SummaryKey, InventorySummaryDocument>,
                          first: InventorySummaryDocument, second: InventorySummaryDocument)
    requires KeyOf(first) == KeyOf(second) && first.version == second.version
    requires UpsertWithVersionCheck(docs, first).Ok?
    ensures UpsertWithVersionCheck(UpsertWithVersionCheck(docs, first).value, second) == Err(DuplicateKey)
  {
    var after := UpsertWithVersionCheck(docs, first).value;
    assert after[KeyOf(second)].version == second.version;
  }

  /**
   * Writers that each read the previous one's result and bump the version by
   * one all succeed: a chain of read-modify-writes advances the stored
   * version one step at a time.
   */
  lemma SerialWritersSucceed(docs: map<SummaryKey, InventorySummaryDocument>,
                             first: InventorySummaryDocument, second: InventorySummaryDocument)
    requires KeyOf(first) == KeyOf(second) && second.version == first.version + 1
    requires UpsertWithVersionCheck(docs, first).Ok?
    ensures UpsertWithVersionCheck(UpsertWithVersionCheck(docs, first).value, second).Ok?
    ensures UpsertWithVersionCheck(UpsertWithVersionCheck(docs, first).value, second).value[KeyOf(second)].version
         == first.version + 1
  {
    var after := UpsertWithVersionCheck(docs, first).value;
    assert after[KeyOf(second)].version == first.version;
  }

  /** The compare-and-set keeps every summary under its own key. */
  lemma UpsertKeepsWellKeyed(docs: map<SummaryKey, InventorySummaryDocument>, d: InventorySummaryDocument)
    requires WellKeyed(docs)
    requires UpsertWithVersionCheck(docs, d).Ok?
    ensures WellKeyed(UpsertWithVersionCheck(docs, d).value)
  {
  }

  class SummaryStore {
    var docs: map<SummaryKey, InventorySummaryDocument>

    constructor ()
      ensures docs == map[]
    {
      docs := map[];
    }

    /** The unique index on (branch code, item code). */
    predicate Valid()
      reads this
    {
      WellKeyed(docs)
    }

    /** The stored summary for (branch, item), if any (GetByKeyAsync). */
    function GetByKey(branchCode: string, itemCode: string): (r: Option<InventorySummaryDocument>)
      reads this
      ensures r.Some? <==> SummaryKey(branchCode, itemCode) in docs
      ensures r.Some? ==> r.value == docs[SummaryKey(branchCode, itemCode)]
    {
      var key := SummaryKey(branchCode, itemCode);
      if key in docs then Some(docs[key]) else None
    }

    /**
     * Ends a unit of work: the summaries as staged inside its transaction
     * scope become the stored ones all at once.
     */
    method CommitScope(staged: map<SummaryKey, InventorySummaryDocument>)
      modifies this
      ensures docs == staged
    {
      docs := staged;
    }

    /** Unconditional upsert: the summary replaces whatever was stored under its key. */
    method Upsert(d: InventorySummaryDocument)
      modifies this
      ensures docs == old(docs)[KeyOf(d) := d]
    {
      docs := docs[KeyOf(d) := d];
    }
  }

  class TransactionStore {
    var docs: map<string, InventoryTransactionDocument>

    constructor ()
      ensures docs == map[]
    {
      docs := map[];
    }

    /** Stores a transaction under its id (CreateAsync / UpdateAsync). */
    method Save(d: InventoryTransactionDocument)
      modifies this
      ensures docs == old(docs)[d.id := d]
    {
      docs := docs[d.id := d];
    }
  }

  class SaleStore {
    var docs: map<string, SaleDocument>

    constructor ()
      ensures docs == map[]
    {
      docs := map[];
    }

    method Save(d: SaleDocument)
      modifies this
      ensures docs == old(docs)[d.id := d]
    {
      docs := docs[d.id := d];
    }
  }

  class PriceStore {
    var docs: map<string, ConsumableItemPriceDocument>

    constructor ()
      ensures docs == map[]
    {
      docs := map[];
    }

    /** The unique index on item code: every price sits under its own item's code. */
    predicate Valid()
      reads this
    {
      forall c | c in docs :: docs[c].itemCode == c
    }

    /** The stored price of an item, if any (GetByItemCodeAsync). */
    function GetByItemCode(itemCode: string): (r: Option<ConsumableItemPriceDocument>)
      reads this
      ensures r.Some? <==> itemCode in docs
      ensures r.Some? ==> r.value == docs[itemCode]
    {
      if itemCode in docs then Some(docs[itemCode]) else None
    }

    /** Replaces the stored price of the item (UpdateAsync). */
    method Save(d: ConsumableItemPriceDocument)
      modifies this
      ensures docs == old(docs)[d.itemCode := d]
    {
      docs := docs[d.itemCode := d];
    }
  }

  class ItemStore {
    var items: seq<Item>

    constructor ()
      ensures items == []
    {
      items := [];
    }

    /** The unique index on item code. */
    predicate Valid()
      reads this
    {
      DistinctItemCodes(items)
    }

    /** Appends a new item; its code is not yet taken. */
    method Create(item: Item)
      requires Valid()
      requires ItemIndexByCode(items, item.itemCode).None?
      modifies this
      ensures items == old(items) + [item]
      ensures Valid()
    {
      items := items + [item];
    }

    /** Replaces the stored item with the same code; nothing else changes. */
    method Update(item: Item)
      requires Valid()
      modifies this
      ensures match ItemIndexByCode(old(items), item.itemCode)
              case Some(k) => items == old(items)[k := item]
              case None => items == old(items)
      ensures Valid()
    {
      match ItemIndexByCode(items, item.itemCode) {
        case Some(k) =>
          items := items[k := item];
        case None =>
      }
    }
  }

  class UserStore {
    var users: seq<User>

    constructor ()
      ensures users == []
    {
      users := [];
    }

    method Create(user: User)
      modifies this
      ensures users == old(users) + [user]
    {
      users := users + [user];
    }

    /** Replaces the stored user with the same id, or inserts it (an upsert by id). */
    method Update(user: User)
      modifies this
      ensures match UserIndexById(old(users), user.id)
              case Some(k) => users == old(users)[k := user]
              case None => users == old(users) + [user]
    {
      match UserIndexById(users, user.id) {
        case Some(k) =>
          users := users[k := user];
        case None =>
          users := users + [user];
      }
    }

    /** Removes the first stored user with the id (DeleteOne). */
    method Delete(id: string)
      modifies this
      ensures match UserIndexById(old(users), id)
              case Some(k) => users == old(users)[..k] + old(users)[k + 1..]
              case None => users == old(users)
    {
      match UserIndexById(users, id) {
        case Some(k) =>
          users := users[..k] + users[k + 1..];
        case None =>
      }
    }
  }

  /** A named counter's current value; a counter never drawn from is at 0. */
  function CounterValue(counters: map<string, int>, name: string): int
  {
    if name in counters then counters[name] else 0
  }

  /**
   * Named counters (find-and-increment with upsert): a counter that does not
   * exist yet starts from 0, so its first value is 1.
   */
  class SequenceGenerator {
    var counters: map<string, int>

    constructor ()
      ensures counters == map[]
    {
      counters := map[];
    }

    function Current(name: string): int
      reads this
    {
      CounterValue(counters, name)
    }

    method GetNextSequence(name: string) returns (value: int)
      modifies this
      ensures value == old(Current(name)) + 1
      ensures counters == old(counters)[name := value]
    {
      value := Current(name) + 1;
      counters := counters[name := value];
    }
  }

  /** Two successive draws from the same counter give consecutive values. */
  method DrawTwice(g: SequenceGenerator, name: string) returns (first: int, second: int)
    modifies g
    ensures second == first + 1
    ensures first == old(g.Current(name)) + 1
  {
    first := g.GetNextSequence(name);
    second := g.GetNextSequence(name);
  }
}
