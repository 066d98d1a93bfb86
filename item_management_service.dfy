/**
 * The item catalogue's write operations: creating an item (with an optional
 * first reference price), changing its description and soft-deleting it.
 * A soft-deleted item keeps its place and its code in the store; creating
 * an item with that code again revives it.
 */
module ItemManagementService {
  import opened Common
  import opened Documents
  import opened MasterData
  import opened Repositories
  import PriceManagementService

  datatype CreateItemRequest = CreateItemRequest(
    itemCode: string,
    description: string,
    classification: Option<Classification>,   // None: not "Good" or "Service"
    notes: Option<string>,
    initialPrice: Option<real>,
    currency: Option<Currency>)

  datatype UpdateItemRequest = UpdateItemRequest(description: string)

  /** The two stores an item creation writes to. */
  datatype Catalogue = Catalogue(items: seq<Item>, prices: map<string, ConsumableItemPriceDocument>)

  /** The stores after a request, and its response. */
  datatype Effect = Effect(after: Catalogue, response: Result<Item>)

  /**
   * The catalogue's integrity: unique item codes, and every reference price
   * stored under its own code and belonging to a stored item.
   */
  predicate ValidCatalogue(c: Catalogue)
  {
    && DistinctItemCodes(c.items)
    && (forall code | code in c.prices :: c.prices[code].itemCode == code && ItemIndexByCode(c.items, code).Some?)
  }

  function NewItem(user: CurrentUser, now: Instant, request: CreateItemRequest, classification: Classification,
                   itemId: string): Item
  {
    Item(itemId, request.itemCode, request.description, classification, request.notes,
         true, false, None, None, now, user.username, Some(now), Some(user.username))
  }

  /** A soft-deleted item brought back with the request's description, classification and notes. */
  function Revived(existing: Item, user: CurrentUser, now: Instant, request: CreateItemRequest,
                   classification: Classification): Item
  {
    existing.(description := request.description, classification := classification, notes := request.notes,
              isDeleted := false, deletedAtUtc := None, deletedBy := None,
              modifiedAtUtc := Some(now), modifiedBy := Some(user.username))
  }

  /** Whether the request asks for a first reference price. */
  predicate WantsPrice(request: CreateItemRequest)
  {
    request.initialPrice.Some? && request.initialPrice.value > 0.0
  }

  function InitialPrice(user: CurrentUser, now: Instant, request: CreateItemRequest, priceId: string)
    : ConsumableItemPriceDocument
    requires WantsPrice(request)
  {
    PriceManagementService.FirstPrice(priceId, request.itemCode, request.currency.GetOr(USD),
                                      request.initialPrice.value, now, user.username)
  }

  /**
   * CreateItemAsync once the stored item with the code has been looked up:
   * a live one is a Validation error, a deleted one is revived in place
   * (any initial price is ignored), and with none a new item is appended,
   * with its first price when one is asked for.
   */
  function CreateFrom(existing: Option<nat>, user: CurrentUser, now: Instant, cat: Catalogue,
                      request: CreateItemRequest, itemId: string, priceId: string): Effect
    requires existing.Some? ==> existing.value < |cat.items|
  {
    match request.classification
    case None => Effect(cat, Err(Validation))
    case Some(classification) =>
      match existing
      case Some(k) =>
        if !cat.items[k].isDeleted then Effect(cat, Err(Validation))
        else
          var item := Revived(cat.items[k], user, now, request, classification);
          Effect(Catalogue(cat.items[k := item], cat.prices), Ok(item))
      case None =>
        var item := NewItem(user, now, request, classification, itemId);
        var prices := if WantsPrice(request) then cat.prices[request.itemCode := InitialPrice(user, now, request, priceId)]
                      else cat.prices;
        Effect(Catalogue(cat.items + [item], prices), Ok(item))
  }

  /** CreateItemAsync: the existing item is looked up among all stored items, deleted ones included. */
  function CreateItemSpec(user: CurrentUser, now: Instant, cat: Catalogue, request: CreateItemRequest,
                          itemId: string, priceId: string): Effect
  {
    CreateFrom(ItemIndexByCode(cat.items, request.itemCode), user, now, cat, request, itemId, priceId)
  }

  /**
   * CreateItemAsync over a query by code that skips soft-deleted items, as
   * the catalogue's repository answers it.  The insert goes to a collection
   * whose unique index on codes refuses a second item with a stored code.
   */
  function CreateItemAsWritten(user: CurrentUser, now: Instant, cat: Catalogue, request: CreateItemRequest,
                               itemId: string, priceId: string): Effect
  {
    var e := CreateFrom(LiveItemIndexByCode(cat.items, request.itemCode), user, now, cat, request, itemId, priceId);
    if e.response.Ok? && !DistinctItemCodes(e.after.items) then Effect(cat, Err(DuplicateKey)) else e
  }

  /**
   * Over a query that skips deleted items, creating a code held by a
   * soft-deleted item never revives it: the create path inserts a second
   * item with the code, the unique index refuses it with a duplicate-key
   * error, nothing is written and the deleted item stays deleted.
   */
  lemma CreateItemAsWrittenDuplicatesCode(user: CurrentUser, now: Instant, cat: Catalogue, request: CreateItemRequest,
                                          itemId: string, priceId: string, k: nat)
    requires DistinctItemCodes(cat.items)
    requires k < |cat.items| && cat.items[k].itemCode == request.itemCode && cat.items[k].isDeleted
    requires request.classification.Some?
    ensures var e := CreateItemAsWritten(user, now, cat, request, itemId, priceId);
            && e.response == Err(DuplicateKey)
            && e.after == cat
            && e.after.items[k].isDeleted
  {
    assert LiveItemIndexByCode(cat.items, request.itemCode).None?;
    var created := CreateFrom(None, user, now, cat, request, itemId, priceId);
    var s := created.after.items;
    assert s == cat.items + [NewItem(user, now, request, request.classification.value, itemId)];
    assert s[k].itemCode == s[|cat.items|].itemCode;
    assert !DistinctItemCodes(s);
  }

  /**
   * Creating an item over a soft-deleted one revives it: it keeps its id,
   * its place and its creation stamp, takes the request's description,
   * classification and notes and is no longer deleted; no item is added
   * and no price is written.
   */
  lemma CreateItemRevives(user: CurrentUser, now: Instant, cat: Catalogue, request: CreateItemRequest,
                          itemId: string, priceId: string, k: nat)
    requires DistinctItemCodes(cat.items)
    requires k < |cat.items| && cat.items[k].itemCode == request.itemCode && cat.items[k].isDeleted
    requires request.classification.Some?
    ensures var e := CreateItemSpec(user, now, cat, request, itemId, priceId);
            && e.response.Ok?
            && var item := e.response.value;
            && item.id == cat.items[k].id && item.itemCode == request.itemCode
            && item.createdAtUtc == cat.items[k].createdAtUtc && item.createdBy == cat.items[k].createdBy
            && item.description == request.description && item.classification == request.classification.value
            && item.notes == request.notes && !item.isDeleted && item.deletedAtUtc.None? && item.deletedBy.None?
            && item.modifiedAtUtc == Some(now) && item.modifiedBy == Some(user.username)
            && e.after == Catalogue(cat.items[k := item], cat.prices)
  {
    assert ItemIndexByCode(cat.items, request.itemCode) == Some(k);
  }

  /**
   * Creating succeeds exactly when the classification parses and no live
   * item has the code; every refusal is a Validation error and writes
   * nothing.
   */
  lemma CreateItemSucceedsIff(user: CurrentUser, now: Instant, cat: Catalogue, request: CreateItemRequest,
                              itemId: string, priceId: string)
    requires DistinctItemCodes(cat.items)
    ensures var e := CreateItemSpec(user, now, cat, request, itemId, priceId);
            && (e.response.Ok? <==> && request.classification.Some?
                                    && forall k | 0 <= k < |cat.items| ::
                                         cat.items[k].itemCode == request.itemCode ==> cat.items[k].isDeleted)
            && (e.response.Err? ==> e.response.error == Validation && e.after == cat)
  {
  }

  /**
   * Creating a new code appends one active, undeleted item stamped with the
   * caller and the time; a first reference price in the request's currency
   * (USD by default), with an empty history, is stored exactly when a
   * positive initial price is given.
   */
  lemma CreateItemAppends(user: CurrentUser, now: Instant, cat: Catalogue, request: CreateItemRequest,
                          itemId: string, priceId: string)
    requires ItemIndexByCode(cat.items, request.itemCode).None?
    requires request.classification.Some?
    ensures var e := CreateItemSpec(user, now, cat, request, itemId, priceId);
            && e.response.Ok?
            && var item := e.response.value;
            && e.after.items == cat.items + [item]
            && item.id == itemId && item.itemCode == request.itemCode && item.description == request.description
            && item.classification == request.classification.value && item.notes == request.notes
            && item.isActive && !item.isDeleted && item.createdAtUtc == now && item.createdBy == user.username
            && (WantsPrice(request) ==>
                  && request.itemCode in e.after.prices
                  && e.after.prices == cat.prices[request.itemCode := e.after.prices[request.itemCode]]
                  && e.after.prices[request.itemCode].latestPrice == request.initialPrice.value
                  && e.after.prices[request.itemCode].currency == request.currency.GetOr(USD)
                  && e.after.prices[request.itemCode].history == [])
            && (!WantsPrice(request) ==> e.after.prices == cat.prices)
  {
  }

  /** Codes held before an append or an in-place replacement with the same code are still held after it. */
  lemma CodesSurvive(items: seq<Item>, k: nat, item: Item)
    ensures forall code | ItemIndexByCode(items, code).Some? :: ItemIndexByCode(items + [item], code).Some?
    ensures ItemIndexByCode(items + [item], item.itemCode).Some?
    ensures k < |items| && items[k].itemCode == item.itemCode ==>
              forall code | ItemIndexByCode(items, code).Some? :: ItemIndexByCode(items[k := item], code).Some?
  {
    var s := items + [item];
    forall code | ItemIndexByCode(items, code).Some? ensures ItemIndexByCode(s, code).Some? {
      assert s[ItemIndexByCode(items, code).value].itemCode == code;
    }
    assert s[|items|].itemCode == item.itemCode;
    if k < |items| && items[k].itemCode == item.itemCode {
      var r := items[k := item];
      forall code | ItemIndexByCode(items, code).Some? ensures ItemIndexByCode(r, code).Some? {
        assert r[ItemIndexByCode(items, code).value].itemCode == code;
      }
    }
  }

  /** Appending an item with a new code, and perhaps its price, keeps the catalogue valid. */
  lemma AppendKeepsCatalogueValid(cat: Catalogue, item: Item, wantsPrice: bool, price: ConsumableItemPriceDocument)
    requires ValidCatalogue(cat) && ItemIndexByCode(cat.items, item.itemCode).None?
    requires price.itemCode == item.itemCode
    ensures ValidCatalogue(Catalogue(cat.items + [item], if wantsPrice then cat.prices[item.itemCode := price] else cat.prices))
  {
    CodesSurvive(cat.items, 0, item);
    var s := cat.items + [item];
    forall i, j | 0 <= i < j < |s| ensures s[i].itemCode != s[j].itemCode {
      if j == |cat.items| {
        assert s[i] == cat.items[i];
      }
    }
  }

  /** Replacing an item in place by one with the same code keeps the catalogue valid. */
  lemma ReplaceKeepsCatalogueValid(cat: Catalogue, k: nat, item: Item)
    requires ValidCatalogue(cat) && k < |cat.items| && cat.items[k].itemCode == item.itemCode
    ensures ValidCatalogue(Catalogue(cat.items[k := item], cat.prices))
  {
    CodesSurvive(cat.items, k, item);
  }

  /** Every creation keeps codes unique and every price attached to a stored item. */
  lemma CreateItemKeepsCatalogueValid(user: CurrentUser, now: Instant, cat: Catalogue, request: CreateItemRequest,
                                      itemId: string, priceId: string)
    requires ValidCatalogue(cat)
    ensures ValidCatalogue(CreateItemSpec(user, now, cat, request, itemId, priceId).after)
  {
    var e := CreateItemSpec(user, now, cat, request, itemId, priceId);
    if e.response.Ok? {
      var classification := request.classification.value;
      match ItemIndexByCode(cat.items, request.itemCode)
      case None =>
        var item := NewItem(user, now, request, classification, itemId);
        var wants := WantsPrice(request);
        var price := if wants then InitialPrice(user, now, request, priceId)
                     else PriceManagementService.FirstPrice(priceId, request.itemCode, USD, 0.0, now, user.username);
        AppendKeepsCatalogueValid(cat, item, wants, price);
        assert e.after == Catalogue(cat.items + [item], if wants then cat.prices[item.itemCode := price] else cat.prices);
      case Some(k) =>
        var item := Revived(cat.items[k], user, now, request, classification);
        ReplaceKeepsCatalogueValid(cat, k, item);
        assert e.after == Catalogue(cat.items[k := item], cat.prices);
    }
  }

  method CreateItem(user: CurrentUser, now: Instant, items: ItemStore, prices: PriceStore,
                    request: CreateItemRequest, itemId: string, priceId: string)
    returns (r: Result<Item>)
    requires items.Valid()
    modifies items, prices
    ensures items.Valid()
    ensures var e := CreateItemSpec(user, now, Catalogue(old(items.items), old(prices.docs)), request, itemId, priceId);
            r == e.response && items.items == e.after.items && prices.docs == e.after.prices
  {
    if request.classification.None? {
      return Err(Validation);
    }
    var classification := request.classification.value;
    match ItemIndexByCode(items.items, request.itemCode) {
      case Some(k) =>
        if !items.items[k].isDeleted {
          return Err(Validation);
        }
        var item := Revived(items.items[k], user, now, request, classification);
        items.Update(item);
        return Ok(item);
      case None =>
        var item := NewItem(user, now, request, classification, itemId);
        items.Create(item);
        if WantsPrice(request) {
          prices.Save(InitialPrice(user, now, request, priceId));
        }
        return Ok(item);
    }
  }

  /** The item after UpdateItemAsync: only its description and modification stamp change. */
  function UpdateItemSpec(user: CurrentUser, now: Instant, items: seq<Item>, itemCode: string,
                          request: UpdateItemRequest): Result<Item>
  {
    match ItemIndexByCode(items, itemCode)
    case None => Err(NotFound)
    case Some(k) =>
      if items[k].isDeleted then Err(Validation)
      else Ok(items[k].(description := request.description,
                        modifiedAtUtc := Some(now), modifiedBy := Some(user.username)))
  }

  /** The item after DeleteItemAsync: marked deleted by the caller at the time. */
  function DeleteItemSpec(user: CurrentUser, now: Instant, items: seq<Item>, itemCode: string): Result<Item>
  {
    match ItemIndexByCode(items, itemCode)
    case None => Err(NotFound)
    case Some(k) =>
      if items[k].isDeleted then Err(Validation)
      else Ok(items[k].(isDeleted := true, deletedAtUtc := Some(now), deletedBy := Some(user.username),
                        modifiedAtUtc := Some(now), modifiedBy := Some(user.username)))
  }

  method UpdateItem(user: CurrentUser, now: Instant, items: ItemStore, itemCode: string, request: UpdateItemRequest)
    returns (r: Result<Item>)
    requires items.Valid()
    modifies items
    ensures items.Valid()
    ensures r == UpdateItemSpec(user, now, old(items.items), itemCode, request)
    ensures match r
            case Ok(item) => items.items == old(items.items)[ItemIndexByCode(old(items.items), itemCode).value := item]
            case Err(_) => items.items == old(items.items)
  {
    match ItemIndexByCode(items.items, itemCode) {
      case None =>
        return Err(NotFound);
      case Some(k) =>
        if items.items[k].isDeleted {
          return Err(Validation);
        }
        var item := items.items[k].(description := request.description,
                                    modifiedAtUtc := Some(now), modifiedBy := Some(user.username));
        items.Update(item);
        return Ok(item);
    }
  }

  method DeleteItem(user: CurrentUser, now: Instant, items: ItemStore, itemCode: string)
    returns (r: Result<Item>)
    requires items.Valid()
    modifies items
    ensures items.Valid()
    ensures r == DeleteItemSpec(user, now, old(items.items), itemCode)
    ensures match r
            case Ok(item) => items.items == old(items.items)[ItemIndexByCode(old(items.items), itemCode).value := item]
            case Err(_) => items.items == old(items.items)
  {
    match ItemIndexByCode(items.items, itemCode) {
      case None =>
        return Err(NotFound);
      case Some(k) =>
        if items.items[k].isDeleted {
          return Err(Validation);
        }
        var item := items.items[k].(isDeleted := true, deletedAtUtc := Some(now), deletedBy := Some(user.username),
                                    modifiedAtUtc := Some(now), modifiedBy := Some(user.username));
        items.Update(item);
        return Ok(item);
    }
  }

  /**
   * Updating an unknown code is NotFound and a deleted item a Validation
   * error.  Otherwise the item keeps its id, code, classification, notes,
   * activity and deletion state and its creation stamp, takes the new
   * description and records the caller and time.
   */
  lemma UpdateItemOutcome(user: CurrentUser, now: Instant, items: seq<Item>, itemCode: string,
                          request: UpdateItemRequest)
    requires DistinctItemCodes(items)
    ensures var r := UpdateItemSpec(user, now, items, itemCode, request);
            && (r == Err(NotFound) <==> forall k | 0 <= k < |items| :: items[k].itemCode != itemCode)
            && (r == Err(Validation) <==> exists k | 0 <= k < |items| :: items[k].itemCode == itemCode && items[k].isDeleted)
            && (r.Ok? ==> var before := items[ItemIndexByCode(items, itemCode).value];
                          && r.value.description == request.description
                          && r.value.id == before.id && r.value.itemCode == itemCode
                          && r.value.classification == before.classification && r.value.notes == before.notes
                          && r.value.isActive == before.isActive && !r.value.isDeleted
                          && r.value.createdAtUtc == before.createdAtUtc && r.value.createdBy == before.createdBy
                          && r.value.modifiedAtUtc == Some(now) && r.value.modifiedBy == Some(user.username))
  {
  }

  /**
   * Deleting an unknown code is NotFound and an already deleted item a
   * Validation error.  Otherwise the item keeps its place and everything
   * but its deletion and modification stamps; deleting, updating or
   * repricing it afterwards is refused with a Validation error.
   */
  lemma DeleteItemOutcome(user: CurrentUser, now: Instant, later: Instant, items: seq<Item>, itemCode: string,
                          request: UpdateItemRequest, prices: map<string, ConsumableItemPriceDocument>,
                          price: PriceManagementService.UpdateItemPriceRequest, priceId: string)
    requires DistinctItemCodes(items)
    ensures var r := DeleteItemSpec(user, now, items, itemCode);
            && (r == Err(NotFound) <==> forall k | 0 <= k < |items| :: items[k].itemCode != itemCode)
            && (r == Err(Validation) <==> exists k | 0 <= k < |items| :: items[k].itemCode == itemCode && items[k].isDeleted)
            && (r.Ok? ==> var k := ItemIndexByCode(items, itemCode).value;
                          var after := items[k := r.value];
                          && r.value == items[k].(isDeleted := true, deletedAtUtc := Some(now),
                                                  deletedBy := Some(user.username),
                                                  modifiedAtUtc := Some(now), modifiedBy := Some(user.username))
                          && DeleteItemSpec(user, later, after, itemCode) == Err(Validation)
                          && UpdateItemSpec(user, later, after, itemCode, request) == Err(Validation)
                          && PriceManagementService.UpdateItemPriceSpec(user, later, after, prices, itemCode, price, priceId)
                             == Err(Validation))
  {
    var r := DeleteItemSpec(user, now, items, itemCode);
    if r.Ok? {
      var k := ItemIndexByCode(items, itemCode).value;
      var after := items[k := r.value];
      assert forall j | 0 <= j < k :: after[j].itemCode != itemCode;
      assert after[k].itemCode == itemCode;
      assert ItemIndexByCode(after, itemCode) == Some(k);
    }
  }
}
