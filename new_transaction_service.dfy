/**
 * The transaction use cases: creating draft In, Out and Adjust transactions
 * with priced lines, committing a draft into the per-item stock summaries,
 * cancelling a draft, and the branch-scoped stock queries.
 *
 * The caller, the clock and the identity generator are parameters: `user`
 * is the authenticated caller, `now` the current time, and generated ids
 * arrive as `lineIds(i)` for the i-th line, `newSummaryIds(i)` for the
 * summary of the i-th item group, and as explicit arguments otherwise.
 */
module NewTransactionService {
  import opened Common
  import opened TransactionLines
  import opened Summaries
  import opened Documents
  import opened MasterData
  import opened Repositories
  import opened StockAvailability
  import Transactions
  import SummaryMapper
  import TransactionMapper
  import Sequences

  // ---------------------------------------------------------------------
  // Branch scoping
  // ---------------------------------------------------------------------

  /**
   * The branch a write acts on.  An Admin must name a branch (a missing or
   * blank one is a validation error) and gets it back.  Everybody else acts
   * on their own branch whatever they asked for, and is unauthorised when
   * their account has no branch or their branch no code.
   */
  function ValidateBranchAccess(user: CurrentUser, branchCode: Option<string>): (r: Result<string>)
    ensures user.role == Admin ==> (r.Ok? <==> !IsNullOrWhiteSpace(branchCode))
    ensures user.role == Admin && r.Ok? ==> Some(r.value) == branchCode
    ensures user.role == Admin && r.Err? ==> r.error == Validation
    ensures user.role != Admin ==> (r.Ok? <==> user.branchId.Some? && user.branchCode.Some?)
    ensures user.role != Admin && r.Ok? ==> Some(r.value) == user.branchCode
    ensures user.role != Admin && r.Err? ==> r.error == Unauthorized
  {
    if user.role == Admin then
      if IsNullOrWhiteSpace(branchCode) then Err(Validation) else Ok(branchCode.value)
    else if user.branchId.None? then Err(Unauthorized)
    else if user.branchCode.None? then Err(Unauthorized)
    else Ok(user.branchCode.value)
  }

  /**
   * The branch a query reads: an Admin's argument passes through unchanged,
   * None meaning every branch; others are scoped as for writes.
   */
  function ValidateBranchAccessForQuery(user: CurrentUser, branchCode: Option<string>): (r: Result<Option<string>>)
    ensures user.role == Admin ==> r == Ok(branchCode)
    ensures user.role != Admin ==> (r.Ok? <==> user.branchId.Some? && user.branchCode.Some?)
    ensures user.role != Admin && r.Ok? ==> r.value == user.branchCode
    ensures user.role != Admin && r.Err? ==> r.error == Unauthorized
  {
    if user.role == Admin then Ok(branchCode)
    else if user.branchId.None? then Err(Unauthorized)
    else if user.branchCode.None? then Err(Unauthorized)
    else Ok(user.branchCode)
  }

  /** What a non-Admin asks for makes no difference to either check. */
  lemma NonAdminIgnoresRequestedBranch(user: CurrentUser, a: Option<string>, b: Option<string>)
    requires user.role != Admin
    ensures ValidateBranchAccess(user, a) == ValidateBranchAccess(user, b)
    ensures ValidateBranchAccessForQuery(user, a) == ValidateBranchAccessForQuery(user, b)
  {
  }

  /**
   * Whoever may write to a branch may read it, and reads the same branch;
   * the converse fails only for an Admin naming no branch, who may read all
   * branches but write to none.
   */
  lemma WriteAccessImpliesQueryAccess(user: CurrentUser, branchCode: Option<string>)
    ensures ValidateBranchAccess(user, branchCode).Ok? ==>
              ValidateBranchAccessForQuery(user, branchCode) == Ok(Some(ValidateBranchAccess(user, branchCode).value))
    ensures (ValidateBranchAccessForQuery(user, branchCode).Ok? && ValidateBranchAccess(user, branchCode).Err?)
        <==> (user.role == Admin && IsNullOrWhiteSpace(branchCode))
  {
  }

  // ---------------------------------------------------------------------
  // Price resolution
  // ---------------------------------------------------------------------

  datatype PriceQuote = PriceQuote(unitPrice: real, currency: Currency, priceSource: PriceSource)

  /** The reference price record of an item, if one is stored. */
  function ReferencePrice(prices: map<string, ConsumableItemPriceDocument>, itemCode: string)
    : Option<ConsumableItemPriceDocument>
  {
    if itemCode in prices then Some(prices[itemCode]) else None
  }

  /**
   * Pricing of In and Adjust lines, which is lenient: a manual price wins
   * (negative ones are invalid; the currency defaults to USD), then the
   * reference price, and without either the line is priced at 0 USD.
   */
  function ResolveInPrice(manualPrice: Option<real>, manualCurrency: Option<Currency>,
                          reference: Option<ConsumableItemPriceDocument>): (r: Result<PriceQuote>)
    ensures r.Err? <==> manualPrice.Some? && manualPrice.value < 0.0
    ensures r.Err? ==> r.error == Validation
    ensures manualPrice.Some? && r.Ok? ==> r.value == PriceQuote(manualPrice.value, manualCurrency.GetOr(USD), Manual)
    ensures manualPrice.None? && reference.Some? ==>
              r == Ok(PriceQuote(reference.value.latestPrice, reference.value.currency, ConsumableItemPrice))
    ensures manualPrice.None? && reference.None? ==> r == Ok(PriceQuote(0.0, USD, SystemDefault))
  {
    match manualPrice
    case Some(p) =>
      if p < 0.0 then Err(Validation) else Ok(PriceQuote(p, manualCurrency.GetOr(USD), Manual))
    case None =>
      match reference
      case Some(price) => Ok(PriceQuote(price.latestPrice, price.currency, ConsumableItemPrice))
      case None => Ok(PriceQuote(0.0, USD, SystemDefault))
  }

  /**
   * In and Adjust pricing never stops a line for want of a price, and with a
   * non-negative reference price every resolved price is non-negative.
   */
  lemma InPriceNeverMissing(manualPrice: Option<real>, manualCurrency: Option<Currency>,
                            reference: Option<ConsumableItemPriceDocument>)
    ensures ResolveInPrice(manualPrice, manualCurrency, reference).Err? ==>
              ResolveInPrice(manualPrice, manualCurrency, reference).error != Business
    ensures (reference.Some? ==> reference.value.latestPrice >= 0.0) &&
            ResolveInPrice(manualPrice, manualCurrency, reference).Ok? ==>
              ResolveInPrice(manualPrice, manualCurrency, reference).value.unitPrice >= 0.0
  {
  }

  /** A price for an Out line and the role recorded as having set it. */
  datatype OutQuote = OutQuote(quote: PriceQuote, priceSetByRole: string)

  /**
   * Pricing of Out lines: only an Admin or a Supervisor may give a manual
   * price (checked before its sign); otherwise the reference price is used,
   * recorded as set by "System", and without one the line cannot be sold.
   */
  function ResolveOutPrice(role: Role, manualPrice: Option<real>, manualCurrency: Option<Currency>,
                           reference: Option<ConsumableItemPriceDocument>): (r: Result<OutQuote>)
    ensures manualPrice.Some? && role != Admin && role != Supervisor ==> r == Err(Unauthorized)
    ensures manualPrice.Some? && (role == Admin || role == Supervisor) && manualPrice.value < 0.0 ==>
              r == Err(Validation)
    ensures manualPrice.Some? && (role == Admin || role == Supervisor) && manualPrice.value >= 0.0 ==>
              r == Ok(OutQuote(PriceQuote(manualPrice.value, manualCurrency.GetOr(USD), Manual), RoleName(role)))
    ensures manualPrice.None? && reference.Some? ==>
              r == Ok(OutQuote(PriceQuote(reference.value.latestPrice, reference.value.currency, ConsumableItemPrice),
                               "System"))
    ensures manualPrice.None? && reference.None? ==> r == Err(Business)
  {
    match manualPrice
    case Some(p) =>
      if role != Admin && role != Supervisor then Err(Unauthorized)
      else if p < 0.0 then Err(Validation)
      else Ok(OutQuote(PriceQuote(p, manualCurrency.GetOr(USD), Manual), RoleName(role)))
    case None =>
      match reference
      case Some(price) => Ok(OutQuote(PriceQuote(price.latestPrice, price.currency, ConsumableItemPrice), "System"))
      case None => Err(Business)
  }

  /**
   * An Out line is priced manually only by an Admin or a Supervisor, and
   * then carries that role; otherwise it carries the reference price.
   */
  lemma OutManualPriceOnlyByPrivilegedRoles(role: Role, manualPrice: Option<real>, manualCurrency: Option<Currency>,
                                            reference: Option<ConsumableItemPriceDocument>)
    requires ResolveOutPrice(role, manualPrice, manualCurrency, reference).Ok?
    ensures var q := ResolveOutPrice(role, manualPrice, manualCurrency, reference).value;
      && (q.quote.priceSource == Manual <==> manualPrice.Some?)
      && (q.quote.priceSource == Manual ==> (role == Admin || role == Supervisor) && q.priceSetByRole == RoleName(role))
      && (q.quote.priceSource != Manual ==>
            reference.Some? && q.quote.unitPrice == reference.value.latestPrice && q.priceSetByRole == "System")
  {
  }

  // ---------------------------------------------------------------------
  // Building lines
  // ---------------------------------------------------------------------

  /**
   * One requested line.  The condition is None when the text did not parse;
   * for an Adjust line the quantity is the new absolute quantity.
   */
  datatype LineRequest = LineRequest(
    itemCode: string,
    condition: Option<ItemCondition>,
    quantity: int,
    unitPrice: Option<real>,
    currency: Option<Currency>,
    priceNotes: Option<string>)

  datatype CreateRequest = CreateRequest(
    branchCode: Option<string>,
    transactionDateUtc: Instant,
    notes: Option<string>,
    lines: seq<LineRequest>)

  /** In and Out need a positive quantity; an Adjust may set stock to zero. */
  predicate QuantityAccepted(transactionType: TransactionType, quantity: int)
  {
    if transactionType == Adjust then quantity >= 0 else quantity > 0
  }

  /**
   * A line built for a request: same item, condition and quantity, total =
   * quantity times unit price, and for In and Adjust an accepted quantity.
   */
  predicate Follows(transactionType: TransactionType, req: LineRequest, line: InventoryTransactionLine)
  {
    && line.itemCode == req.itemCode
    && Some(line.condition) == req.condition
    && line.quantity == req.quantity
    && line.lineTotal == line.quantity as real * line.unitPrice
    && (transactionType != Out ==> QuantityAccepted(transactionType, line.quantity))
  }

  function MakeLine(lineId: string, item: Item, req: LineRequest, condition: ItemCondition,
                    quote: PriceQuote, priceSetByRole: string, user: CurrentUser, now: Instant)
    : (line: InventoryTransactionLine)
    ensures line.lineTotal == CalculateLineTotal(req.quantity, quote.unitPrice)
  {
    InventoryTransactionLine(
      lineId, item.id, req.itemCode, condition, req.quantity, quote.unitPrice, quote.currency,
      true, true, quote.priceSource, priceSetByRole, user.username,
      CalculateLineTotal(req.quantity, quote.unitPrice), None, req.priceNotes, now)
  }

  /**
   * One line, in the order the checks are made: the item must exist and not
   * be deleted; In and Adjust lines then need a condition and an accepted
   * quantity (an Out line had both checked before any line is built) and
   * are priced.  The line total is quantity times unit price; the tax and
   * fee flags keep their default (true) and no cost of goods is recorded.
   */
  function BuildLine(transactionType: TransactionType, user: CurrentUser, now: Instant, items: seq<Item>,
                     prices: map<string, ConsumableItemPriceDocument>, req: LineRequest, lineId: string)
    : (r: Result<InventoryTransactionLine>)
    ensures ItemIndexByCode(items, req.itemCode).None? ==> r == Err(NotFound)
    ensures r.Ok? ==> var line := r.value;
                      && (match ItemIndexByCode(items, req.itemCode)
                          case Some(k) => !items[k].isDeleted && line.itemId == items[k].id
                          case None => false)
                      && line.lineId == lineId
                      && line.isTaxable && line.appliesShopFee && line.costOfGoodsSold.None?
                      && line.priceSetByUser == user.username && line.executedAtUtc == now
                      && Follows(transactionType, req, line)
  {
    match ItemIndexByCode(items, req.itemCode)
    case None => Err(NotFound)
    case Some(k) => ItemLine(transactionType, user, now, items[k], prices, req, lineId)
  }

  /** The line for a request once its item is found: the item must not be deleted, then condition and quantity. */
  function ItemLine(transactionType: TransactionType, user: CurrentUser, now: Instant, item: Item,
                    prices: map<string, ConsumableItemPriceDocument>, req: LineRequest, lineId: string)
    : (r: Result<InventoryTransactionLine>)
    ensures r.Ok? ==> var line := r.value;
                      && !item.isDeleted && line.itemId == item.id && line.lineId == lineId
                      && line.isTaxable && line.appliesShopFee && line.costOfGoodsSold.None?
                      && line.priceSetByUser == user.username && line.executedAtUtc == now
                      && Follows(transactionType, req, line)
  {
    if item.isDeleted then Err(Validation)
    else
      match req.condition
      case None => if transactionType == Out then Err(InvalidArgument) else Err(Validation)
      case Some(condition) =>
        if transactionType != Out && !QuantityAccepted(transactionType, req.quantity) then Err(Validation)
        else PricedLine(transactionType, user, now, item, prices, req, condition, lineId)
  }

  /** The line once item, condition and quantity are accepted: priced, then made. */
  function PricedLine(transactionType: TransactionType, user: CurrentUser, now: Instant, item: Item,
                      prices: map<string, ConsumableItemPriceDocument>, req: LineRequest, condition: ItemCondition,
                      lineId: string)
    : (r: Result<InventoryTransactionLine>)
    ensures r.Ok? ==> && r.value.lineId == lineId && r.value.itemId == item.id && r.value.itemCode == req.itemCode
                      && r.value.condition == condition && r.value.quantity == req.quantity
                      && r.value.lineTotal == r.value.quantity as real * r.value.unitPrice
                      && r.value.isTaxable && r.value.appliesShopFee && r.value.costOfGoodsSold.None?
                      && r.value.priceSetByUser == user.username && r.value.executedAtUtc == now
  {
    if transactionType == Out then
      var q :- ResolveOutPrice(user.role, req.unitPrice, req.currency, ReferencePrice(prices, req.itemCode));
      Ok(MakeLine(lineId, item, req, condition, q.quote, q.priceSetByRole, user, now))
    else
      var q :- ResolveInPrice(req.unitPrice, req.currency, ReferencePrice(prices, req.itemCode));
      Ok(MakeLine(lineId, item, req, condition, q, RoleName(user.role), user, now))
  }

  /** Each requested line built on its own, in request order. */
  function LineResults(transactionType: TransactionType, user: CurrentUser, now: Instant, items: seq<Item>,
                       prices: map<string, ConsumableItemPriceDocument>, reqs: seq<LineRequest>,
                       lineIds: nat -> string): (rs: seq<Result<InventoryTransactionLine>>)
    ensures |rs| == |reqs|
  {
    seq(|reqs|, i requires 0 <= i < |reqs| =>
      BuildLine(transactionType, user, now, items, prices, reqs[i], lineIds(i)))
  }

  /**
   * All lines in request order, stopping at the first line that fails:
   * one line per request when every line builds, otherwise the first
   * failing line's error.
   */
  function BuildAll(transactionType: TransactionType, user: CurrentUser, now: Instant, items: seq<Item>,
                    prices: map<string, ConsumableItemPriceDocument>, reqs: seq<LineRequest>,
                    lineIds: nat -> string): Result<seq<InventoryTransactionLine>>
  {
    Collect(LineResults(transactionType, user, now, items, prices, reqs, lineIds))
  }

  /** The line-building loop: one priced line per request, or the first failure. */
  method BuildLines(transactionType: TransactionType, user: CurrentUser, now: Instant, items: seq<Item>,
                    prices: map<string, ConsumableItemPriceDocument>, reqs: seq<LineRequest>,
                    lineIds: nat -> string)
    returns (r: Result<seq<InventoryTransactionLine>>)
    ensures r == BuildAll(transactionType, user, now, items, prices, reqs, lineIds)
  {
    ghost var rs := LineResults(transactionType, user, now, items, prices, reqs, lineIds);
    var lines: seq<InventoryTransactionLine> := [];
    var i := 0;
    while i < |reqs|
      invariant 0 <= i <= |reqs| && |lines| == i
      invariant forall j | 0 <= j < i :: rs[j] == Ok(lines[j])
    {
      var line := BuildLine(transactionType, user, now, items, prices, reqs[i], lineIds(i));
      assert line == rs[i];
      if line.Err? {
        CollectFirstFailure(rs, i);
        return Err(line.error);
      }
      lines := lines + [line.value];
      i := i + 1;
    }
    CollectAllOk(rs, lines);
    return Ok(lines);
  }

  // ---------------------------------------------------------------------
  // The Out availability pre-check
  // ---------------------------------------------------------------------

  /** The entries stored for (branch, item); None when there is no summary. */
  function StoredEntries(summaries: map<SummaryKey, InventorySummaryDocument>, branchCode: string, itemCode: string)
    : Option<seq<InventoryEntry>>
  {
    var key := SummaryKey(branchCode, itemCode);
    if key in summaries then Some(SummaryMapper.ToEntryEntities(summaries[key].entries)) else None
  }

  /**
   * One Out line before anything is built: the condition must parse, the
   * quantity be positive and the stored available stock cover it.
   */
  function PrecheckLine(summaries: map<SummaryKey, InventorySummaryDocument>, branchCode: string, req: LineRequest)
    : (r: Outcome)
    ensures r == Pass <==> && req.condition.Some? && req.quantity > 0
                           && CheckEntries(StoredEntries(summaries, branchCode, req.itemCode),
                                           req.condition.value, req.quantity).isSufficient
    ensures r.Fail? ==> r.error == Validation || r.error == Business
  {
    match req.condition
    case None => Fail(Validation)
    case Some(condition) =>
      if req.quantity <= 0 then Fail(Validation)
      else if !CheckEntries(StoredEntries(summaries, branchCode, req.itemCode), condition, req.quantity).isSufficient
      then Fail(Business)
      else Pass
  }

  function PrecheckAll(summaries: map<SummaryKey, InventorySummaryDocument>, branchCode: string,
                       reqs: seq<LineRequest>): Outcome
    decreases |reqs|
  {
    if |reqs| == 0 then Pass
    else if PrecheckLine(summaries, branchCode, reqs[0]).Fail? then PrecheckLine(summaries, branchCode, reqs[0])
    else PrecheckAll(summaries, branchCode, reqs[1..])
  }

  /**
   * The pre-check passes exactly when every line passes on its own against
   * the stored stock: lines are not checked cumulatively.
   */
  lemma {:induction false} PrecheckIsPerLine(summaries: map<SummaryKey, InventorySummaryDocument>, branchCode: string,
                                             reqs: seq<LineRequest>)
    ensures PrecheckAll(summaries, branchCode, reqs) == Pass
        <==> forall i | 0 <= i < |reqs| :: PrecheckLine(summaries, branchCode, reqs[i]) == Pass
    decreases |reqs|
  {
    if |reqs| > 0 {
      PrecheckIsPerLine(summaries, branchCode, reqs[1..]);
      assert forall i | 1 <= i < |reqs| :: reqs[1..][i - 1] == reqs[i];
    }
  }

  /**
   * Two Out lines for the same stock, each within what is available but
   * together beyond it, both pass the pre-check.
   */
  lemma DuplicateOutLinesCheckedSeparately(summaries: map<SummaryKey, InventorySummaryDocument>, branchCode: string,
                                           a: LineRequest, b: LineRequest)
    requires PrecheckLine(summaries, branchCode, a) == Pass && PrecheckLine(summaries, branchCode, b) == Pass
    ensures PrecheckAll(summaries, branchCode, [a, b]) == Pass
  {
    PrecheckIsPerLine(summaries, branchCode, [a, b]);
  }

  /**
   * With five available, two Out lines of three for the same item and
   * condition both pass the pre-check, though together they take six.
   */
  lemma ExampleOverSellPassesPrecheck()
    ensures var entry := InventoryEntryDocument(New, 5, 0, 0);
            var summaries := map[SummaryKey("BR1", "T1") := InventorySummaryDocument("s1", "BR1", "T1", [entry], 5, 0, 1, 0)];
            var line := LineRequest("T1", Some(New), 3, None, None, None);
            && PrecheckAll(summaries, "BR1", [line, line]) == Pass
            && line.quantity + line.quantity > entry.onHand - entry.reserved
  {
    var entry := InventoryEntryDocument(New, 5, 0, 0);
    var summaries := map[SummaryKey("BR1", "T1") := InventorySummaryDocument("s1", "BR1", "T1", [entry], 5, 0, 1, 0)];
    var line := LineRequest("T1", Some(New), 3, None, None, None);
    var entries := SummaryMapper.ToEntryEntities([entry]);
    assert StoredEntries(summaries, "BR1", "T1") == Some(entries);
    assert FindEntry(entries, New) == Some(0);
    DuplicateOutLinesCheckedSeparately(summaries, "BR1", line, line);
  }

  /** The pre-check loop: every Out line against its stored summary. */
  method PrecheckOut(summaries: SummaryStore, branchCode: string, reqs: seq<LineRequest>) returns (outcome: Outcome)
    ensures outcome == PrecheckAll(summaries.docs, branchCode, reqs)
  {
    var i := 0;
    while i < |reqs|
      invariant 0 <= i <= |reqs|
      invariant PrecheckAll(summaries.docs, branchCode, reqs) == PrecheckAll(summaries.docs, branchCode, reqs[i..])
    {
      var req := reqs[i];
      assert reqs[i..][0] == req && reqs[i..][1..] == reqs[i + 1..];
      if req.condition.None? {
        return Fail(Validation);
      }
      if req.quantity <= 0 {
        return Fail(Validation);
      }
      var check: StockCheckResult;
      match summaries.GetByKey(branchCode, req.itemCode) {
        case None =>
          check := CheckAvailability(null, req.condition.value, req.quantity);
        case Some(d) =>
          var summary := SummaryMapper.ToEntity(d);
          check := CheckAvailability(summary, req.condition.value, req.quantity);
      }
      if !check.isSufficient {
        return Fail(Business);
      }
      i := i + 1;
    }
    return Pass;
  }

  // ---------------------------------------------------------------------
  // Creating drafts
  // ---------------------------------------------------------------------

  function NumberPrefix(transactionType: TransactionType): string
  {
    match transactionType
    case In => "IN"
    case Out => "OUT"
    case Adjust => "ADJ"
  }

  /**
   * "<prefix>-<date stamp>-<token>", the date stamp being the current day as
   * yyyyMMdd and the token the upper-cased start of a generated id.
   */
  function TransactionNumber(transactionType: TransactionType, dateStamp: string, token: string): (n: string)
    ensures NumberPrefix(transactionType) + "-" <= n
  {
    NumberPrefix(transactionType) + "-" + dateStamp + "-" + token
  }

  /** The stored form of a new draft. */
  function DraftDocument(transactionType: TransactionType, user: CurrentUser, now: Instant, branchCode: string,
                         request: CreateRequest, lines: seq<InventoryTransactionLine>, number: string, id: string)
    : InventoryTransactionDocument
  {
    InventoryTransactionDocument(
      id, number, branchCode, transactionType, Draft, request.transactionDateUtc, request.notes,
      None, None, None, TransactionMapper.ToLineDocuments(lines),
      now, user.username, Some(now), Some(user.username))
  }

  /**
   * Creating a draft: the branch is checked first; an Out transaction then
   * has every line pre-checked before any line is built; then the lines are
   * built in order.
   */
  function CreateSpec(transactionType: TransactionType, user: CurrentUser, now: Instant, items: seq<Item>,
                      prices: map<string, ConsumableItemPriceDocument>,
                      summaries: map<SummaryKey, InventorySummaryDocument>, request: CreateRequest,
                      lineIds: nat -> string, dateStamp: string, token: string, transactionId: string)
    : Result<InventoryTransactionDocument>
  {
    var branchCode :- ValidateBranchAccess(user, request.branchCode);
    var precheck := if transactionType == Out then PrecheckAll(summaries, branchCode, request.lines) else Pass;
    if precheck.Fail? then Err(precheck.error)
    else
      var lines :- BuildAll(transactionType, user, now, items, prices, request.lines, lineIds);
      Ok(DraftDocument(transactionType, user, now, branchCode, request, lines,
                       TransactionNumber(transactionType, dateStamp, token), transactionId))
  }

  /**
   * CreateIn/CreateOut/CreateAdjust: the draft is stored under its id and
   * returned; on any failure nothing is stored.
   */
  method CreateTransaction(transactionType: TransactionType, user: CurrentUser, now: Instant,
                           items: ItemStore, prices: PriceStore, summaries: SummaryStore,
                           transactions: TransactionStore, request: CreateRequest,
                           lineIds: nat -> string, dateStamp: string, token: string, transactionId: string)
    returns (r: Result<InventoryTransactionDocument>)
    modifies transactions
    ensures r == CreateSpec(transactionType, user, now, items.items, prices.docs, summaries.docs, request,
                            lineIds, dateStamp, token, transactionId)
    ensures r.Ok? ==> transactions.docs == old(transactions.docs)[transactionId := r.value]
    ensures r.Err? ==> transactions.docs == old(transactions.docs)
  {
    var access := ValidateBranchAccess(user, request.branchCode);
    if access.Err? {
      return Err(access.error);
    }
    var branchCode := access.value;
    if transactionType == Out {
      var precheck := PrecheckOut(summaries, branchCode, request.lines);
      if precheck.Fail? {
        return Err(precheck.error);
      }
    }
    var built := BuildLines(transactionType, user, now, items.items, prices.docs, request.lines, lineIds);
    if built.Err? {
      return Err(built.error);
    }
    var transaction := new Transactions.InventoryTransaction(
      transactionId, TransactionNumber(transactionType, dateStamp, token), branchCode, transactionType, Draft,
      request.transactionDateUtc, request.notes, None, None, None, built.value,
      now, user.username, Some(now), Some(user.username));
    var d := TransactionMapper.ToDocument(transaction);
    transactions.Save(d);
    return Ok(d);
  }

  /**
   * Built lines follow the requests one for one, in order: same item,
   * condition and quantity, total = quantity times unit price, and (for In
   * and Adjust) an accepted quantity.
   */
  lemma BuiltLinesShape(transactionType: TransactionType, user: CurrentUser, now: Instant, items: seq<Item>,
                        prices: map<string, ConsumableItemPriceDocument>, reqs: seq<LineRequest>,
                        lineIds: nat -> string)
    requires BuildAll(transactionType, user, now, items, prices, reqs, lineIds).Ok?
    ensures var ls := BuildAll(transactionType, user, now, items, prices, reqs, lineIds).value;
      |ls| == |reqs| && forall i | 0 <= i < |ls| :: Follows(transactionType, reqs[i], ls[i])
  {
    var rs := LineResults(transactionType, user, now, items, prices, reqs, lineIds);
    var ls := Collect(rs).value;
    forall i | 0 <= i < |ls|
      ensures Follows(transactionType, reqs[i], ls[i])
    {
      var r := rs[i];
      assert r == BuildLine(transactionType, user, now, items, prices, reqs[i], lineIds(i));
      assert r.Ok? && ls[i] == r.value;
    }
  }

  /**
   * A created transaction is a Draft of the requested type in the checked
   * branch, numbered with its type's prefix, with one line per requested
   * line in order, each following its request (same item, condition and
   * quantity, total = quantity times unit price).  In and Out quantities are
   * positive, Adjust ones not negative.
   */
  lemma CreatedDraftShape(transactionType: TransactionType, user: CurrentUser, now: Instant, items: seq<Item>,
                          prices: map<string, ConsumableItemPriceDocument>,
                          summaries: map<SummaryKey, InventorySummaryDocument>, request: CreateRequest,
                          lineIds: nat -> string, dateStamp: string, token: string, transactionId: string)
    requires CreateSpec(transactionType, user, now, items, prices, summaries, request,
                        lineIds, dateStamp, token, transactionId).Ok?
    ensures var d := CreateSpec(transactionType, user, now, items, prices, summaries, request,
                                lineIds, dateStamp, token, transactionId).value;
      && d.status == Draft && d.transactionType == transactionType && d.id == transactionId
      && ValidateBranchAccess(user, request.branchCode) == Ok(d.branchCode)
      && NumberPrefix(transactionType) + "-" <= d.transactionNumber
      && d.committedAtUtc.None? && d.committedBy.None?
      && |d.lines| == |request.lines|
      && forall i | 0 <= i < |d.lines| ::
           && Follows(transactionType, request.lines[i], TransactionMapper.ToLineEntity(d.lines[i]))
           && QuantityAccepted(transactionType, d.lines[i].quantity)
  {
    var branchCode := ValidateBranchAccess(user, request.branchCode).value;
    var lines := BuildAll(transactionType, user, now, items, prices, request.lines, lineIds).value;
    var d := DraftDocument(transactionType, user, now, branchCode, request, lines,
                           TransactionNumber(transactionType, dateStamp, token), transactionId);
    assert CreateSpec(transactionType, user, now, items, prices, summaries, request,
                      lineIds, dateStamp, token, transactionId).value == d;
    BuiltLinesShape(transactionType, user, now, items, prices, request.lines, lineIds);
    TransactionMapper.LinesRoundTrip(lines, []);
    assert TransactionMapper.ToLineEntities(d.lines) == lines;
    forall i | 0 <= i < |d.lines|
      ensures Follows(transactionType, request.lines[i], TransactionMapper.ToLineEntity(d.lines[i]))
      ensures QuantityAccepted(transactionType, d.lines[i].quantity)
    {
      assert TransactionMapper.ToLineEntity(d.lines[i]) == lines[i];
      if transactionType == Out {
        PrecheckIsPerLine(summaries, branchCode, request.lines);
        assert PrecheckLine(summaries, branchCode, request.lines[i]) == Pass;
      }
    }
  }

  /**
   * An Out transaction whose pre-check fails is refused with that failure,
   * before any item is looked up or any price resolved.
   */
  lemma OutPrecheckComesFirst(user: CurrentUser, now: Instant, items: seq<Item>,
                              prices: map<string, ConsumableItemPriceDocument>,
                              summaries: map<SummaryKey, InventorySummaryDocument>, request: CreateRequest,
                              lineIds: nat -> string, dateStamp: string, token: string, transactionId: string)
    requires ValidateBranchAccess(user, request.branchCode).Ok?
    requires PrecheckAll(summaries, ValidateBranchAccess(user, request.branchCode).value, request.lines).Fail?
    ensures CreateSpec(Out, user, now, items, prices, summaries, request, lineIds, dateStamp, token, transactionId)
         == Err(PrecheckAll(summaries, ValidateBranchAccess(user, request.branchCode).value, request.lines).error)
  {
  }

  // ---------------------------------------------------------------------
  // Committing a draft
  // ---------------------------------------------------------------------

  function ItemCodes(lines: seq<InventoryTransactionLine>): (codes: seq<string>)
    ensures |codes| == |lines| && forall i | 0 <= i < |lines| :: codes[i] == lines[i].itemCode
  {
    seq(|lines|, i requires 0 <= i < |lines| => lines[i].itemCode)
  }

  predicate NoDuplicates(codes: seq<string>)
  {
    forall i, j | 0 <= i < j < |codes| :: codes[i] != codes[j]
  }

  /**
   * A stored summary after the transaction's lines for its item are applied
   * to it: new entries and totals, one version up, stamped with the current
   * time; an Out line that would take stock below zero refuses the whole
   * summary with NegativeStock.
   */
  function ApplyToDocument(d: InventorySummaryDocument, transactionType: TransactionType,
                           lines: seq<InventoryTransactionLine>, date: Instant, now: Instant)
    : (r: Result<InventorySummaryDocument>)
    ensures r.Ok? ==> && KeyOf(r.value) == KeyOf(d) && r.value.id == d.id
                      && r.value.version == d.version + 1 && r.value.updatedAtUtc == now
                      && r.value.onHandTotal == SumOnHand(SummaryMapper.ToEntryEntities(r.value.entries))
                      && r.value.reservedTotal == SumReserved(SummaryMapper.ToEntryEntities(r.value.entries))
    ensures r.Ok? ==>
              SummaryMapper.ToEntryEntities(r.value.entries)
              == ApplyLines(SummaryMapper.ToEntryEntities(d.entries), transactionType,
                            RelevantLines(lines, d.itemCode), date).entries
    ensures r.Err? ==> transactionType == Out && exists c :: r.error == NegativeStock(d.itemCode, c)
  {
    match ApplyLines(SummaryMapper.ToEntryEntities(d.entries), transactionType,
                     RelevantLines(lines, d.itemCode), date)
    case Rejected(_, condition) =>
      if transactionType != Out then
        OnlyOutIsRejected(SummaryMapper.ToEntryEntities(d.entries), transactionType,
                          RelevantLines(lines, d.itemCode), date);
        assert false;
        Err(NegativeStock(d.itemCode, condition))
      else Err(NegativeStock(d.itemCode, condition))
    case Applied(entries) =>
      SummaryMapper.EntriesRoundTrip(entries, []);
      Ok(InventorySummaryDocument(d.id, d.branchCode, d.itemCode, SummaryMapper.ToEntryDocuments(entries),
                                  SumOnHand(entries), SumReserved(entries), d.version + 1, now))
  }

  /** The summary a commit starts from for an item never stocked at the branch. */
  function FreshSummary(id: string, branchCode: string, itemCode: string, now: Instant): InventorySummaryDocument
  {
    InventorySummaryDocument(id, branchCode, itemCode, [], 0, 0, 0, now)
  }

  /** The summary a commit starts from: the staged one, or a fresh one. */
  function BaseSummary(staged: map<SummaryKey, InventorySummaryDocument>, branchCode: string, itemCode: string,
                       id: string, now: Instant): InventorySummaryDocument
  {
    var key := SummaryKey(branchCode, itemCode);
    if key in staged then staged[key] else FreshSummary(id, branchCode, itemCode, now)
  }

  /**
   * The summary writes of a commit, one item group after the other, each
   * read-apply-write going through the version-checked upsert on the
   * scope's staged copy; the first failure stops the commit.
   */
  function CommitGroups(staged: map<SummaryKey, InventorySummaryDocument>, branchCode: string, codes: seq<string>,
                        transactionType: TransactionType, lines: seq<InventoryTransactionLine>, date: Instant,
                        now: Instant, newSummaryIds: nat -> string, i: nat)
    : Result<map<SummaryKey, InventorySummaryDocument>>
    decreases |codes|
  {
    if |codes| == 0 then Ok(staged)
    else
      var base := BaseSummary(staged, branchCode, codes[0], newSummaryIds(i), now);
      var updated :- ApplyToDocument(base, transactionType, lines, date, now);
      var next :- UpsertWithVersionCheck(staged, updated);
      CommitGroups(next, branchCode, codes[1..], transactionType, lines, date, now, newSummaryIds, i + 1)
  }

  datatype CommitResult = CommitResult(summaries: map<SummaryKey, InventorySummaryDocument>,
                                       transaction: InventoryTransactionDocument)

  /** A draft's document once committed by the user at the given time. */
  function CommittedDocument(d: InventoryTransactionDocument, user: CurrentUser, now: Instant): InventoryTransactionDocument
  {
    d.(status := Committed, committedAtUtc := Some(now), committedBy := Some(user.username),
       modifiedAtUtc := Some(now), modifiedBy := Some(user.username))
  }

  /**
   * Committing a transaction: it must exist; the caller's branch access is
   * checked (its value is not compared with the transaction's branch); the
   * transaction must be a Draft; then every item group updates its summary.
   * On success the new summaries and the committed transaction are stored
   * together; any failure stores nothing.
   */
  function CommitSpec(summaries: map<SummaryKey, InventorySummaryDocument>,
                      transactions: map<string, InventoryTransactionDocument>, user: CurrentUser,
                      transactionId: string, now: Instant, newSummaryIds: nat -> string): Result<CommitResult>
  {
    if transactionId !in transactions then Err(NotFound)
    else
      var d := transactions[transactionId];
      var _ :- ValidateBranchAccess(user, Some(d.branchCode));
      if d.status != Draft then Err(NotDraft(d.status))
      else
        var lines := TransactionMapper.ToLineEntities(d.lines);
        var staged :- CommitGroups(summaries, d.branchCode, Sequences.Distinct(ItemCodes(lines)), d.transactionType,
                                   lines, d.transactionDateUtc, now, newSummaryIds, 0);
        Ok(CommitResult(staged, CommittedDocument(d, user, now)))
  }

  /**
   * One item group: the staged summary (or a fresh one) is loaded into an
   * aggregate, the transaction applied to it and the update time set.
   */
  method ApplyGroup(t: Transactions.InventoryTransaction, staged: map<SummaryKey, InventorySummaryDocument>,
                    itemCode: string, newId: string, now: Instant)
    returns (r: Result<InventorySummaryDocument>)
    ensures r == ApplyToDocument(BaseSummary(staged, t.branchCode, itemCode, newId, now),
                                 t.transactionType, t.lines, t.transactionDateUtc, now)
  {
    var summary: InventorySummary;
    var key := SummaryKey(t.branchCode, itemCode);
    if key in staged {
      summary := SummaryMapper.ToEntity(staged[key]);
    } else {
      summary := new InventorySummary(newId, t.branchCode, itemCode, [], 0, 0, 0, now);
      assert SummaryMapper.ToEntryEntities([]) == [];
    }
    ghost var base := BaseSummary(staged, t.branchCode, itemCode, newId, now);
    assert summary.entries == SummaryMapper.ToEntryEntities(base.entries);
    assert summary.id == base.id && summary.itemCode == base.itemCode && summary.version == base.version;
    ghost var spec := ApplyToDocument(base, t.transactionType, t.lines, t.transactionDateUtc, now);
    ghost var result := ApplyLines(SummaryMapper.ToEntryEntities(base.entries), t.transactionType,
                                   RelevantLines(t.lines, base.itemCode), t.transactionDateUtc);
    var applied := summary.ApplyTransaction(t);
    if applied.Fail? {
      assert result.Rejected? && spec == Err(NegativeStock(base.itemCode, result.condition));
      return Err(applied.error);
    }
    assert result.Applied? && summary.entries == result.entries;
    summary.updatedAtUtc := now;
    var d := SummaryMapper.ToDocument(summary);
    assert spec.Ok? && spec.value == d;
    return Ok(d);
  }

  /** One step of CommitGroups, for the loop that computes it. */
  lemma CommitGroupsStep(staged: map<SummaryKey, InventorySummaryDocument>, branchCode: string, codes: seq<string>,
                         transactionType: TransactionType, lines: seq<InventoryTransactionLine>, date: Instant,
                         now: Instant, newSummaryIds: nat -> string, i: nat, updated: Result<InventorySummaryDocument>)
    requires |codes| > 0
    requires updated == ApplyToDocument(BaseSummary(staged, branchCode, codes[0], newSummaryIds(i), now),
                                        transactionType, lines, date, now)
    ensures updated.Err? ==>
              CommitGroups(staged, branchCode, codes, transactionType, lines, date, now, newSummaryIds, i)
              == Err(updated.error)
    ensures updated.Ok? && UpsertWithVersionCheck(staged, updated.value).Err? ==>
              CommitGroups(staged, branchCode, codes, transactionType, lines, date, now, newSummaryIds, i)
              == Err(DuplicateKey)
    ensures updated.Ok? && UpsertWithVersionCheck(staged, updated.value).Ok? ==>
              CommitGroups(staged, branchCode, codes, transactionType, lines, date, now, newSummaryIds, i)
              == CommitGroups(UpsertWithVersionCheck(staged, updated.value).value, branchCode, codes[1..],
                              transactionType, lines, date, now, newSummaryIds, i + 1)
  {
  }

  /** The loop over item groups, on the scope's staged copy of the summaries. */
  method ApplyGroups(t: Transactions.InventoryTransaction, summaries: map<SummaryKey, InventorySummaryDocument>,
                     codes: seq<string>, now: Instant, newSummaryIds: nat -> string)
    returns (r: Result<map<SummaryKey, InventorySummaryDocument>>)
    ensures r == CommitGroups(summaries, t.branchCode, codes, t.transactionType, t.lines,
                              t.transactionDateUtc, now, newSummaryIds, 0)
  {
    var branchCode, transactionType, lines, date := t.branchCode, t.transactionType, t.lines, t.transactionDateUtc;
    var staged := summaries;
    var i := 0;
    while i < |codes|
      invariant 0 <= i <= |codes|
      invariant CommitGroups(summaries, branchCode, codes, transactionType, lines, date, now, newSummaryIds, 0)
             == CommitGroups(staged, branchCode, codes[i..], transactionType, lines, date, now, newSummaryIds, i)
    {
      assert codes[i..][0] == codes[i] && codes[i..][1..] == codes[i + 1..];
      var updated := ApplyGroup(t, staged, codes[i], newSummaryIds(i), now);
      CommitGroupsStep(staged, branchCode, codes[i..], transactionType, lines, date, now, newSummaryIds, i, updated);
      if updated.Err? {
        return Err(updated.error);
      }
      var cas := UpsertWithVersionCheck(staged, updated.value);
      if cas.Err? {
        return Err(cas.error);
      }
      staged := cas.value;
      i := i + 1;
    }
    return Ok(staged);
  }

  /**
   * Within one commit the version check never refuses a group's write: the
   * summary it read is the staged one (or there was none), and the write is
   * exactly one version later.
   */
  lemma GroupWriteGoesThrough(staged: map<SummaryKey, InventorySummaryDocument>, branchCode: string, itemCode: string,
                              transactionType: TransactionType, lines: seq<InventoryTransactionLine>, date: Instant,
                              now: Instant, newId: string)
    requires WellKeyed(staged)
    requires ApplyToDocument(BaseSummary(staged, branchCode, itemCode, newId, now), transactionType, lines, date, now).Ok?
    ensures var updated := ApplyToDocument(BaseSummary(staged, branchCode, itemCode, newId, now),
                                           transactionType, lines, date, now).value;
      && KeyOf(updated) == SummaryKey(branchCode, itemCode)
      && UpsertWithVersionCheck(staged, updated) == Ok(staged[SummaryKey(branchCode, itemCode) := updated])
      && WellKeyed(staged[SummaryKey(branchCode, itemCode) := updated])
  {
  }

  lemma NoDuplicatesTail(codes: seq<string>)
    requires |codes| > 0 && NoDuplicates(codes)
    ensures NoDuplicates(codes[1..]) && codes[0] !in codes[1..]
  {
    forall p, q | 0 <= p < q < |codes[1..]| ensures codes[1..][p] != codes[1..][q] {
      assert codes[1..][p] == codes[p + 1] && codes[1..][q] == codes[q + 1];
    }
    forall p | 0 <= p < |codes[1..]| ensures codes[1..][p] != codes[0] {
      assert codes[1..][p] == codes[p + 1];
    }
  }

  /**
   * A commit's summary writes never fail on the version check when the
   * staged summaries sit under their own keys: the only failure left is an
   * Out line short of stock.
   */
  lemma {:induction false} CommitGroupsNeverConflict(staged: map<SummaryKey, InventorySummaryDocument>,
                                                     branchCode: string, codes: seq<string>,
                                                     transactionType: TransactionType,
                                                     lines: seq<InventoryTransactionLine>, date: Instant, now: Instant,
                                                     newSummaryIds: nat -> string, i: nat)
    requires WellKeyed(staged)
    ensures var r := CommitGroups(staged, branchCode, codes, transactionType, lines, date, now, newSummaryIds, i);
      && (r.Err? ==> transactionType == Out && r.error.NegativeStock?)
      && (r.Ok? ==> WellKeyed(r.value))
    decreases |codes|
  {
    if |codes| > 0 {
      var updated := ApplyToDocument(BaseSummary(staged, branchCode, codes[0], newSummaryIds(i), now),
                                     transactionType, lines, date, now);
      CommitGroupsStep(staged, branchCode, codes, transactionType, lines, date, now, newSummaryIds, i, updated);
      if updated.Ok? {
        GroupWriteGoesThrough(staged, branchCode, codes[0], transactionType, lines, date, now, newSummaryIds(i));
        var next := staged[SummaryKey(branchCode, codes[0]) := updated.value];
        CommitGroupsNeverConflict(next, branchCode, codes[1..], transactionType, lines, date, now, newSummaryIds, i + 1);
      }
    }
  }

  /**
   * A successful commit writes the summaries of its own items at the
   * transaction's branch and no others: the other summaries are untouched,
   * and the only new ones are for its items.
   */
  lemma {:induction false} CommitGroupsFrame(staged: map<SummaryKey, InventorySummaryDocument>, branchCode: string,
                                             codes: seq<string>, transactionType: TransactionType,
                                             lines: seq<InventoryTransactionLine>, date: Instant, now: Instant,
                                             newSummaryIds: nat -> string, i: nat)
    requires WellKeyed(staged)
    requires CommitGroups(staged, branchCode, codes, transactionType, lines, date, now, newSummaryIds, i).Ok?
    ensures var r := CommitGroups(staged, branchCode, codes, transactionType, lines, date, now, newSummaryIds, i).value;
      && (forall k :: k in r <==> k in staged || (k.branchCode == branchCode && k.itemCode in codes))
      && (forall k | k in staged && (k.branchCode != branchCode || k.itemCode !in codes) :: r[k] == staged[k])
    decreases |codes|
  {
    if |codes| > 0 {
      var updated := ApplyToDocument(BaseSummary(staged, branchCode, codes[0], newSummaryIds(i), now),
                                     transactionType, lines, date, now);
      CommitGroupsStep(staged, branchCode, codes, transactionType, lines, date, now, newSummaryIds, i, updated);
      GroupWriteGoesThrough(staged, branchCode, codes[0], transactionType, lines, date, now, newSummaryIds(i));
      var next := staged[SummaryKey(branchCode, codes[0]) := updated.value];
      CommitGroupsFrame(next, branchCode, codes[1..], transactionType, lines, date, now, newSummaryIds, i + 1);
      var r := CommitGroups(next, branchCode, codes[1..], transactionType, lines, date, now, newSummaryIds, i + 1).value;
      forall k ensures k in r <==> k in staged || (k.branchCode == branchCode && k.itemCode in codes) {
        assert k.itemCode in codes <==> k.itemCode == codes[0] || k.itemCode in codes[1..];
      }
    }
  }

  /** A write under one key does not change the summary another item starts from. */
  lemma BaseSummaryElsewhere(staged: map<SummaryKey, InventorySummaryDocument>, key: SummaryKey,
                             d: InventorySummaryDocument, branchCode: string, itemCode: string, id: string, now: Instant)
    requires key.itemCode != itemCode
    ensures BaseSummary(staged[key := d], branchCode, itemCode, id, now) == BaseSummary(staged, branchCode, itemCode, id, now)
  {
  }

  /** The item's summary in r is its summary in staged with the lines applied. */
  predicate WrittenAt(staged: map<SummaryKey, InventorySummaryDocument>, r: map<SummaryKey, InventorySummaryDocument>,
                      branchCode: string, itemCode: string, transactionType: TransactionType,
                      lines: seq<InventoryTransactionLine>, date: Instant, now: Instant, id: string)
  {
    && SummaryKey(branchCode, itemCode) in r
    && ApplyToDocument(BaseSummary(staged, branchCode, itemCode, id, now), transactionType, lines, date, now)
       == Ok(r[SummaryKey(branchCode, itemCode)])
  }

  /** Every item's summary in r is its summary in staged with the lines applied. */
  predicate AllWritten(staged: map<SummaryKey, InventorySummaryDocument>, r: map<SummaryKey, InventorySummaryDocument>,
                       branchCode: string, codes: seq<string>, transactionType: TransactionType,
                       lines: seq<InventoryTransactionLine>, date: Instant, now: Instant,
                       newSummaryIds: nat -> string, i: nat)
  {
    forall j | 0 <= j < |codes| ::
      WrittenAt(staged, r, branchCode, codes[j], transactionType, lines, date, now, newSummaryIds(i + j))
  }

  /** The first group's write followed by the rest's. */
  lemma AllWrittenCons(staged: map<SummaryKey, InventorySummaryDocument>, r: map<SummaryKey, InventorySummaryDocument>,
                       branchCode: string, codes: seq<string>, transactionType: TransactionType,
                       lines: seq<InventoryTransactionLine>, date: Instant, now: Instant,
                       newSummaryIds: nat -> string, i: nat, u: InventorySummaryDocument)
    requires |codes| > 0 && codes[0] !in codes[1..]
    requires ApplyToDocument(BaseSummary(staged, branchCode, codes[0], newSummaryIds(i), now),
                             transactionType, lines, date, now) == Ok(u)
    requires SummaryKey(branchCode, codes[0]) in r && r[SummaryKey(branchCode, codes[0])] == u
    requires AllWritten(staged[SummaryKey(branchCode, codes[0]) := u], r, branchCode, codes[1..], transactionType,
                        lines, date, now, newSummaryIds, i + 1)
    ensures AllWritten(staged, r, branchCode, codes, transactionType, lines, date, now, newSummaryIds, i)
  {
    assert WrittenAt(staged, r, branchCode, codes[0], transactionType, lines, date, now, newSummaryIds(i));
    AllWrittenTail(staged, r, branchCode, codes, transactionType, lines, date, now, newSummaryIds, i, u);
  }

  /** The rest's writes, read against the stored summaries before the first group's write. */
  lemma AllWrittenTail(staged: map<SummaryKey, InventorySummaryDocument>, r: map<SummaryKey, InventorySummaryDocument>,
                       branchCode: string, codes: seq<string>, transactionType: TransactionType,
                       lines: seq<InventoryTransactionLine>, date: Instant, now: Instant,
                       newSummaryIds: nat -> string, i: nat, u: InventorySummaryDocument)
    requires |codes| > 0 && codes[0] !in codes[1..]
    requires AllWritten(staged[SummaryKey(branchCode, codes[0]) := u], r, branchCode, codes[1..], transactionType,
                        lines, date, now, newSummaryIds, i + 1)
    ensures forall j | 1 <= j < |codes| ::
              WrittenAt(staged, r, branchCode, codes[j], transactionType, lines, date, now, newSummaryIds(i + j))
  {
    var key := SummaryKey(branchCode, codes[0]);
    forall j | 1 <= j < |codes|
      ensures WrittenAt(staged, r, branchCode, codes[j], transactionType, lines, date, now, newSummaryIds(i + j))
    {
      var jj := j - 1;
      assert codes[1..][jj] == codes[j] && i + 1 + jj == i + j;
      assert codes[j] in codes[1..];
      WrittenAtElsewhere(staged, r, key, u, branchCode, codes[j], transactionType, lines, date, now, newSummaryIds(i + j));
    }
  }

  /** A write under another item's key does not change what an item's summary is compared with. */
  lemma WrittenAtElsewhere(staged: map<SummaryKey, InventorySummaryDocument>, r: map<SummaryKey, InventorySummaryDocument>,
                           key: SummaryKey, u: InventorySummaryDocument, branchCode: string, itemCode: string,
                           transactionType: TransactionType, lines: seq<InventoryTransactionLine>, date: Instant,
                           now: Instant, id: string)
    requires key.itemCode != itemCode
    requires WrittenAt(staged[key := u], r, branchCode, itemCode, transactionType, lines, date, now, id)
    ensures WrittenAt(staged, r, branchCode, itemCode, transactionType, lines, date, now, id)
  {
    BaseSummaryElsewhere(staged, key, u, branchCode, itemCode, id, now);
  }

  /**
   * With each item in one group, a successful commit leaves at each of its
   * items' keys that item's stored (or fresh) summary with the lines applied.
   */
  lemma {:induction false} CommitGroupsWrites(staged: map<SummaryKey, InventorySummaryDocument>, branchCode: string,
                                              codes: seq<string>, transactionType: TransactionType,
                                              lines: seq<InventoryTransactionLine>, date: Instant, now: Instant,
                                              newSummaryIds: nat -> string, i: nat)
    requires WellKeyed(staged) && NoDuplicates(codes)
    requires CommitGroups(staged, branchCode, codes, transactionType, lines, date, now, newSummaryIds, i).Ok?
    ensures AllWritten(staged, CommitGroups(staged, branchCode, codes, transactionType, lines, date, now,
                                            newSummaryIds, i).value,
                       branchCode, codes, transactionType, lines, date, now, newSummaryIds, i)
    decreases |codes|
  {
    if |codes| > 0 {
      var key := SummaryKey(branchCode, codes[0]);
      var updated := ApplyToDocument(BaseSummary(staged, branchCode, codes[0], newSummaryIds(i), now),
                                     transactionType, lines, date, now);
      CommitGroupsStep(staged, branchCode, codes, transactionType, lines, date, now, newSummaryIds, i, updated);
      GroupWriteGoesThrough(staged, branchCode, codes[0], transactionType, lines, date, now, newSummaryIds(i));
      var next := staged[key := updated.value];
      NoDuplicatesTail(codes);
      CommitGroupsWrites(next, branchCode, codes[1..], transactionType, lines, date, now, newSummaryIds, i + 1);
      CommitGroupsFrame(next, branchCode, codes[1..], transactionType, lines, date, now, newSummaryIds, i + 1);
      var r := CommitGroups(next, branchCode, codes[1..], transactionType, lines, date, now, newSummaryIds, i + 1).value;
      assert key in r && r[key] == updated.value;
      AllWrittenCons(staged, r, branchCode, codes, transactionType, lines, date, now, newSummaryIds, i, updated.value);
    }
  }

  /** Commits a draft inside a unit of work (CommitTransactionAsync). */
  method CommitTransaction(user: CurrentUser, now: Instant, summaries: SummaryStore, transactions: TransactionStore,
                           transactionId: string, newSummaryIds: nat -> string)
    returns (r: Result<InventoryTransactionDocument>)
    modifies summaries, transactions
    ensures match CommitSpec(old(summaries.docs), old(transactions.docs), user, transactionId, now, newSummaryIds)
            case Ok(c) =>
              && r == Ok(c.transaction)
              && summaries.docs == c.summaries
              && transactions.docs == old(transactions.docs)[c.transaction.id := c.transaction]
            case Err(e) =>
              && r == Err(e)
              && summaries.docs == old(summaries.docs) && transactions.docs == old(transactions.docs)
  {
    if transactionId !in transactions.docs {
      return Err(NotFound);
    }
    var stored := transactions.docs[transactionId];
    var t := TransactionMapper.ToEntity(stored);
    var access := ValidateBranchAccess(user, Some(t.branchCode));
    if access.Err? {
      return Err(access.error);
    }
    var committed := t.Commit(user.username, now);
    if committed.Fail? {
      return Err(committed.error);
    }
    var doc := TransactionMapper.ToDocument(t);
    assert doc == CommittedDocument(stored, user, now);
    var staged := ApplyGroups(t, summaries.docs, Sequences.Distinct(ItemCodes(t.lines)), now, newSummaryIds);
    if staged.Err? {
      return Err(staged.error);
    }
    summaries.CommitScope(staged.value);
    transactions.Save(doc);
    return Ok(doc);
  }

  /**
   * With non-negative stock and non-negative line quantities, the summary
   * written for an item has no negative entry.
   */
  lemma ApplyToDocumentKeepsStockNonNegative(d: InventorySummaryDocument, transactionType: TransactionType,
                                             lines: seq<InventoryTransactionLine>, date: Instant, now: Instant)
    requires forall i | 0 <= i < |d.entries| :: d.entries[i].onHand >= 0
    requires AllQuantitiesNonNegative(lines)
    ensures var r := ApplyToDocument(d, transactionType, lines, date, now);
      r.Ok? ==> forall i | 0 <= i < |r.value.entries| :: r.value.entries[i].onHand >= 0
  {
    var r := ApplyToDocument(d, transactionType, lines, date, now);
    var relevant := RelevantLines(lines, d.itemCode);
    assert AllQuantitiesNonNegative(relevant) by {
      forall i | 0 <= i < |relevant| ensures relevant[i].quantity >= 0 {
        assert relevant[i] in lines;
      }
    }
    ApplyLinesKeepsStockNonNegative(SummaryMapper.ToEntryEntities(d.entries), transactionType, relevant, date);
    if r.Ok? {
      var es := SummaryMapper.ToEntryEntities(r.value.entries);
      forall i | 0 <= i < |r.value.entries| ensures r.value.entries[i].onHand >= 0 {
        assert es[i].onHand == r.value.entries[i].onHand;
      }
    }
  }

  /**
   * A successful commit was of a Draft, and stores it as Committed by the
   * caller at the current time, with its lines and everything else kept.
   */
  lemma CommitMarksCommitted(summaries: map<SummaryKey, InventorySummaryDocument>,
                             transactions: map<string, InventoryTransactionDocument>, user: CurrentUser,
                             transactionId: string, now: Instant, newSummaryIds: nat -> string)
    requires CommitSpec(summaries, transactions, user, transactionId, now, newSummaryIds).Ok?
    ensures transactionId in transactions && transactions[transactionId].status == Draft
    ensures var c := CommitSpec(summaries, transactions, user, transactionId, now, newSummaryIds).value;
      && c.transaction.status == Committed
      && c.transaction.committedAtUtc == Some(now) && c.transaction.committedBy == Some(user.username)
      && c.transaction == transactions[transactionId].(status := Committed, committedAtUtc := Some(now),
                                                       committedBy := Some(user.username),
                                                       modifiedAtUtc := Some(now), modifiedBy := Some(user.username))
  {
  }

  /**
   * A commit is refused when the transaction is missing, the caller has no
   * branch access, or the transaction is no longer a Draft; the version
   * check never refuses it, so the only other refusal is an Out line short
   * of stock.
   */
  lemma CommitErrors(summaries: map<SummaryKey, InventorySummaryDocument>,
                     transactions: map<string, InventoryTransactionDocument>, user: CurrentUser,
                     transactionId: string, now: Instant, newSummaryIds: nat -> string)
    requires WellKeyed(summaries)
    ensures var r := CommitSpec(summaries, transactions, user, transactionId, now, newSummaryIds);
      && (transactionId !in transactions ==> r == Err(NotFound))
      && ((transactionId in transactions &&
           ValidateBranchAccess(user, Some(transactions[transactionId].branchCode)).Err?) ==>
            r == Err(ValidateBranchAccess(user, Some(transactions[transactionId].branchCode)).error))
      && ((transactionId in transactions &&
           ValidateBranchAccess(user, Some(transactions[transactionId].branchCode)).Ok? &&
           transactions[transactionId].status != Draft) ==>
            r == Err(NotDraft(transactions[transactionId].status)))
      && (r.Err? && r.error != NotFound && r.error != Validation && r.error != Unauthorized && !r.error.NotDraft? ==>
            transactions[transactionId].transactionType == Out && r.error.NegativeStock?)
      && (r.Err? ==> r.error != DuplicateKey)
  {
    if transactionId in transactions {
      var d := transactions[transactionId];
      var lines := TransactionMapper.ToLineEntities(d.lines);
      CommitGroupsNeverConflict(summaries, d.branchCode, Sequences.Distinct(ItemCodes(lines)), d.transactionType,
                                lines, d.transactionDateUtc, now, newSummaryIds, 0);
    }
  }

  /**
   * A commit writes only the summaries of its own items at its own branch:
   * every other summary is left as it was, and no other summary appears.
   */
  lemma CommitTouchesOnlyItsItems(summaries: map<SummaryKey, InventorySummaryDocument>,
                                  transactions: map<string, InventoryTransactionDocument>, user: CurrentUser,
                                  transactionId: string, now: Instant, newSummaryIds: nat -> string)
    requires WellKeyed(summaries)
    requires CommitSpec(summaries, transactions, user, transactionId, now, newSummaryIds).Ok?
    ensures var d := transactions[transactionId];
      var r := CommitSpec(summaries, transactions, user, transactionId, now, newSummaryIds).value.summaries;
      && (forall k | k in summaries && (k.branchCode != d.branchCode ||
                                         forall i | 0 <= i < |d.lines| :: d.lines[i].itemCode != k.itemCode)
            :: k in r && r[k] == summaries[k])
      && (forall k | k in r && k !in summaries ::
            k.branchCode == d.branchCode && exists i | 0 <= i < |d.lines| :: d.lines[i].itemCode == k.itemCode)
      && WellKeyed(r)
  {
    var d := transactions[transactionId];
    var lines := TransactionMapper.ToLineEntities(d.lines);
    var codes := Sequences.Distinct(ItemCodes(lines));
    CommitGroupsFrame(summaries, d.branchCode, codes, d.transactionType, lines, d.transactionDateUtc, now,
                      newSummaryIds, 0);
    CommitGroupsNeverConflict(summaries, d.branchCode, codes, d.transactionType, lines, d.transactionDateUtc, now,
                              newSummaryIds, 0);
    var staged := CommitGroups(summaries, d.branchCode, codes, d.transactionType, lines, d.transactionDateUtc, now,
                               newSummaryIds, 0).value;
    assert CommitSpec(summaries, transactions, user, transactionId, now, newSummaryIds).value.summaries == staged;
    StoredCodes(d.lines);
    forall k | k in summaries && (k.branchCode != d.branchCode ||
                                  forall i | 0 <= i < |d.lines| :: d.lines[i].itemCode != k.itemCode)
      ensures k in staged && staged[k] == summaries[k]
    {
    }
    forall k | k in staged && k !in summaries
      ensures k.branchCode == d.branchCode && exists i | 0 <= i < |d.lines| :: d.lines[i].itemCode == k.itemCode
    {
    }
  }

  /** The item groups of stored lines are exactly the item codes the lines carry. */
  lemma StoredCodes(stored: seq<InventoryTransactionLineDocument>)
    ensures forall code :: code in Sequences.Distinct(ItemCodes(TransactionMapper.ToLineEntities(stored)))
                       <==> exists i | 0 <= i < |stored| :: stored[i].itemCode == code
  {
    var lines := TransactionMapper.ToLineEntities(stored);
    forall code ensures code in ItemCodes(lines) <==> exists i | 0 <= i < |stored| :: stored[i].itemCode == code {
      if code in ItemCodes(lines) {
        var i :| 0 <= i < |lines| && ItemCodes(lines)[i] == code;
      }
      if exists i | 0 <= i < |stored| :: stored[i].itemCode == code {
        var i :| 0 <= i < |stored| && stored[i].itemCode == code;
        assert ItemCodes(lines)[i] == code;
      }
    }
  }

  /**
   * The summary an item ends with after a commit, given that it is what
   * applying the lines to the item's stored or fresh summary gives.
   */
  predicate ItemUpdated(summaries: map<SummaryKey, InventorySummaryDocument>,
                        r: map<SummaryKey, InventorySummaryDocument>, key: SummaryKey,
                        transactionType: TransactionType, lines: seq<InventoryTransactionLine>, date: Instant,
                        now: Instant)
  {
    && key in r
    && r[key].updatedAtUtc == now
    && r[key].onHandTotal == SumOnHand(SummaryMapper.ToEntryEntities(r[key].entries))
    && (key in summaries ==>
          && r[key].version == summaries[key].version + 1
          && SummaryMapper.ToEntryEntities(r[key].entries)
             == ApplyLines(SummaryMapper.ToEntryEntities(summaries[key].entries), transactionType,
                           RelevantLines(lines, key.itemCode), date).entries)
    && (key !in summaries ==>
          && r[key].version == 1
          && SummaryMapper.ToEntryEntities(r[key].entries)
             == ApplyLines([], transactionType, RelevantLines(lines, key.itemCode), date).entries)
  }

  lemma ItemUpdatedFromBase(summaries: map<SummaryKey, InventorySummaryDocument>,
                            r: map<SummaryKey, InventorySummaryDocument>, branchCode: string, itemCode: string,
                            transactionType: TransactionType, lines: seq<InventoryTransactionLine>, date: Instant,
                            now: Instant, id: string)
    requires WellKeyed(summaries)
    requires SummaryKey(branchCode, itemCode) in r
    requires ApplyToDocument(BaseSummary(summaries, branchCode, itemCode, id, now), transactionType, lines, date, now)
          == Ok(r[SummaryKey(branchCode, itemCode)])
    ensures ItemUpdated(summaries, r, SummaryKey(branchCode, itemCode), transactionType, lines, date, now)
  {
    var key := SummaryKey(branchCode, itemCode);
    if key !in summaries {
      assert SummaryMapper.ToEntryEntities([]) == [];
    }
  }

  /**
   * Each item of a committed transaction has its summary at the branch
   * updated exactly once, by all of the transaction's lines for it: a stored
   * summary moves one version up with those lines applied to its entries;
   * an item never stocked there gets a new summary at version 1 holding just
   * those lines.  The totals agree with the entries either way.
   */
  lemma CommitUpdatesEachItemOnce(summaries: map<SummaryKey, InventorySummaryDocument>,
                                  transactions: map<string, InventoryTransactionDocument>, user: CurrentUser,
                                  transactionId: string, now: Instant, newSummaryIds: nat -> string)
    requires WellKeyed(summaries)
    requires CommitSpec(summaries, transactions, user, transactionId, now, newSummaryIds).Ok?
    ensures var d := transactions[transactionId];
      var lines := TransactionMapper.ToLineEntities(d.lines);
      var r := CommitSpec(summaries, transactions, user, transactionId, now, newSummaryIds).value.summaries;
      forall i | 0 <= i < |lines| ::
        ItemUpdated(summaries, r, SummaryKey(d.branchCode, lines[i].itemCode), d.transactionType, lines,
                    d.transactionDateUtc, now)
  {
    var d := transactions[transactionId];
    var lines := TransactionMapper.ToLineEntities(d.lines);
    var codes := Sequences.Distinct(ItemCodes(lines));
    var r := CommitSpec(summaries, transactions, user, transactionId, now, newSummaryIds).value.summaries;
    CommitGroupsWrites(summaries, d.branchCode, codes, d.transactionType, lines, d.transactionDateUtc, now,
                       newSummaryIds, 0);
    forall i | 0 <= i < |lines|
      ensures ItemUpdated(summaries, r, SummaryKey(d.branchCode, lines[i].itemCode), d.transactionType, lines,
                          d.transactionDateUtc, now)
    {
      var code := lines[i].itemCode;
      assert ItemCodes(lines)[i] == code;
      assert code in codes;
      var j :| 0 <= j < |codes| && codes[j] == code;
      ItemUpdatedFromBase(summaries, r, d.branchCode, codes[j], d.transactionType, lines, d.transactionDateUtc,
                          now, newSummaryIds(j));
    }
  }

  /** A transaction committed once cannot be committed again. */
  lemma CommitTwiceFails(summaries: map<SummaryKey, InventorySummaryDocument>,
                         transactions: map<string, InventoryTransactionDocument>, user: CurrentUser,
                         transactionId: string, now: Instant, later: Instant, newSummaryIds: nat -> string)
    requires CommitSpec(summaries, transactions, user, transactionId, now, newSummaryIds).Ok?
    ensures var c := CommitSpec(summaries, transactions, user, transactionId, now, newSummaryIds).value;
      CommitSpec(c.summaries, transactions[c.transaction.id := c.transaction], user, c.transaction.id, later,
                 newSummaryIds) == Err(NotDraft(Committed))
  {
  }

  /**
   * The branch check of a commit is not compared with the transaction's
   * branch: a non-Admin who has a branch is never refused access, whichever
   * branch the transaction belongs to.
   */
  lemma CommitAccessIgnoresTransactionBranch(summaries: map<SummaryKey, InventorySummaryDocument>,
                                             transactions: map<string, InventoryTransactionDocument>,
                                             user: CurrentUser, transactionId: string, now: Instant,
                                             newSummaryIds: nat -> string)
    requires user.role != Admin && user.branchId.Some? && user.branchCode.Some?
    requires transactionId in transactions && transactions[transactionId].status == Draft
    requires transactions[transactionId].branchCode != user.branchCode.value
    ensures var r := CommitSpec(summaries, transactions, user, transactionId, now, newSummaryIds);
      r.Err? ==> r.error != Unauthorized && r.error != Validation && !r.error.NotDraft?
  {
    var d := transactions[transactionId];
    var lines := TransactionMapper.ToLineEntities(d.lines);
    var r := CommitGroups(summaries, d.branchCode, Sequences.Distinct(ItemCodes(lines)), d.transactionType,
                          lines, d.transactionDateUtc, now, newSummaryIds, 0);
    if r.Err? {
      CommitGroupsError(summaries, d.branchCode, Sequences.Distinct(ItemCodes(lines)), d.transactionType,
                        lines, d.transactionDateUtc, now, newSummaryIds, 0);
    }
  }

  /** The summary writes fail only with a stock or a version-check error. */
  lemma {:induction false} CommitGroupsError(staged: map<SummaryKey, InventorySummaryDocument>, branchCode: string,
                                             codes: seq<string>, transactionType: TransactionType,
                                             lines: seq<InventoryTransactionLine>, date: Instant, now: Instant,
                                             newSummaryIds: nat -> string, i: nat)
    ensures var r := CommitGroups(staged, branchCode, codes, transactionType, lines, date, now, newSummaryIds, i);
      r.Err? ==> r.error.NegativeStock? || r.error == DuplicateKey
    decreases |codes|
  {
    if |codes| > 0 {
      var updated := ApplyToDocument(BaseSummary(staged, branchCode, codes[0], newSummaryIds(i), now),
                                     transactionType, lines, date, now);
      CommitGroupsStep(staged, branchCode, codes, transactionType, lines, date, now, newSummaryIds, i, updated);
      if updated.Ok? && UpsertWithVersionCheck(staged, updated.value).Ok? {
        CommitGroupsError(UpsertWithVersionCheck(staged, updated.value).value, branchCode, codes[1..],
                          transactionType, lines, date, now, newSummaryIds, i + 1);
      }
    }
  }

  /** No stored summary has an entry below zero. */
  predicate StockNonNegative(docs: map<SummaryKey, InventorySummaryDocument>)
  {
    forall k | k in docs :: forall i | 0 <= i < |docs[k].entries| :: docs[k].entries[i].onHand >= 0
  }

  /**
   * Committing never takes stock below zero: when no stored entry is
   * negative and no line quantity is, no entry is negative afterwards.
   */
  lemma CommitKeepsStockNonNegative(summaries: map<SummaryKey, InventorySummaryDocument>,
                                    transactions: map<string, InventoryTransactionDocument>, user: CurrentUser,
                                    transactionId: string, now: Instant, newSummaryIds: nat -> string)
    requires WellKeyed(summaries) && StockNonNegative(summaries)
    requires transactionId in transactions
    requires forall i | 0 <= i < |transactions[transactionId].lines| :: transactions[transactionId].lines[i].quantity >= 0
    requires CommitSpec(summaries, transactions, user, transactionId, now, newSummaryIds).Ok?
    ensures StockNonNegative(CommitSpec(summaries, transactions, user, transactionId, now, newSummaryIds).value.summaries)
  {
    var d := transactions[transactionId];
    var lines := TransactionMapper.ToLineEntities(d.lines);
    assert AllQuantitiesNonNegative(lines);
    CommitGroupsKeepStockNonNegative(summaries, d.branchCode, Sequences.Distinct(ItemCodes(lines)), d.transactionType, lines,
                                     d.transactionDateUtc, now, newSummaryIds);
  }

  /** The summary writes of a commit with non-negative quantities keep stored stock non-negative. */
  lemma CommitGroupsKeepStockNonNegative(summaries: map<SummaryKey, InventorySummaryDocument>, branchCode: string,
                                         codes: seq<string>, transactionType: TransactionType,
                                         lines: seq<InventoryTransactionLine>, date: Instant, now: Instant,
                                         newSummaryIds: nat -> string)
    requires WellKeyed(summaries) && StockNonNegative(summaries) && NoDuplicates(codes)
    requires AllQuantitiesNonNegative(lines)
    requires CommitGroups(summaries, branchCode, codes, transactionType, lines, date, now, newSummaryIds, 0).Ok?
    ensures StockNonNegative(CommitGroups(summaries, branchCode, codes, transactionType, lines, date, now,
                                          newSummaryIds, 0).value)
  {
    var r := CommitGroups(summaries, branchCode, codes, transactionType, lines, date, now, newSummaryIds, 0).value;
    CommitGroupsFrame(summaries, branchCode, codes, transactionType, lines, date, now, newSummaryIds, 0);
    CommitGroupsWrites(summaries, branchCode, codes, transactionType, lines, date, now, newSummaryIds, 0);
    forall k | k in r ensures forall i | 0 <= i < |r[k].entries| :: r[k].entries[i].onHand >= 0 {
      if k.branchCode == branchCode && k.itemCode in codes {
        var j :| 0 <= j < |codes| && codes[j] == k.itemCode;
        assert WrittenAt(summaries, r, branchCode, codes[j], transactionType, lines, date, now, newSummaryIds(j));
        var base := BaseSummary(summaries, branchCode, codes[j], newSummaryIds(j), now);
        assert forall i | 0 <= i < |base.entries| :: base.entries[i].onHand >= 0;
        ApplyToDocumentKeepsStockNonNegative(base, transactionType, lines, date, now);
      }
    }
  }

  // ---------------------------------------------------------------------
  // Cancelling a draft
  // ---------------------------------------------------------------------

  /**
   * Cancelling: the transaction must exist and the caller have branch
   * access (not compared with the transaction's branch); a committed
   * transaction must be reversed instead and a cancelled one cannot be
   * cancelled again.  A Draft becomes Cancelled, stamped as modified by the
   * caller.  Stock is not touched.
   */
  function CancelSpec(transactions: map<string, InventoryTransactionDocument>, user: CurrentUser,
                      transactionId: string, now: Instant): (r: Result<InventoryTransactionDocument>)
    ensures transactionId !in transactions ==> r == Err(NotFound)
    ensures r.Ok? ==> && transactionId in transactions && transactions[transactionId].status == Draft
                      && r.value.status == Cancelled
                      && r.value.modifiedAtUtc == Some(now) && r.value.modifiedBy == Some(user.username)
                      && r.value.lines == transactions[transactionId].lines
                      && r.value.committedAtUtc == transactions[transactionId].committedAtUtc
    ensures transactionId in transactions && ValidateBranchAccess(user, Some(transactions[transactionId].branchCode)).Ok?
            ==> match transactions[transactionId].status
                case Draft => r.Ok?
                case Committed => r == Err(CancelCommitted)
                case Cancelled => r == Err(AlreadyCancelled)
  {
    if transactionId !in transactions then Err(NotFound)
    else
      var d := transactions[transactionId];
      var _ :- ValidateBranchAccess(user, Some(d.branchCode));
      match d.status
      case Committed => Err(CancelCommitted)
      case Cancelled => Err(AlreadyCancelled)
      case Draft => Ok(d.(status := Cancelled, modifiedAtUtc := Some(now), modifiedBy := Some(user.username)))
  }

  /** Cancels a draft (CancelTransactionAsync). */
  method CancelTransaction(user: CurrentUser, now: Instant, transactions: TransactionStore, transactionId: string)
    returns (r: Result<InventoryTransactionDocument>)
    modifies transactions
    ensures r == CancelSpec(old(transactions.docs), user, transactionId, now)
    ensures r.Ok? ==> transactions.docs == old(transactions.docs)[r.value.id := r.value]
    ensures r.Err? ==> transactions.docs == old(transactions.docs)
  {
    if transactionId !in transactions.docs {
      return Err(NotFound);
    }
    var stored := transactions.docs[transactionId];
    var t := TransactionMapper.ToEntity(stored);
    var access := ValidateBranchAccess(user, Some(t.branchCode));
    if access.Err? {
      return Err(access.error);
    }
    var cancelled := t.Cancel();
    if cancelled.Fail? {
      return Err(cancelled.error);
    }
    t.modifiedAtUtc := Some(now);
    t.modifiedBy := Some(user.username);
    var doc := TransactionMapper.ToDocument(t);
    transactions.Save(doc);
    return Ok(doc);
  }

  /** A cancelled transaction can no longer be committed. */
  lemma CancelThenCommitFails(summaries: map<SummaryKey, InventorySummaryDocument>,
                              transactions: map<string, InventoryTransactionDocument>, user: CurrentUser,
                              transactionId: string, now: Instant, later: Instant, newSummaryIds: nat -> string)
    requires CancelSpec(transactions, user, transactionId, now).Ok?
    ensures var c := CancelSpec(transactions, user, transactionId, now).value;
      CommitSpec(summaries, transactions[c.id := c], user, c.id, later, newSummaryIds) == Err(NotDraft(Cancelled))
  {
  }

  /** A committed transaction can no longer be cancelled, nor a cancelled one cancelled again. */
  lemma CommitThenCancelFails(summaries: map<SummaryKey, InventorySummaryDocument>,
                              transactions: map<string, InventoryTransactionDocument>, user: CurrentUser,
                              transactionId: string, now: Instant, later: Instant, newSummaryIds: nat -> string)
    requires CommitSpec(summaries, transactions, user, transactionId, now, newSummaryIds).Ok?
    ensures var c := CommitSpec(summaries, transactions, user, transactionId, now, newSummaryIds).value.transaction;
      CancelSpec(transactions[c.id := c], user, c.id, later) == Err(CancelCommitted)
    ensures CancelSpec(transactions, user, transactionId, now).Ok? ==>
              var c := CancelSpec(transactions, user, transactionId, now).value;
              CancelSpec(transactions[c.id := c], user, c.id, later) == Err(AlreadyCancelled)
  {
  }

  // ---------------------------------------------------------------------
  // Stock queries
  // ---------------------------------------------------------------------

  /**
   * The summary of one item at the branch the caller may write to (the
   * strict check: an Admin must name the branch).
   */
  function GetInventorySummary(user: CurrentUser, summaries: map<SummaryKey, InventorySummaryDocument>,
                               branchCode: Option<string>, itemCode: string)
    : (r: Result<Option<InventorySummaryDocument>>)
    ensures r.Err? <==> ValidateBranchAccess(user, branchCode).Err?
    ensures r.Ok? ==>
              && (r.value.Some? <==> SummaryKey(ValidateBranchAccess(user, branchCode).value, itemCode) in summaries)
              && (r.value.Some? ==>
                    r.value.value == summaries[SummaryKey(ValidateBranchAccess(user, branchCode).value, itemCode)])
  {
    var branch :- ValidateBranchAccess(user, branchCode);
    var key := SummaryKey(branch, itemCode);
    if key in summaries then Ok(Some(summaries[key])) else Ok(None)
  }

  /** A non-Admin only ever sees a summary of their own branch. */
  lemma SummaryQueryStaysInOwnBranch(user: CurrentUser, summaries: map<SummaryKey, InventorySummaryDocument>,
                                     branchCode: Option<string>, itemCode: string)
    requires WellKeyed(summaries) && user.role != Admin
    requires GetInventorySummary(user, summaries, branchCode, itemCode).Ok?
    requires GetInventorySummary(user, summaries, branchCode, itemCode).value.Some?
    ensures Some(GetInventorySummary(user, summaries, branchCode, itemCode).value.value.branchCode) == user.branchCode
  {
    var key := SummaryKey(ValidateBranchAccess(user, branchCode).value, itemCode);
    assert KeyOf(summaries[key]) == key;
  }

  /** The branch filter of the summary listing: none, or a blank branch, means every branch. */
  predicate InBranchScope(d: InventorySummaryDocument, scope: Option<string>)
  {
    IsNullOrWhiteSpace(scope) || d.branchCode == scope.value
  }

  predicate HasCondition(d: InventorySummaryDocument, condition: ItemCondition)
  {
    exists i | 0 <= i < |d.entries| :: d.entries[i].condition == condition
  }

  /** The summaries a listing returns, in stored order (search text and paging aside). */
  function Listed(stored: seq<InventorySummaryDocument>, scope: Option<string>, condition: Option<ItemCondition>)
    : (r: seq<InventorySummaryDocument>)
    ensures forall d :: d in r <==> d in stored && InBranchScope(d, scope) &&
                                    (condition.None? || HasCondition(d, condition.value))
    decreases |stored|
  {
    if |stored| == 0 then []
    else
      var rest := Listed(stored[1..], scope, condition);
      assert forall d :: d in stored <==> d == stored[0] || d in stored[1..];
      if InBranchScope(stored[0], scope) && (condition.None? || HasCondition(stored[0], condition.value))
      then [stored[0]] + rest
      else rest
  }

  datatype StockTotals = StockTotals(newStock: int, usedStock: int, totalStock: int)

  /** On-hand stock of one condition over a summary's entries. */
  function EntriesStock(entries: seq<InventoryEntryDocument>, condition: ItemCondition): int
    decreases |entries|
  {
    if |entries| == 0 then 0
    else EntriesStock(entries[..|entries| - 1], condition)
         + (if entries[|entries| - 1].condition == condition then entries[|entries| - 1].onHand else 0)
  }

  /** On-hand stock of one condition over a list of summaries. */
  function ConditionStock(summaries: seq<InventorySummaryDocument>, condition: ItemCondition): int
    decreases |summaries|
  {
    if |summaries| == 0 then 0
    else ConditionStock(summaries[..|summaries| - 1], condition)
         + EntriesStock(summaries[|summaries| - 1].entries, condition)
  }

  /** The general New / Used stock of a list of summaries (the nested loop of the listing). */
  method GeneralStock(summaries: seq<InventorySummaryDocument>) returns (totals: StockTotals)
    ensures totals.newStock == ConditionStock(summaries, New)
    ensures totals.usedStock == ConditionStock(summaries, Used)
    ensures totals.totalStock == totals.newStock + totals.usedStock
  {
    var newStock, usedStock := 0, 0;
    var i := 0;
    while i < |summaries|
      invariant 0 <= i <= |summaries|
      invariant newStock == ConditionStock(summaries[..i], New)
      invariant usedStock == ConditionStock(summaries[..i], Used)
    {
      var entries := summaries[i].entries;
      var j := 0;
      while j < |entries|
        invariant 0 <= j <= |entries|
        invariant newStock == ConditionStock(summaries[..i], New) + EntriesStock(entries[..j], New)
        invariant usedStock == ConditionStock(summaries[..i], Used) + EntriesStock(entries[..j], Used)
      {
        assert entries[..j + 1][..j] == entries[..j];
        if entries[j].condition == New {
          newStock := newStock + entries[j].onHand;
        } else if entries[j].condition == Used {
          usedStock := usedStock + entries[j].onHand;
        }
        j := j + 1;
      }
      assert entries[..j] == entries;
      assert summaries[..i + 1][..i] == summaries[..i];
      i := i + 1;
    }
    assert summaries[..i] == summaries;
    return StockTotals(newStock, usedStock, newStock + usedStock);
  }

  function SumOnHandTotals(summaries: seq<InventorySummaryDocument>): int
    decreases |summaries|
  {
    if |summaries| == 0 then 0
    else SumOnHandTotals(summaries[..|summaries| - 1]) + summaries[|summaries| - 1].onHandTotal
  }

  lemma {:induction false} EntriesStockSplit(entries: seq<InventoryEntryDocument>)
    ensures EntriesStock(entries, New) + EntriesStock(entries, Used)
         == SumOnHand(SummaryMapper.ToEntryEntities(entries))
    decreases |entries|
  {
    if |entries| > 0 {
      var init := entries[..|entries| - 1];
      EntriesStockSplit(init);
      SumOnHandAppend(SummaryMapper.ToEntryEntities(init), SummaryMapper.ToEntryEntity(entries[|entries| - 1]));
      assert SummaryMapper.ToEntryEntities(entries)
          == SummaryMapper.ToEntryEntities(init) + [SummaryMapper.ToEntryEntity(entries[|entries| - 1])];
    }
  }

  lemma {:induction false} SumOnHandAppend(es: seq<InventoryEntry>, e: InventoryEntry)
    ensures SumOnHand(es + [e]) == SumOnHand(es) + e.onHand
    decreases |es|
  {
    if |es| > 0 {
      assert (es + [e])[1..] == es[1..] + [e];
      SumOnHandAppend(es[1..], e);
    }
  }

  /**
   * When every summary's on-hand total agrees with its entries, the general
   * stock's total is the sum of the summaries' on-hand totals.
   */
  lemma {:induction false} GeneralStockMatchesOnHandTotals(summaries: seq<InventorySummaryDocument>)
    requires forall i | 0 <= i < |summaries| ::
               summaries[i].onHandTotal == SumOnHand(SummaryMapper.ToEntryEntities(summaries[i].entries))
    ensures ConditionStock(summaries, New) + ConditionStock(summaries, Used) == SumOnHandTotals(summaries)
    decreases |summaries|
  {
    if |summaries| > 0 {
      var init := summaries[..|summaries| - 1];
      GeneralStockMatchesOnHandTotals(init);
      EntriesStockSplit(summaries[|summaries| - 1].entries);
    }
  }

  datatype SummaryListing = SummaryListing(items: seq<InventorySummaryDocument>, generalStock: Option<StockTotals>)

  /**
   * The summary listing of the branches the caller may read (all of them
   * for an Admin naming none): the matching summaries, and the general New /
   * Used stock over all of the scope's summaries when no condition filter
   * is given.
   */
  method GetInventorySummariesByBranch(user: CurrentUser, stored: seq<InventorySummaryDocument>,
                                       branchCode: Option<string>, condition: Option<ItemCondition>)
    returns (r: Result<SummaryListing>)
    ensures r.Err? <==> ValidateBranchAccessForQuery(user, branchCode).Err?
    ensures r.Ok? ==>
              var scope := ValidateBranchAccessForQuery(user, branchCode).value;
              && r.value.items == Listed(stored, scope, condition)
              && (condition.Some? ==> r.value.generalStock.None?)
              && (condition.None? ==>
                    && r.value.generalStock.Some?
                    && r.value.generalStock.value.newStock == ConditionStock(Listed(stored, scope, None), New)
                    && r.value.generalStock.value.usedStock == ConditionStock(Listed(stored, scope, None), Used)
                    && r.value.generalStock.value.totalStock
                       == r.value.generalStock.value.newStock + r.value.generalStock.value.usedStock)
  {
    var access := ValidateBranchAccessForQuery(user, branchCode);
    if access.Err? {
      return Err(access.error);
    }
    var scope := access.value;
    var items := Listed(stored, scope, condition);
    var generalStock: Option<StockTotals> := None;
    if condition.None? {
      var totals := GeneralStock(Listed(stored, scope, None));
      generalStock := Some(totals);
    }
    return Ok(SummaryListing(items, generalStock));
  }
}
