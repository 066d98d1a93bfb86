/**
 * Sales.  Creating a sale validates its lines against the item catalogue,
 * checks the goods against the stock on hand at the branch and numbers the
 * sale from a per-branch counter.  Posting a sale moves its goods out of
 * stock through one Out transaction, whose lines update the summaries one at
 * a time, and marks the sale Committed.
 */
module SaleService {
  import opened Common
  import opened TransactionLines
  import opened SaleLines
  import opened Summaries
  import opened Documents
  import opened MasterData
  import opened Repositories
  import opened StockAvailability
  import Sales
  import NewTransactionService
  import SummaryMapper
  import SaleMapper
  import TransactionMapper

  // ---------------------------------------------------------------------
  // Sale numbers: "<branch code>-<counter as D7>"
  // ---------------------------------------------------------------------

  predicate IsDigit(c: char)
  {
    '0' <= c <= '9'
  }

  function DigitChar(d: nat): (c: char)
    requires d < 10
    ensures IsDigit(c) && c as int - '0' as int == d
  {
    ('0' as int + d) as char
  }

  /** The decimal digits of n, most significant first, with no leading zero. */
  function NatToString(n: nat): (s: string)
    ensures |s| >= 1
    ensures forall i | 0 <= i < |s| :: IsDigit(s[i])
    decreases n
  {
    if n < 10 then [DigitChar(n)] else NatToString(n / 10) + [DigitChar(n % 10)]
  }

  /** The number a string of decimal digits stands for. */
  function DigitsValue(s: string): int
    decreases |s|
  {
    if |s| == 0 then 0 else DigitsValue(s[..|s| - 1]) * 10 + (s[|s| - 1] as int - '0' as int)
  }

  function Zeros(k: nat): (z: string)
    ensures |z| == k && forall i | 0 <= i < k :: z[i] == '0'
  {
    seq(k, _ => '0')
  }

  /** Left-pads with zeros to the given width; a longer string is kept whole. */
  function PadLeft(s: string, width: nat): (r: string)
    ensures |r| == if |s| >= width then |s| else width
    ensures (forall i | 0 <= i < |s| :: IsDigit(s[i])) ==> forall i | 0 <= i < |r| :: IsDigit(r[i])
  {
    if |s| >= width then s else Zeros(width - |s|) + s
  }

  /**
   * The "D7" format of an integer: at least seven digits, zero-padded on
   * the left, with a minus sign before them for a negative value.
   */
  function FormatD7(n: int): (s: string)
    ensures |s| >= 7
    ensures n < 0 <==> s[0] == '-'
  {
    if n < 0 then "-" + PadLeft(NatToString(-n), 7) else PadLeft(NatToString(n), 7)
  }

  /** Reads back what FormatD7 writes: an optional minus sign, then digits. */
  function ParseD7(s: string): int
  {
    if |s| > 0 && s[0] == '-' then -DigitsValue(s[1..]) else DigitsValue(s)
  }

  lemma {:induction false} NatToStringValue(n: nat)
    ensures DigitsValue(NatToString(n)) == n
    decreases n
  {
    if n >= 10 {
      NatToStringValue(n / 10);
      var s := NatToString(n);
      assert s[..|s| - 1] == NatToString(n / 10);
    }
  }

  lemma {:induction false} ZerosValue(k: nat)
    ensures DigitsValue(Zeros(k)) == 0
  {
    if k > 0 {
      assert Zeros(k)[..k - 1] == Zeros(k - 1);
      ZerosValue(k - 1);
    }
  }

  /** Leading zeros do not change the value. */
  lemma {:induction false} LeadingZerosValue(k: nat, s: string)
    ensures DigitsValue(Zeros(k) + s) == DigitsValue(s)
    decreases |s|
  {
    if |s| == 0 {
      assert Zeros(k) + s == Zeros(k);
      ZerosValue(k);
    } else {
      var t := Zeros(k) + s;
      assert t[..|t| - 1] == Zeros(k) + s[..|s| - 1];
      LeadingZerosValue(k, s[..|s| - 1]);
    }
  }

  /** Zero-padding does not change the value. */
  lemma PadLeftValue(s: string, width: nat)
    ensures DigitsValue(PadLeft(s, width)) == DigitsValue(s)
  {
    if |s| < width {
      LeadingZerosValue(width - |s|, s);
    }
  }

  /** Parsing a formatted counter value gives the value back, negative or not. */
  lemma FormatD7RoundTrip(n: int)
    ensures ParseD7(FormatD7(n)) == n
  {
    if n < 0 {
      var padded := PadLeft(NatToString(-n), 7);
      NatToStringValue(-n);
      PadLeftValue(NatToString(-n), 7);
      assert FormatD7(n) == "-" + padded;
      assert ("-" + padded)[1..] == padded;
    } else {
      var padded := PadLeft(NatToString(n), 7);
      NatToStringValue(n);
      PadLeftValue(NatToString(n), 7);
      assert FormatD7(n) == padded;
      assert IsDigit(padded[0]);
    }
  }

  function Pow10(k: nat): nat
  {
    if k == 0 then 1 else 10 * Pow10(k - 1)
  }

  lemma {:induction false} NatToStringLength(n: nat, k: nat)
    requires 1 <= k && n < Pow10(k)
    ensures |NatToString(n)| <= k
    decreases n
  {
    if n >= 10 {
      assert n / 10 < Pow10(k - 1);
      NatToStringLength(n / 10, k - 1);
    }
  }

  /** A counter value below ten million is written with exactly seven characters. */
  lemma FormatD7Width(n: int)
    requires 0 <= n < 10000000
    ensures |FormatD7(n)| == 7
  {
    assert Pow10(7) == 10000000 by {
      assert Pow10(1) == 10 && Pow10(2) == 100 && Pow10(3) == 1000 && Pow10(4) == 10000;
    }
    NatToStringLength(n, 7);
  }

  /** The sale number of the n-th sale of a branch. */
  function SaleNumber(branchCode: string, n: int): (s: string)
    ensures branchCode + "-" <= s
  {
    branchCode + "-" + FormatD7(n)
  }

  /** Different counter values give a branch different sale numbers. */
  lemma SaleNumbersDistinct(branchCode: string, a: int, b: int)
    requires a != b
    ensures SaleNumber(branchCode, a) != SaleNumber(branchCode, b)
  {
    var p := |branchCode| + 1;
    assert SaleNumber(branchCode, a)[p..] == FormatD7(a);
    assert SaleNumber(branchCode, b)[p..] == FormatD7(b);
    FormatD7RoundTrip(a);
    FormatD7RoundTrip(b);
  }

  /** The number of the 25000th sale of branch WARWICK. */
  lemma SaleNumberExample()
    ensures SaleNumber("WARWICK", 25000) == "WARWICK-0025000"
  {
    assert NatToString(2) == "2";
    assert NatToString(25) == "25";
    assert NatToString(250) == "250";
    assert NatToString(2500) == "2500";
    assert NatToString(25000) == "25000";
    assert Zeros(2) == "00";
  }

  /** The counter a branch's sale numbers are drawn from. */
  function SequenceName(branchCode: string): string
  {
    "sale-" + branchCode
  }

  // ---------------------------------------------------------------------
  // Creating a sale
  // ---------------------------------------------------------------------

  datatype SaleLineRequest = SaleLineRequest(
    itemId: string,
    itemCode: string,
    description: string,
    classification: Classification,
    condition: Option<ItemCondition>,
    quantity: int,
    unitPrice: real,
    currency: Currency,
    isTaxable: bool,
    appliesShopFee: bool)

  datatype CreateSaleRequest = CreateSaleRequest(
    branchCode: Option<string>,
    saleDateUtc: Instant,
    lines: seq<SaleLineRequest>,
    customerName: Option<string>,
    customerPhone: Option<string>,
    notes: Option<string>,
    paymentMethod: PaymentMethod)

  function FromRequest(req: SaleLineRequest, lineId: string): SaleLine
  {
    NewSaleLine(Some(lineId), req.itemId, req.itemCode, req.description, req.classification, req.condition,
                req.quantity, req.unitPrice, req.currency, req.isTaxable, req.appliesShopFee)
  }

  /**
   * The sale lines of a request, one per request line and in order, each
   * with a fresh line id and no inventory link yet.
   */
  function ToSaleLines(reqs: seq<SaleLineRequest>, lineIds: nat -> string): (lines: seq<SaleLine>)
    ensures |lines| == |reqs|
    ensures forall i | 0 <= i < |reqs| ::
              && lines[i].lineId == Some(lineIds(i)) && lines[i].inventoryTransactionId.None?
              && lines[i].itemId == reqs[i].itemId && lines[i].itemCode == reqs[i].itemCode
              && lines[i].classification == reqs[i].classification && lines[i].condition == reqs[i].condition
              && lines[i].quantity == reqs[i].quantity && lines[i].unitPrice == reqs[i].unitPrice
  {
    seq(|reqs|, i requires 0 <= i < |reqs| => FromRequest(reqs[i], lineIds(i)))
  }

  /**
   * One line against the catalogue. The item is read by a query that skips
   * deleted items, so a missing or deleted item is NotFound; the line must
   * have the item's classification, and a line has a condition exactly when
   * it sells a good (Validation otherwise). The service's own deleted-item
   * test comes after that query and never fires.
   */
  function CheckSaleLine(items: seq<Item>, line: SaleLine): (r: Outcome)
    ensures r == Fail(NotFound) <==> forall j | 0 <= j < |items| && items[j].id == line.itemId :: items[j].isDeleted
    ensures r.Pass? <==> && LiveItemIndexById(items, line.itemId).Some?
                         && var item := items[LiveItemIndexById(items, line.itemId).value];
                         && item.id == line.itemId && !item.isDeleted
                         && line.classification == item.classification
                         && (line.condition.Some? <==> item.classification == Good)
    ensures r.Fail? ==> r.error == NotFound || r.error == Validation
  {
    match LiveItemIndexById(items, line.itemId)
    case None => Fail(NotFound)
    case Some(k) =>
      var item := items[k];
      if item.isDeleted then Fail(Validation)
      else if line.classification != item.classification then Fail(Validation)
      else if item.classification == Good && line.condition.None? then Fail(Validation)
      else if item.classification == Service && line.condition.Some? then Fail(Validation)
      else Pass
  }

  function LineChecks(items: seq<Item>, lines: seq<SaleLine>): (os: seq<Outcome>)
    ensures |os| == |lines| && forall i | 0 <= i < |lines| :: os[i] == CheckSaleLine(items, lines[i])
  {
    seq(|lines|, i requires 0 <= i < |lines| => CheckSaleLine(items, lines[i]))
  }

  /** The goods among the lines, in order (LINQ Where). */
  function GoodsLines(lines: seq<SaleLine>): (goods: seq<SaleLine>)
    ensures |goods| <= |lines|
    ensures forall l :: l in goods <==> l in lines && l.classification == Good
    decreases |lines|
  {
    if |lines| == 0 then []
    else if lines[0].classification == Good then [lines[0]] + GoodsLines(lines[1..])
    else GoodsLines(lines[1..])
  }

  /**
   * One goods line against the stock at the branch: there must be a summary
   * and an entry for the line's condition whose quantity ON HAND covers the
   * line (reservations are not subtracted); a Business error otherwise.  A
   * line without a condition cannot be checked (its condition is read as a
   * nullable's value).
   */
  function CheckSaleStock(summaries: map<SummaryKey, InventorySummaryDocument>, branchCode: string, line: SaleLine)
    : (r: Outcome)
    ensures r.Pass? <==> && line.condition.Some?
                         && NewTransactionService.StoredEntries(summaries, branchCode, line.itemCode).Some?
                         && var entries := NewTransactionService.StoredEntries(summaries, branchCode, line.itemCode).value;
                         && FindEntry(entries, line.condition.value).Some?
                         && OnHandOf(entries, line.condition.value) >= line.quantity
    ensures line.condition.Some? && r.Fail? ==> r.error == Business
  {
    var key := SummaryKey(branchCode, line.itemCode);
    if key !in summaries then Fail(Business)
    else
      match line.condition
      case None => Fail(InvalidOperation)
      case Some(condition) =>
        var entries := SummaryMapper.ToEntryEntities(summaries[key].entries);
        match FindEntry(entries, condition)
        case None => Fail(Business)
        case Some(k) => if entries[k].onHand < line.quantity then Fail(Business) else Pass
  }

  function StockChecks(summaries: map<SummaryKey, InventorySummaryDocument>, branchCode: string,
                       goods: seq<SaleLine>): (os: seq<Outcome>)
    ensures |os| == |goods| && forall i | 0 <= i < |goods| :: os[i] == CheckSaleStock(summaries, branchCode, goods[i])
  {
    seq(|goods|, i requires 0 <= i < |goods| => CheckSaleStock(summaries, branchCode, goods[i]))
  }

  /** A created sale and the name of the counter its number was drawn from. */
  datatype Creation = Creation(sale: Sales.Sale, counter: string)

  /**
   * Creating a sale: branch access, the branch by code (NotFound), every
   * line against the catalogue, every goods line against the stock, and then
   * a Draft sale numbered from the branch's counter.
   */
  function CreateSaleSpec(user: CurrentUser, now: Instant, branches: seq<Branch>, items: seq<Item>,
                          summaries: map<SummaryKey, InventorySummaryDocument>, counters: map<string, int>,
                          request: CreateSaleRequest, lineIds: nat -> string, saleId: string)
    : Result<Creation>
  {
    match SaleBranch(user, branches, request.branchCode)
    case Err(e) => Err(e)
    case Ok(branch) => CreateAtBranch(user, now, branch, items, summaries, counters, request, lineIds, saleId)
  }

  /** The branch a new sale is made at: the caller's branch check, then the branch by code (NotFound). */
  function SaleBranch(user: CurrentUser, branches: seq<Branch>, branchCode: Option<string>): (r: Result<Branch>)
    ensures r.Ok? ==> r.value in branches && NewTransactionService.ValidateBranchAccess(user, branchCode) == Ok(r.value.code)
    ensures NewTransactionService.ValidateBranchAccess(user, branchCode).Err? ==> r.Err?
  {
    match NewTransactionService.ValidateBranchAccess(user, branchCode)
    case Err(e) => Err(e)
    case Ok(code) =>
      match BranchByCode(branches, code)
      case None => Err(NotFound)
      case Some(branch) => Ok(branch)
  }

  /** Creating a sale once the branch is known: the checks, then the numbered draft. */
  function CreateAtBranch(user: CurrentUser, now: Instant, branch: Branch, items: seq<Item>,
                          summaries: map<SummaryKey, InventorySummaryDocument>, counters: map<string, int>,
                          request: CreateSaleRequest, lineIds: nat -> string, saleId: string)
    : Result<Creation>
  {
    var lines := ToSaleLines(request.lines, lineIds);
    AfterChecks(SaleChecks(items, summaries, branch.code, lines), user, now, branch, request, lines, counters, saleId)
  }

  /** The creation once the checks are made: their failure, or the draft numbered from the branch's counter. */
  function AfterChecks(check: Outcome, user: CurrentUser, now: Instant, branch: Branch, request: CreateSaleRequest,
                       lines: seq<SaleLine>, counters: map<string, int>, saleId: string)
    : Result<Creation>
  {
    if check.Fail? then Err(check.error)
    else
      var name := SequenceName(branch.code);
      Ok(Creation(DraftSale(user, now, branch, request, lines, CounterValue(counters, name) + 1, saleId), name))
  }

  /** The new sale: a Draft numbered n in its branch, created and last modified by the caller now. */
  function DraftSale(user: CurrentUser, now: Instant, branch: Branch, request: CreateSaleRequest,
                     lines: seq<SaleLine>, n: int, saleId: string): Sales.Sale
  {
    Sales.Sale(saleId, SaleNumber(branch.code, n), branch.id, request.saleDateUtc, lines,
               request.customerName, request.customerPhone, request.notes, request.paymentMethod,
               Draft, None, None, now, user.username, Some(now), Some(user.username))
  }

  /** Every line against the catalogue first, then every goods line against the stock. */
  function SaleChecks(items: seq<Item>, summaries: map<SummaryKey, InventorySummaryDocument>, branchCode: string,
                      lines: seq<SaleLine>): Outcome
  {
    var lineCheck := FirstFailure(LineChecks(items, lines));
    if lineCheck.Fail? then lineCheck else FirstFailure(StockChecks(summaries, branchCode, GoodsLines(lines)))
  }

  /** The loop over the lines checking each against the catalogue. */
  method CheckSaleLines(items: seq<Item>, lines: seq<SaleLine>) returns (outcome: Outcome)
    ensures outcome == FirstFailure(LineChecks(items, lines))
  {
    var i := 0;
    while i < |lines|
      invariant 0 <= i <= |lines|
      invariant forall j | 0 <= j < i :: CheckSaleLine(items, lines[j]).Pass?
    {
      var line := lines[i];
      var found := LiveItemIndexById(items, line.itemId);
      if found.None? {
        FirstFailureAt(LineChecks(items, lines), i);
        return Fail(NotFound);
      }
      var item := items[found.value];
      if item.isDeleted || line.classification != item.classification
         || (item.classification == Good && line.condition.None?)
         || (item.classification == Service && line.condition.Some?) {
        FirstFailureAt(LineChecks(items, lines), i);
        return Fail(Validation);
      }
      i := i + 1;
    }
    return Pass;
  }

  /** The loop over the goods lines checking each against the stored stock. */
  method CheckGoodsStock(summaries: SummaryStore, branchCode: string, goods: seq<SaleLine>) returns (outcome: Outcome)
    ensures outcome == FirstFailure(StockChecks(summaries.docs, branchCode, goods))
  {
    var i := 0;
    while i < |goods|
      invariant 0 <= i <= |goods|
      invariant forall j | 0 <= j < i :: CheckSaleStock(summaries.docs, branchCode, goods[j]).Pass?
    {
      var line := goods[i];
      var check := CheckSaleStock(summaries.docs, branchCode, line);
      match summaries.GetByKey(branchCode, line.itemCode) {
        case None =>
          FirstFailureAt(StockChecks(summaries.docs, branchCode, goods), i);
          return Fail(Business);
        case Some(d) =>
          if line.condition.None? {
            FirstFailureAt(StockChecks(summaries.docs, branchCode, goods), i);
            return Fail(InvalidOperation);
          }
          var summary := SummaryMapper.ToEntity(d);
          var found := FindEntry(summary.entries, line.condition.value);
          if found.None? || summary.entries[found.value].onHand < line.quantity {
            FirstFailureAt(StockChecks(summaries.docs, branchCode, goods), i);
            return Fail(Business);
          }
      }
      i := i + 1;
    }
    return Pass;
  }

  /** The two validation loops of a new sale. */
  method CheckSale(items: seq<Item>, summaries: SummaryStore, branchCode: string, lines: seq<SaleLine>)
    returns (outcome: Outcome)
    ensures outcome == SaleChecks(items, summaries.docs, branchCode, lines)
  {
    outcome := CheckSaleLines(items, lines);
    if outcome.Pass? {
      outcome := CheckGoodsStock(summaries, branchCode, GoodsLines(lines));
    }
  }

  /**
   * What creating a sale leaves behind: on success the sale is returned,
   * the counter it was numbered from advanced by one and the sale stored
   * under its id; on failure the error is returned and neither store changes.
   */
  predicate Stored(spec: Result<Creation>, r: Result<Sales.Sale>, counters0: map<string, int>,
                   counters1: map<string, int>, docs0: map<string, SaleDocument>, docs1: map<string, SaleDocument>,
                   saleId: string)
  {
    match spec
    case Ok(c) =>
      && r == Ok(c.sale)
      && counters1 == counters0[c.counter := CounterValue(counters0, c.counter) + 1]
      && docs1 == docs0[saleId := SaleMapper.ToDocument(c.sale)]
    case Err(e) =>
      && r == Err(e)
      && counters1 == counters0 && docs1 == docs0
  }

  /**
   * CreateSaleAsync: on success the branch's counter is advanced by one and
   * the sale stored under its id; on failure neither store changes.
   */
  method CreateSale(user: CurrentUser, now: Instant, branches: seq<Branch>, items: ItemStore,
                    summaries: SummaryStore, sequences: SequenceGenerator, sales: SaleStore,
                    request: CreateSaleRequest, lineIds: nat -> string, saleId: string)
    returns (r: Result<Sales.Sale>)
    modifies sequences, sales
    ensures Stored(CreateSaleSpec(user, now, branches, old(items.items), old(summaries.docs),
                                  old(sequences.counters), request, lineIds, saleId),
                   r, old(sequences.counters), sequences.counters, old(sales.docs), sales.docs, saleId)
  {
    var branch := SaleBranch(user, branches, request.branchCode);
    if branch.Err? {
      return Err(branch.error);
    }
    r := CreateSaleAtBranch(user, now, branch.value, items, summaries, sequences, sales, request, lineIds, saleId);
  }

  /** The rest of CreateSaleAsync once the branch is known: the checks, then numbering and storing. */
  method CreateSaleAtBranch(user: CurrentUser, now: Instant, branch: Branch, items: ItemStore,
                            summaries: SummaryStore, sequences: SequenceGenerator, sales: SaleStore,
                            request: CreateSaleRequest, lineIds: nat -> string, saleId: string)
    returns (r: Result<Sales.Sale>)
    modifies sequences, sales
    ensures Stored(CreateAtBranch(user, now, branch, old(items.items), old(summaries.docs),
                                  old(sequences.counters), request, lineIds, saleId),
                   r, old(sequences.counters), sequences.counters, old(sales.docs), sales.docs, saleId)
  {
    var lines := ToSaleLines(request.lines, lineIds);
    var check := CheckSale(items.items, summaries, branch.code, lines);
    r := NumberAndStore(user, now, branch, request, lines, check, sequences, sales, saleId);
  }

  /** After the checks: a failure is returned as it is; otherwise the branch's next number is drawn and the draft stored. */
  method NumberAndStore(user: CurrentUser, now: Instant, branch: Branch, request: CreateSaleRequest,
                        lines: seq<SaleLine>, check: Outcome, sequences: SequenceGenerator, sales: SaleStore,
                        saleId: string)
    returns (r: Result<Sales.Sale>)
    modifies sequences, sales
    ensures Stored(AfterChecks(check, user, now, branch, request, lines, old(sequences.counters), saleId),
                   r, old(sequences.counters), sequences.counters, old(sales.docs), sales.docs, saleId)
  {
    if check.Fail? {
      return Err(check.error);
    }
    var n := sequences.GetNextSequence(SequenceName(branch.code));
    var sale := DraftSale(user, now, branch, request, lines, n, saleId);
    sales.Save(SaleMapper.ToDocument(sale));
    return Ok(sale);
  }

  // ---------------------------------------------------------------------
  // Creating a sale: properties
  // ---------------------------------------------------------------------

  /** Every line passes the catalogue check. */
  predicate LinesPass(items: seq<Item>, lines: seq<SaleLine>)
  {
    forall i | 0 <= i < |lines| :: CheckSaleLine(items, lines[i]).Pass?
  }

  /** Every goods line among the lines passes the stock check. */
  predicate GoodsInStock(summaries: map<SummaryKey, InventorySummaryDocument>, branchCode: string, lines: seq<SaleLine>)
  {
    forall l | l in lines && l.classification == Good :: CheckSaleStock(summaries, branchCode, l).Pass?
  }

  /** Lines that pass the catalogue check have a condition on every goods line. */
  lemma PassingLinesHaveConditions(items: seq<Item>, lines: seq<SaleLine>)
    requires LinesPass(items, lines)
    ensures GoodsHaveConditions(lines)
  {
    forall i | 0 <= i < |lines| && lines[i].classification == Good ensures lines[i].condition.Some? {
      assert CheckSaleLine(items, lines[i]).Pass?;
    }
  }

  /**
   * When creating a sale succeeds: branch access granted, the branch found
   * by code, every line passing the catalogue check and every goods line
   * the stock check.  No failure is an InvalidOperation: a goods line
   * without a condition never reaches the stock check.
   */
  lemma CreateSaleSucceedsIff(user: CurrentUser, now: Instant, branches: seq<Branch>, items: seq<Item>,
                              summaries: map<SummaryKey, InventorySummaryDocument>, counters: map<string, int>,
                              request: CreateSaleRequest, lineIds: nat -> string, saleId: string)
    ensures var r := CreateSaleSpec(user, now, branches, items, summaries, counters, request, lineIds, saleId);
            var access := NewTransactionService.ValidateBranchAccess(user, request.branchCode);
            var lines := ToSaleLines(request.lines, lineIds);
            && (r.Ok? <==> && access.Ok? && BranchByCode(branches, access.value).Some?
                           && LinesPass(items, lines)
                           && GoodsInStock(summaries, BranchByCode(branches, access.value).value.code, lines))
            && (r.Err? ==> r.error != InvalidOperation)
  {
    var access := NewTransactionService.ValidateBranchAccess(user, request.branchCode);
    if access.Ok? && BranchByCode(branches, access.value).Some? {
      SaleChecksOutcome(items, summaries, BranchByCode(branches, access.value).value.code,
                        ToSaleLines(request.lines, lineIds));
    }
  }

  /**
   * A created sale is a Draft, not posted, of the branch found by code,
   * numbered one past the branch counter's current value, created by the
   * caller now, with the request's lines under fresh ids and no inventory
   * link; its number is drawn from the branch's counter.
   */
  lemma CreateSaleShape(user: CurrentUser, now: Instant, branches: seq<Branch>, items: seq<Item>,
                        summaries: map<SummaryKey, InventorySummaryDocument>, counters: map<string, int>,
                        request: CreateSaleRequest, lineIds: nat -> string, saleId: string)
    requires CreateSaleSpec(user, now, branches, items, summaries, counters, request, lineIds, saleId).Ok?
    ensures NewTransactionService.ValidateBranchAccess(user, request.branchCode).Ok?
    ensures BranchByCode(branches, NewTransactionService.ValidateBranchAccess(user, request.branchCode).value).Some?
    ensures var c := CreateSaleSpec(user, now, branches, items, summaries, counters, request, lineIds, saleId).value;
            var branch := BranchByCode(branches, NewTransactionService.ValidateBranchAccess(user, request.branchCode).value).value;
            && branch in branches && CreatedAt(c, branch, user, now, counters, request, lineIds, saleId)
  {
    var code := NewTransactionService.ValidateBranchAccess(user, request.branchCode).value;
    var branch := BranchByCode(branches, code).value;
    CreateAtBranchShape(user, now, branch, items, summaries, counters, request, lineIds, saleId);
  }

  /** A creation at a branch: its draft, number, author and lines. */
  predicate CreatedAt(c: Creation, branch: Branch, user: CurrentUser, now: Instant, counters: map<string, int>,
                      request: CreateSaleRequest, lineIds: nat -> string, saleId: string)
  {
    var s := c.sale;
    && c.counter == SequenceName(branch.code)
    && s.id == saleId && s.status == Draft && s.postedAtUtc.None? && s.postedBy.None?
    && s.branchId == branch.id
    && s.saleNumber == SaleNumber(branch.code, CounterValue(counters, SequenceName(branch.code)) + 1)
    && s.createdAtUtc == now && s.createdBy == user.username
    && s.lines == ToSaleLines(request.lines, lineIds)
  }

  lemma CreateAtBranchShape(user: CurrentUser, now: Instant, branch: Branch, items: seq<Item>,
                            summaries: map<SummaryKey, InventorySummaryDocument>, counters: map<string, int>,
                            request: CreateSaleRequest, lineIds: nat -> string, saleId: string)
    requires CreateAtBranch(user, now, branch, items, summaries, counters, request, lineIds, saleId).Ok?
    ensures CreatedAt(CreateAtBranch(user, now, branch, items, summaries, counters, request, lineIds, saleId).value,
                      branch, user, now, counters, request, lineIds, saleId)
  {
  }

  /**
   * The sale checks pass exactly when every line passes the catalogue check
   * and every goods line the stock check, and never fail with an
   * InvalidOperation.
   */
  lemma SaleChecksOutcome(items: seq<Item>, summaries: map<SummaryKey, InventorySummaryDocument>, branchCode: string,
                          lines: seq<SaleLine>)
    ensures SaleChecks(items, summaries, branchCode, lines).Pass?
        <==> LinesPass(items, lines) && GoodsInStock(summaries, branchCode, lines)
    ensures SaleChecks(items, summaries, branchCode, lines).Fail? ==>
              SaleChecks(items, summaries, branchCode, lines).error != InvalidOperation
  {
    if FirstFailure(LineChecks(items, lines)).Pass? {
      PassingLinesHaveConditions(items, lines);
      StockChecksOutcome(summaries, branchCode, lines);
    }
  }

  /**
   * The stock checks over the goods pass exactly when every goods line is
   * in stock; when every goods line has a condition, a failure is a
   * Business error.
   */
  lemma StockChecksOutcome(summaries: map<SummaryKey, InventorySummaryDocument>, branchCode: string,
                           lines: seq<SaleLine>)
    ensures FirstFailure(StockChecks(summaries, branchCode, GoodsLines(lines))).Pass?
        <==> GoodsInStock(summaries, branchCode, lines)
    ensures GoodsHaveConditions(lines) && FirstFailure(StockChecks(summaries, branchCode, GoodsLines(lines))).Fail? ==>
              FirstFailure(StockChecks(summaries, branchCode, GoodsLines(lines))).error == Business
  {
    var goods := GoodsLines(lines);
    var checks := StockChecks(summaries, branchCode, goods);
    if GoodsInStock(summaries, branchCode, lines) {
      forall i | 0 <= i < |goods| ensures checks[i].Pass? {
        assert goods[i] in lines;
      }
    } else {
      var l :| l in lines && l.classification == Good && CheckSaleStock(summaries, branchCode, l).Fail?;
      assert l in goods;
      var j :| 0 <= j < |goods| && goods[j] == l;
      assert checks[j].Fail?;
    }
    var stock := FirstFailure(checks);
    if GoodsHaveConditions(lines) && stock.Fail? {
      var j :| 0 <= j < |goods| && checks[j] == stock;
      assert goods[j] in lines;
    }
  }

  /**
   * A sale just created can be posted: stored as created, it is found, is a
   * Draft, its branch is found by id and each of its goods lines has a
   * condition, whatever the stock or the caller at posting time.
   */
  lemma CreatedSaleCanBePosted(user: CurrentUser, now: Instant, branches: seq<Branch>, items: seq<Item>,
                               summaries: map<SummaryKey, InventorySummaryDocument>, counters: map<string, int>,
                               request: CreateSaleRequest, lineIds: nat -> string, saleId: string,
                               sales: map<string, SaleDocument>, postSummaries: map<SummaryKey, InventorySummaryDocument>,
                               poster: CurrentUser, postedAt: Instant, dateStamp: string, token: string,
                               postLineIds: nat -> string, transactionId: string, summaryIds: nat -> string)
    requires CreateSaleSpec(user, now, branches, items, summaries, counters, request, lineIds, saleId).Ok?
    ensures var sale := CreateSaleSpec(user, now, branches, items, summaries, counters, request, lineIds, saleId).value.sale;
            PostSaleSpec(sales[saleId := SaleMapper.ToDocument(sale)], branches, postSummaries, poster, postedAt,
                         saleId, dateStamp, token, postLineIds, transactionId, summaryIds).Ok?
  {
    var sale := CreateSaleSpec(user, now, branches, items, summaries, counters, request, lineIds, saleId).value.sale;
    CreatedSaleReady(user, now, branches, items, summaries, counters, request, lineIds, saleId);
    var stored := sales[saleId := SaleMapper.ToDocument(sale)];
    var read := SaleMapper.ToEntity(stored[saleId]);
    assert GoodsHaveConditions(read.lines) by {
      forall i | 0 <= i < |read.lines| ensures read.lines[i] == SaleMapper.ToLineEntity(SaleMapper.ToLineDocument(sale.lines[i])) { }
    }
    PostSaleSucceedsIff(stored, branches, postSummaries, poster, postedAt, saleId, dateStamp, token, postLineIds,
                        transactionId, summaryIds);
  }

  /** A created sale is a Draft of a branch that can be found by id, each goods line with a condition. */
  lemma CreatedSaleReady(user: CurrentUser, now: Instant, branches: seq<Branch>, items: seq<Item>,
                         summaries: map<SummaryKey, InventorySummaryDocument>, counters: map<string, int>,
                         request: CreateSaleRequest, lineIds: nat -> string, saleId: string)
    requires CreateSaleSpec(user, now, branches, items, summaries, counters, request, lineIds, saleId).Ok?
    ensures var sale := CreateSaleSpec(user, now, branches, items, summaries, counters, request, lineIds, saleId).value.sale;
            && sale.status == Draft && BranchById(branches, sale.branchId).Some? && GoodsHaveConditions(sale.lines)
  {
    CreateSaleSucceedsIff(user, now, branches, items, summaries, counters, request, lineIds, saleId);
    CreateSaleShape(user, now, branches, items, summaries, counters, request, lineIds, saleId);
    var sale := CreateSaleSpec(user, now, branches, items, summaries, counters, request, lineIds, saleId).value.sale;
    var access := NewTransactionService.ValidateBranchAccess(user, request.branchCode);
    var branch := BranchByCode(branches, access.value).value;
    var j :| 0 <= j < |branches| && branches[j] == branch;
    assert BranchById(branches, sale.branchId).Some?;
    PassingLinesHaveConditions(items, sale.lines);
  }

  /**
   * The stock check at creation compares the quantity ON HAND, not the
   * available quantity: with 5 on hand of which 3 are reserved, a line for
   * 4 passes while the availability check finds only 2 available.
   */
  lemma SaleCheckIgnoresReserved(branchCode: string, line: SaleLine, id: string)
    requires line.classification == Good && line.condition == Some(New) && line.quantity == 4
    ensures var entries := [InventoryEntryDocument(New, 5, 3, 0)];
            var summaries := map[SummaryKey(branchCode, line.itemCode) :=
                                 InventorySummaryDocument(id, branchCode, line.itemCode, entries, 5, 3, 1, 0)];
            && CheckSaleStock(summaries, branchCode, line).Pass?
            && !CheckEntries(NewTransactionService.StoredEntries(summaries, branchCode, line.itemCode), New, 4).isSufficient
            && CheckEntries(NewTransactionService.StoredEntries(summaries, branchCode, line.itemCode), New, 4).available == 2
  {
    var entries := [InventoryEntryDocument(New, 5, 3, 0)];
    var es := SummaryMapper.ToEntryEntities(entries);
    assert es[0].condition == New;
    assert FindEntry(es, New) == Some(0);
  }

  /**
   * With no negative reservations, a line the availability check finds
   * sufficient also passes the stock check at creation: the latter is the
   * weaker of the two.
   */
  lemma SufficientPassesSaleCheck(summaries: map<SummaryKey, InventorySummaryDocument>, branchCode: string,
                                  line: SaleLine)
    requires line.condition.Some?
    requires var entries := NewTransactionService.StoredEntries(summaries, branchCode, line.itemCode);
             && CheckEntries(entries, line.condition.value, line.quantity).isSufficient
             && forall i | 0 <= i < |entries.value| :: entries.value[i].reserved >= 0
    ensures CheckSaleStock(summaries, branchCode, line).Pass?
  {
  }

  // ---------------------------------------------------------------------
  // Posting: the per-line stock update
  // ---------------------------------------------------------------------

  /** The signed stock movement of a line: +q for an In transaction, -q for any other. */
  function Delta(transactionType: TransactionType, quantity: int): int
  {
    if transactionType == In then quantity else -quantity
  }

  /** The stored on-hand quantity of a condition under a key, 0 when nothing is stored. */
  function StockAt(docs: map<SummaryKey, InventorySummaryDocument>, key: SummaryKey, condition: ItemCondition): int
  {
    if key in docs then OnHandOf(SummaryMapper.ToEntryEntities(docs[key].entries), condition) else 0
  }

  /** The stored version under a key, 0 when nothing is stored. */
  function VersionAt(docs: map<SummaryKey, InventorySummaryDocument>, key: SummaryKey): int
  {
    if key in docs then docs[key].version else 0
  }

  /** A stored summary whose totals agree with its entries. */
  predicate TotalsAgree(d: InventorySummaryDocument)
  {
    var es := SummaryMapper.ToEntryEntities(d.entries);
    d.onHandTotal == SumOnHand(es) && d.reservedTotal == SumReserved(es)
  }

  /** The entry for a condition (added at 0 when missing) moved by delta and dated. */
  function MovedEntries(entries: seq<InventoryEntry>, condition: ItemCondition, delta: int, date: Instant)
    : seq<InventoryEntry>
  {
    var es := EnsureEntry(entries, condition, date);
    var k := FindEntry(es, condition).value;
    es[k := es[k].(onHand := es[k].onHand + delta, latestEntryDateUtc := date)]
  }

  /** The in-place update of an existing summary's entry; only the entries change. */
  method MoveStock(summary: InventorySummary, condition: ItemCondition, delta: int, date: Instant)
    modifies summary
    ensures summary.entries == MovedEntries(old(summary.entries), condition, delta, date)
    ensures summary.id == old(summary.id) && summary.branchCode == old(summary.branchCode)
    ensures summary.itemCode == old(summary.itemCode) && summary.version == old(summary.version)
    ensures summary.updatedAtUtc == old(summary.updatedAtUtc)
  {
    ghost var es := EnsureEntry(summary.entries, condition, date);
    if FindEntry(summary.entries, condition).None? {
      summary.entries := summary.entries + [InventoryEntry(condition, 0, 0, date)];
    }
    assert summary.entries == es;
    var k := FindEntry(summary.entries, condition).value;
    var entry := summary.entries[k];
    summary.entries := summary.entries[k := entry.(onHand := entry.onHand + delta, latestEntryDateUtc := date)];
  }

  /**
   * One line posted to its item's summary at the branch, with neither a
   * version check nor a negative-stock guard.  A missing summary is created
   * at version 1 with one entry holding the movement; an existing one gets
   * the movement on the entry for the line's condition (added at 0 when
   * missing), that entry dated, its version bumped and its totals
   * recomputed.
   */
  function PostedSummary(staged: map<SummaryKey, InventorySummaryDocument>, branchCode: string,
                         transactionType: TransactionType, line: InventoryTransactionLine, date: Instant,
                         now: Instant, newId: string): InventorySummaryDocument
  {
    var key := SummaryKey(branchCode, line.itemCode);
    var delta := Delta(transactionType, line.quantity);
    if key !in staged then
      var entries := [InventoryEntry(line.condition, delta, 0, date)];
      InventorySummaryDocument(newId, branchCode, line.itemCode, SummaryMapper.ToEntryDocuments(entries),
                               SumOnHand(entries), SumReserved(entries), 1, now)
    else
      var d := staged[key];
      var entries := MovedEntries(SummaryMapper.ToEntryEntities(d.entries), line.condition, delta, date);
      d.(entries := SummaryMapper.ToEntryDocuments(entries), onHandTotal := SumOnHand(entries),
         reservedTotal := SumReserved(entries), version := d.version + 1, updatedAtUtc := now)
  }

  /** The lines posted one after the other, each written back under its key before the next is read. */
  function PostLines(staged: map<SummaryKey, InventorySummaryDocument>, branchCode: string,
                     transactionType: TransactionType, lines: seq<InventoryTransactionLine>, date: Instant,
                     now: Instant, summaryIds: nat -> string, i: nat): map<SummaryKey, InventorySummaryDocument>
    decreases |lines|
  {
    if |lines| == 0 then staged
    else
      var d := PostedSummary(staged, branchCode, transactionType, lines[0], date, now, summaryIds(i));
      PostLines(staged[SummaryKey(branchCode, lines[0].itemCode) := d], branchCode, transactionType, lines[1..],
                date, now, summaryIds, i + 1)
  }

  /**
   * One line on a summary object: read (or created), updated in place,
   * totals recomputed, and returned as the document to write.
   */
  method PostLine(staged: map<SummaryKey, InventorySummaryDocument>, branchCode: string,
                  transactionType: TransactionType, line: InventoryTransactionLine, date: Instant, now: Instant,
                  newId: string)
    returns (d: InventorySummaryDocument)
    ensures d == PostedSummary(staged, branchCode, transactionType, line, date, now, newId)
  {
    var key := SummaryKey(branchCode, line.itemCode);
    var delta := if transactionType == In then line.quantity else -line.quantity;
    var summary: InventorySummary;
    if key !in staged {
      summary := new InventorySummary(newId, branchCode, line.itemCode,
                                      [InventoryEntry(line.condition, delta, 0, date)], delta, 0, 1, now);
    } else {
      summary := SummaryMapper.ToEntity(staged[key]);
      MoveStock(summary, line.condition, delta, date);
      summary.version := summary.version + 1;
      summary.updatedAtUtc := now;
    }
    summary.onHandTotal := SumOnHand(summary.entries);
    summary.reservedTotal := SumReserved(summary.entries);
    d := SummaryMapper.ToDocument(summary);
  }

  /** The loop over the transaction's lines (CommitInventoryTransactionAsync), on the scope's staged summaries. */
  method PostInventoryLines(summaries: map<SummaryKey, InventorySummaryDocument>, branchCode: string,
                            transactionType: TransactionType, lines: seq<InventoryTransactionLine>, date: Instant,
                            now: Instant, summaryIds: nat -> string)
    returns (staged: map<SummaryKey, InventorySummaryDocument>)
    ensures staged == PostLines(summaries, branchCode, transactionType, lines, date, now, summaryIds, 0)
  {
    staged := summaries;
    var i := 0;
    while i < |lines|
      invariant 0 <= i <= |lines|
      invariant PostLines(summaries, branchCode, transactionType, lines, date, now, summaryIds, 0)
             == PostLines(staged, branchCode, transactionType, lines[i..], date, now, summaryIds, i)
    {
      assert lines[i..][0] == lines[i] && lines[i..][1..] == lines[i + 1..];
      var d := PostLine(staged, branchCode, transactionType, lines[i], date, now, summaryIds(i));
      staged := staged[SummaryKey(branchCode, lines[i].itemCode) := d];
      i := i + 1;
    }
  }

  // ---------------------------------------------------------------------
  // Posting: what it does to the stored stock
  // ---------------------------------------------------------------------

  /** The net movement lines of one transaction make on one (item, condition). */
  function Movement(transactionType: TransactionType, lines: seq<InventoryTransactionLine>, itemCode: string,
                    condition: ItemCondition): int
    decreases |lines|
  {
    if |lines| == 0 then 0
    else
      (if lines[0].itemCode == itemCode && lines[0].condition == condition
       then Delta(transactionType, lines[0].quantity) else 0)
      + Movement(transactionType, lines[1..], itemCode, condition)
  }

  /** How many of the lines are for the item. */
  function LinesFor(lines: seq<InventoryTransactionLine>, itemCode: string): nat
    decreases |lines|
  {
    if |lines| == 0 then 0
    else (if lines[0].itemCode == itemCode then 1 else 0) + LinesFor(lines[1..], itemCode)
  }

  /**
   * Moving an entry changes the on-hand quantity of its condition by delta
   * and leaves every other condition's as it was, whether or not the entry
   * had to be added first.
   */
  lemma MovedEntriesOnHand(entries: seq<InventoryEntry>, condition: ItemCondition, delta: int, date: Instant,
                           c: ItemCondition)
    ensures OnHandOf(MovedEntries(entries, condition, delta, date), c)
         == OnHandOf(entries, c) + (if c == condition then delta else 0)
  {
    var es := EnsureEntry(entries, condition, date);
    EnsureEntryOnHand(entries, condition, date, c);
    var k := FindEntry(es, condition).value;
    UpdatedEntryOnHand(es, k, delta, date, c);
  }

  /** Adding a missing entry at 0 changes no condition's on-hand quantity. */
  lemma EnsureEntryOnHand(entries: seq<InventoryEntry>, condition: ItemCondition, date: Instant, c: ItemCondition)
    ensures OnHandOf(EnsureEntry(entries, condition, date), c) == OnHandOf(entries, c)
  {
    if FindEntry(entries, condition).None? {
      FindEntryAppend(entries, InventoryEntry(condition, 0, 0, date), c);
    }
  }

  /** Moving the entry at k changes its own condition's quantity by delta and no other's. */
  lemma UpdatedEntryOnHand(es: seq<InventoryEntry>, k: nat, delta: int, date: Instant, c: ItemCondition)
    requires k < |es| && FindEntry(es, es[k].condition) == Some(k)
    ensures OnHandOf(es[k := es[k].(onHand := es[k].onHand + delta, latestEntryDateUtc := date)], c)
         == OnHandOf(es, c) + (if c == es[k].condition then delta else 0)
  {
    var moved := es[k := es[k].(onHand := es[k].onHand + delta, latestEntryDateUtc := date)];
    FindEntrySameConditions(moved, es, c);
  }

  /**
   * One posted line: the stock of its condition under its key moves by the
   * line's delta, other conditions keep theirs, the version is one past
   * the stored one (1 for a new summary) and the totals agree with the
   * entries.  A summary under its own key stays there.
   */
  lemma PostedSummaryEffect(staged: map<SummaryKey, InventorySummaryDocument>, branchCode: string,
                            transactionType: TransactionType, line: InventoryTransactionLine, date: Instant,
                            now: Instant, newId: string, c: ItemCondition)
    ensures var key := SummaryKey(branchCode, line.itemCode);
            var d := PostedSummary(staged, branchCode, transactionType, line, date, now, newId);
            && OnHandOf(SummaryMapper.ToEntryEntities(d.entries), c)
               == StockAt(staged, key, c) + (if c == line.condition then Delta(transactionType, line.quantity) else 0)
            && d.version == VersionAt(staged, key) + 1
            && TotalsAgree(d)
            && (WellKeyed(staged) ==> KeyOf(d) == key)
  {
    var key := SummaryKey(branchCode, line.itemCode);
    var delta := Delta(transactionType, line.quantity);
    if key !in staged {
      var entries := [InventoryEntry(line.condition, delta, 0, date)];
      SummaryMapper.EntriesRoundTrip(entries, []);
    } else {
      var es := SummaryMapper.ToEntryEntities(staged[key].entries);
      var entries := MovedEntries(es, line.condition, delta, date);
      SummaryMapper.EntriesRoundTrip(entries, []);
      MovedEntriesOnHand(es, line.condition, delta, date, c);
    }
  }

  /**
   * Stock conservation for a posted transaction: under a key at the
   * branch, the stored on-hand quantity of each condition moves by exactly
   * the net movement of the transaction's lines for that item and
   * condition; under every other key it stays as it was.
   */
  lemma {:induction false} PostLinesMovesStock(staged: map<SummaryKey, InventorySummaryDocument>, branchCode: string,
                                               transactionType: TransactionType, lines: seq<InventoryTransactionLine>,
                                               date: Instant, now: Instant, summaryIds: nat -> string, i: nat,
                                               key: SummaryKey, c: ItemCondition)
    ensures StockAt(PostLines(staged, branchCode, transactionType, lines, date, now, summaryIds, i), key, c)
         == StockAt(staged, key, c)
            + (if key.branchCode == branchCode then Movement(transactionType, lines, key.itemCode, c) else 0)
    decreases |lines|
  {
    if |lines| > 0 {
      var lineKey := SummaryKey(branchCode, lines[0].itemCode);
      var d := PostedSummary(staged, branchCode, transactionType, lines[0], date, now, summaryIds(i));
      var next := staged[lineKey := d];
      PostedSummaryEffect(staged, branchCode, transactionType, lines[0], date, now, summaryIds(i), c);
      assert StockAt(next, key, c) == StockAt(staged, key, c)
               + (if key == lineKey && c == lines[0].condition then Delta(transactionType, lines[0].quantity) else 0);
      PostLinesMovesStock(next, branchCode, transactionType, lines[1..], date, now, summaryIds, i + 1, key, c);
    }
  }

  /**
   * Every line bumps its summary's version by one, with no check against a
   * version read earlier: under a key at the branch the version grows by
   * the number of lines for that item.
   */
  lemma {:induction false} PostLinesCountsVersions(staged: map<SummaryKey, InventorySummaryDocument>, branchCode: string,
                                                   transactionType: TransactionType, lines: seq<InventoryTransactionLine>,
                                                   date: Instant, now: Instant, summaryIds: nat -> string, i: nat,
                                                   key: SummaryKey)
    ensures VersionAt(PostLines(staged, branchCode, transactionType, lines, date, now, summaryIds, i), key)
         == VersionAt(staged, key) + (if key.branchCode == branchCode then LinesFor(lines, key.itemCode) else 0)
    decreases |lines|
  {
    if |lines| > 0 {
      var lineKey := SummaryKey(branchCode, lines[0].itemCode);
      var d := PostedSummary(staged, branchCode, transactionType, lines[0], date, now, summaryIds(i));
      PostedSummaryEffect(staged, branchCode, transactionType, lines[0], date, now, summaryIds(i), lines[0].condition);
      PostLinesCountsVersions(staged[lineKey := d], branchCode, transactionType, lines[1..], date, now,
                              summaryIds, i + 1, key);
    }
  }

  /**
   * Posting keeps every summary under its own key with totals that agree
   * with its entries, and touches no summary outside the branch.
   */
  lemma {:induction false} PostLinesKeepsInvariants(staged: map<SummaryKey, InventorySummaryDocument>, branchCode: string,
                                                    transactionType: TransactionType, lines: seq<InventoryTransactionLine>,
                                                    date: Instant, now: Instant, summaryIds: nat -> string, i: nat)
    requires WellKeyed(staged)
    requires forall k | k in staged :: TotalsAgree(staged[k])
    ensures var r := PostLines(staged, branchCode, transactionType, lines, date, now, summaryIds, i);
            && WellKeyed(r)
            && (forall k | k in r :: TotalsAgree(r[k]))
            && (forall k: SummaryKey | k.branchCode != branchCode :: (k in r <==> k in staged) && (k in r ==> r[k] == staged[k]))
    decreases |lines|
  {
    if |lines| > 0 {
      var lineKey := SummaryKey(branchCode, lines[0].itemCode);
      var d := PostedSummary(staged, branchCode, transactionType, lines[0], date, now, summaryIds(i));
      PostedSummaryEffect(staged, branchCode, transactionType, lines[0], date, now, summaryIds(i), lines[0].condition);
      PostLinesKeepsInvariants(staged[lineKey := d], branchCode, transactionType, lines[1..], date, now,
                               summaryIds, i + 1);
    }
  }

  /**
   * Posting has no negative-stock guard: an Out line for more than is on
   * hand (here, for an item with no stock at all) leaves a negative
   * quantity stored.
   */
  lemma PostingCanDriveStockNegative(line: InventoryTransactionLine, branchCode: string, date: Instant, now: Instant,
                                     summaryIds: nat -> string)
    requires line.quantity > 0
    ensures StockAt(PostLines(map[], branchCode, Out, [line], date, now, summaryIds, 0),
                    SummaryKey(branchCode, line.itemCode), line.condition) == -line.quantity
  {
    PostLinesMovesStock(map[], branchCode, Out, [line], date, now, summaryIds, 0,
                        SummaryKey(branchCode, line.itemCode), line.condition);
    assert [line][1..] == [];
  }

  // ---------------------------------------------------------------------
  // Posting a sale
  // ---------------------------------------------------------------------

  /**
   * The inventory line for a goods line: item, condition, quantity and
   * price copied, priced by the sale and set by the caller.  A line
   * without a condition fails (the nullable's value is read).
   */
  function PostingLine(line: SaleLine, user: CurrentUser, now: Instant, lineId: string)
    : (r: Result<InventoryTransactionLine>)
    ensures r.Ok? <==> line.condition.Some?
    ensures r.Err? ==> r.error == InvalidOperation
    ensures r.Ok? ==> && r.value.itemCode == line.itemCode && r.value.condition == line.condition.value
                      && r.value.quantity == line.quantity && r.value.unitPrice == line.unitPrice
                      && r.value.lineTotal == line.LineTotal() && r.value.priceSource == PriceSource.Sale
                      && r.value.priceSetByUser == user.username && r.value.executedAtUtc == now
  {
    match line.condition
    case None => Err(InvalidOperation)
    case Some(c) =>
      Ok(NewLine(lineId, line.itemId, line.itemCode, c, line.quantity, line.unitPrice, line.currency,
                 PriceSource.Sale, RoleName(user.role), user.username, line.LineTotal(), now))
  }

  /** The inventory lines for all goods lines, in order; the first without a condition fails them all. */
  function PostingLines(goods: seq<SaleLine>, user: CurrentUser, now: Instant, lineIds: nat -> string)
    : Result<seq<InventoryTransactionLine>>
  {
    Collect(seq(|goods|, i requires 0 <= i < |goods| => PostingLine(goods[i], user, now, lineIds(i))))
  }

  /** Inventory lines that mirror goods lines one for one: item, condition and quantity. */
  predicate Mirrors(goods: seq<SaleLine>, lines: seq<InventoryTransactionLine>)
  {
    && |goods| == |lines|
    && forall i | 0 <= i < |goods| ::
         && lines[i].itemCode == goods[i].itemCode && goods[i].condition == Some(lines[i].condition)
         && lines[i].quantity == goods[i].quantity
  }

  /** Building the inventory lines succeeds exactly when every goods line has a condition, and mirrors them. */
  lemma PostingLinesMirror(goods: seq<SaleLine>, user: CurrentUser, now: Instant, lineIds: nat -> string)
    ensures PostingLines(goods, user, now, lineIds).Ok?
        <==> forall i | 0 <= i < |goods| :: goods[i].condition.Some?
    ensures PostingLines(goods, user, now, lineIds).Err? ==> PostingLines(goods, user, now, lineIds).error == InvalidOperation
    ensures PostingLines(goods, user, now, lineIds).Ok? ==> Mirrors(goods, PostingLines(goods, user, now, lineIds).value)
    ensures PostingLines(goods, user, now, lineIds).Ok? ==>
              forall i | 0 <= i < |goods| :: PostingLines(goods, user, now, lineIds).value[i].priceSource == PriceSource.Sale
  {
    var rs := seq(|goods|, i requires 0 <= i < |goods| => PostingLine(goods[i], user, now, lineIds(i)));
    assert forall i | 0 <= i < |goods| :: rs[i] == PostingLine(goods[i], user, now, lineIds(i));
  }

  /**
   * Posting keeps the money: the inventory lines built for the goods lines
   * total what the goods lines do, so the transaction's total amount is the
   * goods' share of the sale.
   */
  lemma PostingLinesTotal(goods: seq<SaleLine>, user: CurrentUser, now: Instant, lineIds: nat -> string)
    ensures PostingLines(goods, user, now, lineIds).Ok? ==>
              SumLineTotals(PostingLines(goods, user, now, lineIds).value) == SumSaleLineTotals(goods)
  {
    var r := PostingLines(goods, user, now, lineIds);
    if r.Ok? {
      var rs := seq(|goods|, i requires 0 <= i < |goods| => PostingLine(goods[i], user, now, lineIds(i)));
      assert forall i | 0 <= i < |goods| :: rs[i] == PostingLine(goods[i], user, now, lineIds(i));
      SumTotalsOfCopiedLines(goods, r.value);
    }
  }

  /** Lines that each carry a goods line's total sum to the goods lines' total. */
  lemma {:induction false} SumTotalsOfCopiedLines(goods: seq<SaleLine>, lines: seq<InventoryTransactionLine>)
    requires |lines| == |goods| && forall i | 0 <= i < |goods| :: lines[i].lineTotal == goods[i].LineTotal()
    ensures SumLineTotals(lines) == SumSaleLineTotals(goods)
    decreases |goods|
  {
    if |goods| > 0 {
      SumTotalsOfCopiedLines(goods[..|goods| - 1], lines[..|lines| - 1]);
    }
  }

  /** The loop building the inventory lines (Select ... ToList). */
  method BuildPostingLines(goods: seq<SaleLine>, user: CurrentUser, now: Instant, lineIds: nat -> string)
    returns (r: Result<seq<InventoryTransactionLine>>)
    ensures r == PostingLines(goods, user, now, lineIds)
  {
    ghost var rs := seq(|goods|, i requires 0 <= i < |goods| => PostingLine(goods[i], user, now, lineIds(i)));
    var lines: seq<InventoryTransactionLine> := [];
    var i := 0;
    while i < |goods|
      invariant 0 <= i <= |goods|
      invariant |lines| == i
      invariant forall j | 0 <= j < i :: rs[j] == Ok(lines[j])
    {
      var built := PostingLine(goods[i], user, now, lineIds(i));
      if built.Err? {
        PostingLinesMirror(goods, user, now, lineIds);
        return Err(InvalidOperation);
      }
      lines := lines + [built.value];
      i := i + 1;
    }
    assert Collect(rs).Ok?;
    assert Collect(rs).value == lines;
    return Ok(lines);
  }

  /** Goods lines linked to the inventory transaction; service lines as they were. */
  function LinkGoods(lines: seq<SaleLine>, transactionId: string): (linked: seq<SaleLine>)
    ensures |linked| == |lines|
    ensures forall i | 0 <= i < |lines| ::
              linked[i] == if lines[i].classification == Good
                           then lines[i].(inventoryTransactionId := Some(transactionId)) else lines[i]
  {
    seq(|lines|, i requires 0 <= i < |lines| =>
      if lines[i].classification == Good then lines[i].(inventoryTransactionId := Some(transactionId)) else lines[i])
  }

  /** The loop over the goods lines setting their link. */
  method LinkGoodsLines(lines: seq<SaleLine>, transactionId: string) returns (linked: seq<SaleLine>)
    ensures linked == LinkGoods(lines, transactionId)
  {
    linked := lines;
    var i := 0;
    while i < |lines|
      invariant 0 <= i <= |lines| && |linked| == |lines|
      invariant forall j | 0 <= j < i :: linked[j] == LinkGoods(lines, transactionId)[j]
      invariant forall j | i <= j < |lines| :: linked[j] == lines[j]
    {
      if linked[i].classification == Good {
        linked := linked[i := linked[i].(inventoryTransactionId := Some(transactionId))];
      }
      i := i + 1;
    }
  }

  /** The sale marked posted by the caller now. */
  function Posted(sale: Sales.Sale, user: CurrentUser, now: Instant): Sales.Sale
  {
    sale.(status := Committed, postedAtUtc := Some(now), postedBy := Some(user.username),
          modifiedAtUtc := Some(now), modifiedBy := Some(user.username))
  }

  /** The draft Out transaction that moves a sale's goods out of the branch's stock. */
  function SaleTransaction(branchCode: string, sale: Sales.Sale, user: CurrentUser, now: Instant,
                           lines: seq<InventoryTransactionLine>, number: string, id: string)
    : InventoryTransactionDocument
  {
    InventoryTransactionDocument(
      id, number, branchCode, Out, Draft, sale.saleDateUtc, Some("Sale: " + sale.saleNumber),
      None, None, None, TransactionMapper.ToLineDocuments(lines),
      now, user.username, Some(now), Some(user.username))
  }

  /** The committed sale transaction over mirroring lines, field by field. */
  lemma CommittedSaleTransaction(branchCode: string, sale: Sales.Sale, user: CurrentUser, now: Instant,
                                 goods: seq<SaleLine>, lines: seq<InventoryTransactionLine>, number: string, id: string)
    requires Mirrors(goods, lines) && forall i | 0 <= i < |lines| :: lines[i].priceSource == PriceSource.Sale
    ensures var t := NewTransactionService.CommittedDocument(SaleTransaction(branchCode, sale, user, now, lines, number, id),
                                                             user, now);
            && t.id == id && t.transactionType == Out && t.status == Committed && t.branchCode == branchCode
            && t.committedAtUtc == Some(now) && t.committedBy == Some(user.username)
            && t.transactionDateUtc == sale.saleDateUtc && t.notes == Some("Sale: " + sale.saleNumber)
            && |t.lines| == |goods|
            && forall i | 0 <= i < |t.lines| ::
                 && t.lines[i].priceSource == PriceSource.Sale && t.lines[i].itemCode == goods[i].itemCode
                 && Some(t.lines[i].condition) == goods[i].condition && t.lines[i].quantity == goods[i].quantity
  {
  }

  datatype Posting = Posting(
    sale: Sales.Sale,
    summaries: map<SummaryKey, InventorySummaryDocument>,
    transaction: Option<InventoryTransactionDocument>)

  /**
   * Posting a sale: it must exist (NotFound) and be a Draft (Business), and
   * its branch must exist (NotFound).  With goods lines, an Out transaction
   * over them is created, its lines are posted to the branch's summaries
   * with no stock or version check, it is committed, and the goods lines
   * are linked to it.  The sale is then marked posted.
   */
  function PostSaleSpec(sales: map<string, SaleDocument>, branches: seq<Branch>,
                        summaries: map<SummaryKey, InventorySummaryDocument>, user: CurrentUser, now: Instant,
                        saleId: string, dateStamp: string, token: string, lineIds: nat -> string,
                        transactionId: string, summaryIds: nat -> string)
    : Result<Posting>
  {
    if saleId !in sales then Err(NotFound)
    else
      var sale := SaleMapper.ToEntity(sales[saleId]);
      if sale.status != Draft then Err(Business)
      else match BranchById(branches, sale.branchId)
        case None => Err(NotFound)
        case Some(branch) =>
          PostDraft(sale, branch, summaries, user, now, dateStamp, token, lineIds, transactionId, summaryIds)
  }

  /** Posting a Draft sale of a known branch: its goods, if any, then the sale. */
  function PostDraft(sale: Sales.Sale, branch: Branch, summaries: map<SummaryKey, InventorySummaryDocument>,
                     user: CurrentUser, now: Instant, dateStamp: string, token: string, lineIds: nat -> string,
                     transactionId: string, summaryIds: nat -> string)
    : Result<Posting>
  {
    var goods := GoodsLines(sale.lines);
    if |goods| == 0 then Ok(Posting(Posted(sale, user, now), summaries, None))
    else
      var lines :- PostingLines(goods, user, now, lineIds);
      var draft := SaleTransaction(branch.code, sale, user, now, lines, NewTransactionService.TransactionNumber(Out, dateStamp, token),
                                   transactionId);
      Ok(Posting(Posted(sale.(lines := LinkGoods(sale.lines, transactionId)), user, now),
                 PostLines(summaries, branch.code, Out, lines, sale.saleDateUtc, now, summaryIds, 0),
                 Some(NewTransactionService.CommittedDocument(draft, user, now))))
  }

  /**
   * The stores after a posting: on success the sale is stored, the
   * summaries are the posted ones and any transaction is stored; on
   * failure no store changes.
   */
  predicate PostStored(spec: Result<Posting>, r: Result<Sales.Sale>,
                       sales0: map<string, SaleDocument>, sales1: map<string, SaleDocument>,
                       summaries0: map<SummaryKey, InventorySummaryDocument>,
                       summaries1: map<SummaryKey, InventorySummaryDocument>,
                       transactions0: map<string, InventoryTransactionDocument>,
                       transactions1: map<string, InventoryTransactionDocument>, transactionId: string)
  {
    match spec
    case Ok(p) =>
      && r == Ok(p.sale)
      && sales1 == sales0[p.sale.id := SaleMapper.ToDocument(p.sale)]
      && summaries1 == p.summaries
      && transactions1 == (if p.transaction.Some? then transactions0[transactionId := p.transaction.value]
                           else transactions0)
    case Err(e) =>
      && r == Err(e)
      && sales1 == sales0 && summaries1 == summaries0 && transactions1 == transactions0
  }

  /**
   * The goods half of posting: the draft transaction is stored, its lines
   * are posted inside the scope, the committed transaction replaces the
   * draft and the scope's summaries are stored.
   */
  method PostGoods(user: CurrentUser, now: Instant, branchCode: string, sale: Sales.Sale,
                   lines: seq<InventoryTransactionLine>, summaries: SummaryStore, transactions: TransactionStore,
                   number: string, transactionId: string, summaryIds: nat -> string)
    modifies summaries, transactions
    ensures summaries.docs == PostLines(old(summaries.docs), branchCode, Out, lines, sale.saleDateUtc, now, summaryIds, 0)
    ensures transactions.docs == old(transactions.docs)[transactionId := NewTransactionService.CommittedDocument(
              SaleTransaction(branchCode, sale, user, now, lines, number, transactionId), user, now)]
  {
    var draft := SaleTransaction(branchCode, sale, user, now, lines, number, transactionId);
    transactions.Save(draft);
    var staged := PostInventoryLines(summaries.docs, branchCode, Out, lines, sale.saleDateUtc, now, summaryIds);
    transactions.Save(NewTransactionService.CommittedDocument(draft, user, now));
    summaries.CommitScope(staged);
  }

  /** A successful posting of a Draft sale is the sale with its goods linked, marked posted. */
  lemma PostDraftPosts(sale: Sales.Sale, branch: Branch, summaries: map<SummaryKey, InventorySummaryDocument>,
                       user: CurrentUser, now: Instant, dateStamp: string, token: string, lineIds: nat -> string,
                       transactionId: string, summaryIds: nat -> string)
    requires PostDraft(sale, branch, summaries, user, now, dateStamp, token, lineIds, transactionId, summaryIds).Ok?
    ensures PostDraft(sale, branch, summaries, user, now, dateStamp, token, lineIds, transactionId, summaryIds).value.sale
         == Posted(sale.(lines := LinkGoods(sale.lines, transactionId)), user, now)
  {
    if |GoodsLines(sale.lines)| == 0 {
      assert LinkGoods(sale.lines, transactionId) == sale.lines;
    }
  }

  /**
   * PostSaleAsync: on success the sale is stored posted, the summaries are
   * the posted ones and, when the sale has goods, the committed transaction
   * is stored; on failure nothing changes.
   */
  method PostSale(user: CurrentUser, now: Instant, branches: seq<Branch>, sales: SaleStore, summaries: SummaryStore,
                  transactions: TransactionStore, saleId: string, dateStamp: string, token: string,
                  lineIds: nat -> string, transactionId: string, summaryIds: nat -> string)
    returns (r: Result<Sales.Sale>)
    modifies sales, summaries, transactions
    ensures PostStored(PostSaleSpec(old(sales.docs), branches, old(summaries.docs), user, now, saleId, dateStamp,
                                    token, lineIds, transactionId, summaryIds),
                       r, old(sales.docs), sales.docs, old(summaries.docs), summaries.docs,
                       old(transactions.docs), transactions.docs, transactionId)
  {
    if saleId !in sales.docs {
      return Err(NotFound);
    }
    var sale := SaleMapper.ToEntity(sales.docs[saleId]);
    if sale.status != Draft {
      return Err(Business);
    }
    var found := BranchById(branches, sale.branchId);
    if found.None? {
      return Err(NotFound);
    }
    r := PostDraftSale(user, now, found.value, sale, sales, summaries, transactions, dateStamp, token, lineIds,
                       transactionId, summaryIds);
  }

  /** The part of PostSaleAsync after the sale and its branch are found and the sale checked to be a Draft. */
  method PostDraftSale(user: CurrentUser, now: Instant, branch: Branch, sale: Sales.Sale, sales: SaleStore,
                       summaries: SummaryStore, transactions: TransactionStore, dateStamp: string, token: string,
                       lineIds: nat -> string, transactionId: string, summaryIds: nat -> string)
    returns (r: Result<Sales.Sale>)
    modifies sales, summaries, transactions
    ensures PostStored(PostDraft(sale, branch, old(summaries.docs), user, now, dateStamp, token, lineIds,
                                 transactionId, summaryIds),
                       r, old(sales.docs), sales.docs, old(summaries.docs), summaries.docs,
                       old(transactions.docs), transactions.docs, transactionId)
  {
    ghost var spec := PostDraft(sale, branch, summaries.docs, user, now, dateStamp, token, lineIds,
                                transactionId, summaryIds);
    var posted := sale;
    var goods := GoodsLines(sale.lines);
    if |goods| > 0 {
      var built := BuildPostingLines(goods, user, now, lineIds);
      if built.Err? {
        assert spec == Err(built.error);
        return Err(built.error);
      }
      var number := NewTransactionService.TransactionNumber(Out, dateStamp, token);
      assert spec == Ok(Posting(
        Posted(sale.(lines := LinkGoods(sale.lines, transactionId)), user, now),
        PostLines(summaries.docs, branch.code, Out, built.value, sale.saleDateUtc, now, summaryIds, 0),
        Some(NewTransactionService.CommittedDocument(
          SaleTransaction(branch.code, sale, user, now, built.value, number, transactionId), user, now))));
      PostGoods(user, now, branch.code, sale, built.value, summaries, transactions, number, transactionId, summaryIds);
      var linked := LinkGoodsLines(sale.lines, transactionId);
      posted := sale.(lines := linked);
    } else {
      assert spec == Ok(Posting(Posted(sale, user, now), summaries.docs, None));
    }
    posted := Posted(posted, user, now);
    sales.Save(SaleMapper.ToDocument(posted));
    return Ok(posted);
  }

  // ---------------------------------------------------------------------
  // Posting a sale: properties
  // ---------------------------------------------------------------------

  /** The quantity the goods lines sell of one (item, condition). */
  function SoldQuantity(goods: seq<SaleLine>, itemCode: string, condition: ItemCondition): int
    decreases |goods|
  {
    if |goods| == 0 then 0
    else
      (if goods[0].itemCode == itemCode && goods[0].condition == Some(condition) then goods[0].quantity else 0)
      + SoldQuantity(goods[1..], itemCode, condition)
  }

  /** How many goods lines are for the item. */
  function GoodsFor(goods: seq<SaleLine>, itemCode: string): nat
    decreases |goods|
  {
    if |goods| == 0 then 0
    else (if goods[0].itemCode == itemCode then 1 else 0) + GoodsFor(goods[1..], itemCode)
  }

  /** Mirroring lines posted Out move each (item, condition) by minus what the goods sell of it. */
  lemma {:induction false} MirrorsMovement(goods: seq<SaleLine>, lines: seq<InventoryTransactionLine>,
                                           itemCode: string, condition: ItemCondition)
    requires Mirrors(goods, lines)
    ensures Movement(Out, lines, itemCode, condition) == -SoldQuantity(goods, itemCode, condition)
    ensures LinesFor(lines, itemCode) == GoodsFor(goods, itemCode)
    decreases |goods|
  {
    if |goods| > 0 {
      assert Mirrors(goods[1..], lines[1..]) by {
        forall i | 0 <= i < |goods| - 1 ensures lines[1..][i] == lines[i + 1] && goods[1..][i] == goods[i + 1] { }
      }
      MirrorsMovement(goods[1..], lines[1..], itemCode, condition);
    }
  }

  /** The goods of the stored sale (as read back). */
  function StoredGoods(sales: map<string, SaleDocument>, saleId: string): seq<SaleLine>
    requires saleId in sales
  {
    GoodsLines(SaleMapper.ToEntity(sales[saleId]).lines)
  }

  /** Every goods line among the lines has a condition. */
  predicate GoodsHaveConditions(lines: seq<SaleLine>)
  {
    forall i | 0 <= i < |lines| :: lines[i].classification == Good ==> lines[i].condition.Some?
  }

  /** The goods lines all have a condition exactly when every line of class Good has one. */
  lemma GoodsLinesHaveConditions(lines: seq<SaleLine>)
    ensures GoodsHaveConditions(lines) <==> AllHaveConditions(GoodsLines(lines))
  {
    var goods := GoodsLines(lines);
    if GoodsHaveConditions(lines) {
      forall i | 0 <= i < |goods| ensures goods[i].condition.Some? {
        assert goods[i] in lines;
      }
    } else {
      var i :| 0 <= i < |lines| && lines[i].classification == Good && lines[i].condition.None?;
      assert lines[i] in goods;
    }
  }

  predicate AllHaveConditions(goods: seq<SaleLine>)
  {
    forall i | 0 <= i < |goods| :: goods[i].condition.Some?
  }

  /**
   * When posting succeeds: it needs the sale stored, still a Draft, its
   * branch found and a condition on every goods line; the stock is not
   * consulted at all.  A missing sale or branch is NotFound, a sale no
   * longer in Draft a Business error.
   */
  lemma PostSaleSucceedsIff(sales: map<string, SaleDocument>, branches: seq<Branch>,
                            summaries: map<SummaryKey, InventorySummaryDocument>, user: CurrentUser, now: Instant,
                            saleId: string, dateStamp: string, token: string, lineIds: nat -> string,
                            transactionId: string, summaryIds: nat -> string)
    ensures var r := PostSaleSpec(sales, branches, summaries, user, now, saleId, dateStamp, token, lineIds,
                                  transactionId, summaryIds);
            && (r.Ok? <==> && saleId in sales && sales[saleId].status == Draft
                           && BranchById(branches, sales[saleId].branchId).Some?
                           && GoodsHaveConditions(SaleMapper.ToEntity(sales[saleId]).lines))
            && (saleId !in sales ==> r == Err(NotFound))
            && (saleId in sales && sales[saleId].status != Draft ==> r == Err(Business))
            && (r.Err? ==> r.error in {NotFound, Business, InvalidOperation})
  {
    if saleId in sales && sales[saleId].status == Draft && BranchById(branches, sales[saleId].branchId).Some? {
      var sale := SaleMapper.ToEntity(sales[saleId]);
      GoodsLinesHaveConditions(sale.lines);
      PostingLinesMirror(GoodsLines(sale.lines), user, now, lineIds);
    }
  }

  /**
   * What a successful posting does to the sale: it becomes Committed,
   * posted and modified by the caller now, with identity, number, branch
   * and date kept; every goods line is linked to the new transaction and
   * every service line is kept as read.
   */
  lemma PostSaleMarksPosted(sales: map<string, SaleDocument>, branches: seq<Branch>,
                            summaries: map<SummaryKey, InventorySummaryDocument>, user: CurrentUser, now: Instant,
                            saleId: string, dateStamp: string, token: string, lineIds: nat -> string,
                            transactionId: string, summaryIds: nat -> string)
    requires PostSaleSpec(sales, branches, summaries, user, now, saleId, dateStamp, token, lineIds,
                          transactionId, summaryIds).Ok?
    ensures saleId in sales
    ensures var p := PostSaleSpec(sales, branches, summaries, user, now, saleId, dateStamp, token, lineIds,
                                  transactionId, summaryIds).value;
            var d := sales[saleId];
            var read := SaleMapper.ToEntity(d);
            && p.sale.status == Committed && p.sale.postedAtUtc == Some(now) && p.sale.postedBy == Some(user.username)
            && p.sale.modifiedAtUtc == Some(now) && p.sale.modifiedBy == Some(user.username)
            && p.sale.id == d.id && p.sale.saleNumber == d.saleNumber && p.sale.branchId == d.branchId
            && p.sale.saleDateUtc == d.saleDateUtc
            && |p.sale.lines| == |d.lines|
            && (forall i | 0 <= i < |d.lines| ::
                  p.sale.lines[i] == if read.lines[i].classification == Good
                                     then read.lines[i].(inventoryTransactionId := Some(transactionId))
                                     else read.lines[i])
  {
    var read := SaleMapper.ToEntity(sales[saleId]);
    var branch := BranchById(branches, read.branchId).value;
    PostDraftPosts(read, branch, summaries, user, now, dateStamp, token, lineIds, transactionId, summaryIds);
  }

  /**
   * The transaction a successful posting records: there is one exactly
   * when the sale has goods, an Out transaction of the sale's branch,
   * Committed by the caller now, dated the sale's date, noted with the sale
   * number and with one line per goods line, priced by the sale.  Without
   * goods no summary changes.
   */
  lemma PostSaleRecordsTransaction(sales: map<string, SaleDocument>, branches: seq<Branch>,
                                   summaries: map<SummaryKey, InventorySummaryDocument>, user: CurrentUser,
                                   now: Instant, saleId: string, dateStamp: string, token: string,
                                   lineIds: nat -> string, transactionId: string, summaryIds: nat -> string)
    requires PostSaleSpec(sales, branches, summaries, user, now, saleId, dateStamp, token, lineIds,
                          transactionId, summaryIds).Ok?
    ensures saleId in sales && BranchById(branches, sales[saleId].branchId).Some?
    ensures var p := PostSaleSpec(sales, branches, summaries, user, now, saleId, dateStamp, token, lineIds,
                                  transactionId, summaryIds).value;
            var d := sales[saleId];
            var goods := StoredGoods(sales, saleId);
            && (p.transaction.Some? <==> |goods| > 0)
            && (p.transaction.None? ==> p.summaries == summaries)
            && (p.transaction.Some? ==>
                  var t := p.transaction.value;
                  && t.id == transactionId && t.transactionType == Out && t.status == Committed
                  && t.branchCode == BranchById(branches, d.branchId).value.code
                  && t.committedAtUtc == Some(now) && t.committedBy == Some(user.username)
                  && t.transactionDateUtc == d.saleDateUtc && t.notes == Some("Sale: " + d.saleNumber)
                  && |t.lines| == |goods|
                  && forall i | 0 <= i < |t.lines| ::
                       && t.lines[i].priceSource == PriceSource.Sale && t.lines[i].itemCode == goods[i].itemCode
                       && Some(t.lines[i].condition) == goods[i].condition && t.lines[i].quantity == goods[i].quantity)
  {
    var p := PostSaleSpec(sales, branches, summaries, user, now, saleId, dateStamp, token, lineIds,
                          transactionId, summaryIds).value;
    var read := SaleMapper.ToEntity(sales[saleId]);
    var branch := BranchById(branches, read.branchId).value;
    var goods := GoodsLines(read.lines);
    if |goods| > 0 {
      PostingLinesMirror(goods, user, now, lineIds);
      var lines := PostingLines(goods, user, now, lineIds).value;
      var number := NewTransactionService.TransactionNumber(Out, dateStamp, token);
      var draft := SaleTransaction(branch.code, read, user, now, lines, number, transactionId);
      assert p.transaction == Some(NewTransactionService.CommittedDocument(draft, user, now));
      CommittedSaleTransaction(branch.code, read, user, now, goods, lines, number, transactionId);
    } else {
      assert p == Posting(Posted(read, user, now), summaries, None);
    }
  }

  /**
   * Stock conservation for a posted sale: under every key at the sale's
   * branch, each condition's stored on-hand quantity drops by exactly what
   * the sale's goods lines sell of it, and the version grows by the number
   * of goods lines for the item; nothing changes at other branches.
   */
  lemma PostSaleMovesStock(sales: map<string, SaleDocument>, branches: seq<Branch>,
                           summaries: map<SummaryKey, InventorySummaryDocument>, user: CurrentUser, now: Instant,
                           saleId: string, dateStamp: string, token: string, lineIds: nat -> string,
                           transactionId: string, summaryIds: nat -> string, key: SummaryKey, c: ItemCondition)
    requires PostSaleSpec(sales, branches, summaries, user, now, saleId, dateStamp, token, lineIds,
                          transactionId, summaryIds).Ok?
    ensures saleId in sales && BranchById(branches, sales[saleId].branchId).Some?
    ensures var p := PostSaleSpec(sales, branches, summaries, user, now, saleId, dateStamp, token, lineIds,
                                  transactionId, summaryIds).value;
            var atBranch := key.branchCode == BranchById(branches, sales[saleId].branchId).value.code;
            && StockAt(p.summaries, key, c)
               == StockAt(summaries, key, c) - (if atBranch then SoldQuantity(StoredGoods(sales, saleId), key.itemCode, c) else 0)
            && VersionAt(p.summaries, key)
               == VersionAt(summaries, key) + (if atBranch then GoodsFor(StoredGoods(sales, saleId), key.itemCode) else 0)
  {
    var read := SaleMapper.ToEntity(sales[saleId]);
    var branch := BranchById(branches, read.branchId).value;
    var goods := GoodsLines(read.lines);
    if |goods| > 0 {
      PostingLinesMirror(goods, user, now, lineIds);
      var lines := PostingLines(goods, user, now, lineIds).value;
      MirrorsMovement(goods, lines, key.itemCode, c);
      PostLinesMovesStock(summaries, branch.code, Out, lines, read.saleDateUtc, now, summaryIds, 0, key, c);
      PostLinesCountsVersions(summaries, branch.code, Out, lines, read.saleDateUtc, now, summaryIds, 0, key);
    }
  }

  /**
   * A sale that has been posted and stored cannot be posted again: the
   * second attempt is a Business error and changes nothing.
   */
  lemma PostSaleTwiceFails(sales: map<string, SaleDocument>, branches: seq<Branch>,
                           summaries: map<SummaryKey, InventorySummaryDocument>, user: CurrentUser, now: Instant,
                           saleId: string, dateStamp: string, token: string, lineIds: nat -> string,
                           transactionId: string, summaryIds: nat -> string,
                           summaries2: map<SummaryKey, InventorySummaryDocument>, user2: CurrentUser, now2: Instant,
                           dateStamp2: string, token2: string, lineIds2: nat -> string, transactionId2: string,
                           summaryIds2: nat -> string)
    requires saleId in sales && sales[saleId].id == saleId
    requires PostSaleSpec(sales, branches, summaries, user, now, saleId, dateStamp, token, lineIds,
                          transactionId, summaryIds).Ok?
    ensures var p := PostSaleSpec(sales, branches, summaries, user, now, saleId, dateStamp, token, lineIds,
                                  transactionId, summaryIds).value;
            PostSaleSpec(sales[p.sale.id := SaleMapper.ToDocument(p.sale)], branches, summaries2, user2, now2,
                         saleId, dateStamp2, token2, lineIds2, transactionId2, summaryIds2) == Err(Business)
  {
    var read := SaleMapper.ToEntity(sales[saleId]);
    var branch := BranchById(branches, read.branchId).value;
    PostDraftPosts(read, branch, summaries, user, now, dateStamp, token, lineIds, transactionId, summaryIds);
    var posted := PostSaleSpec(sales, branches, summaries, user, now, saleId, dateStamp, token, lineIds,
                               transactionId, summaryIds).value.sale;
    assert posted.id == saleId && posted.status == Committed;
    assert SaleMapper.ToEntity(sales[posted.id := SaleMapper.ToDocument(posted)][saleId]).status == Committed;
  }
}
