/**
 * The reports: the stock report (one row per stock entry of a good, with
 * totals by condition), invoices for a sale or an inventory transaction
 * (line totals, sales tax and shop fee) and the inventory movements
 * report (transactions in a period, filtered and ordered).
 *
 * Summaries and transactions are read as their stored documents, which the
 * document mappers copy field for field into the entities the source reads;
 * sales are read through the sale mapper, which is lossy.
 */
module ReportService {
  import opened Common
  import opened Documents
  import opened MasterData
  import opened SaleLines
  import opened Sales
  import opened Sequences
  import SaleMapper

  /** Sales tax charged on the taxable base: 7%. */
  const SalesTaxRate: real := 0.07
  /** Shop fee charged on the lines it applies to: 1%. */
  const ShopFeeRate: real := 0.01

  // ---------------------------------------------------------------------
  // Stock report
  // ---------------------------------------------------------------------

  datatype StockReportRow = StockReportRow(
    itemCode: string,
    description: string,
    condition: string,
    onHand: int,
    reserved: int,
    available: int)

  datatype StockReportTotals = StockReportTotals(
    newOnHand: int, newReserved: int, newAvailable: int,
    usedOnHand: int, usedReserved: int, usedAvailable: int,
    totalOnHand: int, totalReserved: int, totalAvailable: int)

  datatype StockReport = StockReport(
    generatedAtUtc: Instant,
    branchCode: Option<string>,
    branchName: Option<string>,
    rows: seq<StockReportRow>,
    totals: StockReportTotals)

  /** The branch a report for branchId names: none for an empty id or an unknown branch, meaning every branch. */
  function ReportBranch(branches: seq<Branch>, branchId: Option<string>): (b: Option<Branch>)
    ensures b.Some? ==> b.value in branches && Some(b.value.id) == branchId
    ensures b.None? <==> IsNullOrEmpty(branchId) || forall j | 0 <= j < |branches| :: branches[j].id != branchId.value
  {
    if IsNullOrEmpty(branchId) then None else BranchById(branches, branchId.value)
  }

  /** Whether a summary belongs to the branch a query names; no branch named matches every summary. */
  predicate InBranch(s: InventorySummaryDocument, branchCode: Option<string>)
  {
    IsNullOrWhiteSpace(branchCode) || s.branchCode == branchCode.value
  }

  /** The summaries the report reads: those of the branch, or all of them. */
  function SummariesOfBranch(summaries: seq<InventorySummaryDocument>, branchCode: Option<string>)
    : (r: seq<InventorySummaryDocument>)
    ensures IsNullOrWhiteSpace(branchCode) ==> r == summaries
    ensures forall s | s in r :: s in summaries && InBranch(s, branchCode)
    ensures forall i | 0 <= i < |summaries| && InBranch(summaries[i], branchCode) :: summaries[i] in r
  {
    var p := (s: InventorySummaryDocument) => InBranch(s, branchCode);
    if IsNullOrWhiteSpace(branchCode) then
      FilterAll(summaries, p);
      Filter(summaries, p)
    else Filter(summaries, p)
  }

  predicate IsLiveGood(i: Item)
  {
    !i.isDeleted && i.classification == Good
  }

  /** The catalogue query for goods: live items classified as Good. */
  function GoodItems(items: seq<Item>): seq<Item>
  {
    Filter(items, IsLiveGood)
  }

  function GoodItemByCode(goods: seq<Item>, itemCode: string): (r: Option<Item>)
    ensures r.Some? ==> r.value in goods && r.value.itemCode == itemCode
  {
    match ItemIndexByCode(goods, itemCode)
    case None => None
    case Some(k) => Some(goods[k])
  }

  /** The report row of one stock entry: available is on hand less reserved. */
  function EntryRow(s: InventorySummaryDocument, item: Item, e: InventoryEntryDocument): StockReportRow
  {
    StockReportRow(s.itemCode, item.description, ConditionName(e.condition), e.onHand, e.reserved,
                   e.onHand - e.reserved)
  }

  function SummaryRows(s: InventorySummaryDocument, item: Item): (rows: seq<StockReportRow>)
    ensures |rows| == |s.entries|
    ensures forall j | 0 <= j < |s.entries| :: rows[j] == EntryRow(s, item, s.entries[j])
  {
    seq(|s.entries|, j requires 0 <= j < |s.entries| => EntryRow(s, item, s.entries[j]))
  }

  /** The rows of the summaries whose item is a good, summary by summary, entry by entry. */
  function BuildRows(summaries: seq<InventorySummaryDocument>, goods: seq<Item>): seq<StockReportRow>
  {
    if |summaries| == 0 then []
    else
      var s := summaries[|summaries| - 1];
      var rows := match GoodItemByCode(goods, s.itemCode)
                  case None => []
                  case Some(item) => SummaryRows(s, item);
      BuildRows(summaries[..|summaries| - 1], goods) + rows
  }

  predicate IsNewRow(r: StockReportRow) { r.condition == "New" }
  predicate IsUsedRow(r: StockReportRow) { r.condition == "Used" }
  function OnHandOf(r: StockReportRow): int { r.onHand }
  function ReservedOf(r: StockReportRow): int { r.reserved }
  function AvailableOf(r: StockReportRow): int { r.available }

  function Totals(rows: seq<StockReportRow>): StockReportTotals
  {
    var newRows := Filter(rows, IsNewRow);
    var usedRows := Filter(rows, IsUsedRow);
    StockReportTotals(
      SumInt(newRows, OnHandOf), SumInt(newRows, ReservedOf), SumInt(newRows, AvailableOf),
      SumInt(usedRows, OnHandOf), SumInt(usedRows, ReservedOf), SumInt(usedRows, AvailableOf),
      SumInt(rows, OnHandOf), SumInt(rows, ReservedOf), SumInt(rows, AvailableOf))
  }

  /** Rows ordered by item code, then by condition (ordinal string order). */
  predicate RowLe(a: StockReportRow, b: StockReportRow)
  {
    if a.itemCode != b.itemCode then StringLe(a.itemCode, b.itemCode) else StringLe(a.condition, b.condition)
  }

  lemma RowLeTotalPreorder()
    ensures TotalPreorder(RowLe)
  {
    forall a: StockReportRow, b: StockReportRow ensures RowLe(a, b) || RowLe(b, a) {
      StringLeTotal(a.itemCode, b.itemCode);
      StringLeTotal(a.condition, b.condition);
    }
    forall a: StockReportRow, b: StockReportRow, c: StockReportRow | RowLe(a, b) && RowLe(b, c)
      ensures RowLe(a, c)
    {
      if a.itemCode != b.itemCode && b.itemCode != c.itemCode {
        StringLeTransitive(a.itemCode, b.itemCode, c.itemCode);
        if a.itemCode == c.itemCode {
          StringLeAntisymmetric(a.itemCode, b.itemCode);
        }
      } else if a.itemCode == b.itemCode && b.itemCode == c.itemCode {
        StringLeTransitive(a.condition, b.condition, c.condition);
      }
    }
  }

  /**
   * GetStockReportAsync.  The catalogue's goods are indexed by code, which
   * fails with an ArgumentException when two live goods share a code.
   */
  function GetStockReport(now: Instant, branches: seq<Branch>, summaries: seq<InventorySummaryDocument>,
                          items: seq<Item>, branchId: Option<string>): Result<StockReport>
  {
    var branch := ReportBranch(branches, branchId);
    var code := if branch.Some? then Some(branch.value.code) else None;
    var name := if branch.Some? then Some(branch.value.name) else None;
    var goods := GoodItems(items);
    if !DistinctItemCodes(goods) then Err(InvalidArgument)
    else
      var rows := BuildRows(SummariesOfBranch(summaries, code), goods);
      Ok(StockReport(now, code, name, SortBy(rows, RowLe), Totals(rows)))
  }

  /** Row r is the row of entry j of summary i, whose item is a good. */
  predicate IsEntryRow(summaries: seq<InventorySummaryDocument>, goods: seq<Item>, r: StockReportRow, i: int, j: int)
  {
    && 0 <= i < |summaries| && 0 <= j < |summaries[i].entries|
    && GoodItemByCode(goods, summaries[i].itemCode).Some?
    && r == EntryRow(summaries[i], GoodItemByCode(goods, summaries[i].itemCode).value, summaries[i].entries[j])
  }

  /** Every row is the row of some entry. */
  lemma {:induction false} BuildRowsSound(summaries: seq<InventorySummaryDocument>, goods: seq<Item>, r: StockReportRow)
    returns (i: int, j: int)
    requires r in BuildRows(summaries, goods)
    ensures IsEntryRow(summaries, goods, r, i, j)
    decreases |summaries|
  {
    var n := |summaries| - 1;
    var init := summaries[..n];
    var s := summaries[n];
    var rows := match GoodItemByCode(goods, s.itemCode)
                case None => []
                case Some(item) => SummaryRows(s, item);
    assert BuildRows(summaries, goods) == BuildRows(init, goods) + rows;
    if r in BuildRows(init, goods) {
      i, j := BuildRowsSound(init, goods, r);
      assert init[i] == summaries[i];
    } else {
      var k :| 0 <= k < |rows| && rows[k] == r;
      i, j := n, k;
    }
  }

  /** Every entry of a summary whose item is a good has its row. */
  lemma {:induction false} BuildRowsComplete(summaries: seq<InventorySummaryDocument>, goods: seq<Item>,
                                             r: StockReportRow, i: int, j: int)
    requires IsEntryRow(summaries, goods, r, i, j)
    ensures r in BuildRows(summaries, goods)
    decreases |summaries|
  {
    var n := |summaries| - 1;
    var init := summaries[..n];
    var s := summaries[n];
    var rows := match GoodItemByCode(goods, s.itemCode)
                case None => []
                case Some(item) => SummaryRows(s, item);
    assert BuildRows(summaries, goods) == BuildRows(init, goods) + rows;
    if i < n {
      assert init[i] == summaries[i];
      BuildRowsComplete(init, goods, r, i, j);
    } else {
      assert rows[j] == r;
    }
  }

  /** How many stock entries the summaries whose item is a good hold. */
  function GoodsEntryCount(summaries: seq<InventorySummaryDocument>, goods: seq<Item>): nat
  {
    if |summaries| == 0 then 0
    else
      var s := summaries[|summaries| - 1];
      GoodsEntryCount(summaries[..|summaries| - 1], goods)
        + if GoodItemByCode(goods, s.itemCode).Some? then |s.entries| else 0
  }

  /** A figure of the stock entries, summed over the summaries whose item is a good. */
  function GoodsStock(summaries: seq<InventorySummaryDocument>, goods: seq<Item>, f: InventoryEntryDocument -> int): int
  {
    if |summaries| == 0 then 0
    else
      var s := summaries[|summaries| - 1];
      GoodsStock(summaries[..|summaries| - 1], goods, f)
        + if GoodItemByCode(goods, s.itemCode).Some? then SumInt(s.entries, f) else 0
  }

  function EntryOnHand(e: InventoryEntryDocument): int { e.onHand }
  function EntryReserved(e: InventoryEntryDocument): int { e.reserved }
  function NewOnHand(e: InventoryEntryDocument): int { if e.condition == New then e.onHand else 0 }
  function NewReserved(e: InventoryEntryDocument): int { if e.condition == New then e.reserved else 0 }
  function UsedOnHand(e: InventoryEntryDocument): int { if e.condition == Used then e.onHand else 0 }
  function UsedReserved(e: InventoryEntryDocument): int { if e.condition == Used then e.reserved else 0 }

  /** The report builds one row per entry of a summary whose item is a good. */
  lemma {:induction false} BuildRowsCount(summaries: seq<InventorySummaryDocument>, goods: seq<Item>)
    ensures |BuildRows(summaries, goods)| == GoodsEntryCount(summaries, goods)
    decreases |summaries|
  {
    if |summaries| > 0 {
      BuildRowsCount(summaries[..|summaries| - 1], goods);
    }
  }

  /** Summing a row figure over the first k rows of a summary sums the entry figure it shows. */
  lemma {:induction false} SummaryRowsSum(s: InventorySummaryDocument, item: Item, f: InventoryEntryDocument -> int,
                                          g: StockReportRow -> int, k: nat)
    requires k <= |s.entries|
    requires forall e | e in s.entries :: g(EntryRow(s, item, e)) == f(e)
    ensures SumInt(SummaryRows(s, item)[..k], g) == SumInt(s.entries[..k], f)
  {
    if k > 0 {
      SummaryRowsSum(s, item, f, g, k - 1);
      assert SummaryRows(s, item)[..k][..k - 1] == SummaryRows(s, item)[..k - 1];
      assert s.entries[..k][..k - 1] == s.entries[..k - 1];
    }
  }

  /** Summing a row figure over the rows sums the entry figure each row shows over the goods' stock. */
  lemma {:induction false} BuildRowsSum(summaries: seq<InventorySummaryDocument>, goods: seq<Item>,
                                        f: InventoryEntryDocument -> int, g: StockReportRow -> int)
    requires forall s, item, e :: g(EntryRow(s, item, e)) == f(e)
    ensures SumInt(BuildRows(summaries, goods), g) == GoodsStock(summaries, goods, f)
    decreases |summaries|
  {
    if |summaries| > 0 {
      var n := |summaries| - 1;
      var s := summaries[n];
      var rows := match GoodItemByCode(goods, s.itemCode)
                  case None => []
                  case Some(item) => SummaryRows(s, item);
      BuildRowsSum(summaries[..n], goods, f, g);
      SumIntAppend(BuildRows(summaries[..n], goods), rows, g);
      if GoodItemByCode(goods, s.itemCode).Some? {
        var item := GoodItemByCode(goods, s.itemCode).value;
        SummaryRowsSum(s, item, f, g, |s.entries|);
        assert SummaryRows(s, item)[..|s.entries|] == SummaryRows(s, item);
        assert s.entries[..|s.entries|] == s.entries;
      }
    }
  }

  /** A row as the report builds it: available is on hand less reserved, and the condition is New or Used. */
  predicate WellFormedRow(r: StockReportRow)
  {
    r.available == r.onHand - r.reserved && (r.condition == "New" || r.condition == "Used")
  }

  /** Rows of either condition: a sum over all rows is the sum over the New rows plus the Used rows. */
  lemma {:induction false} SplitByCondition(rows: seq<StockReportRow>, f: StockReportRow -> int)
    requires forall i | 0 <= i < |rows| :: IsNewRow(rows[i]) || IsUsedRow(rows[i])
    ensures SumInt(rows, f) == SumInt(Filter(rows, IsNewRow), f) + SumInt(Filter(rows, IsUsedRow), f)
    decreases |rows|
  {
    if |rows| > 0 {
      var n := |rows| - 1;
      SplitByCondition(rows[..n], f);
      SumIntAppend(Filter(rows[..n], IsNewRow), [rows[n]], f);
      SumIntAppend(Filter(rows[..n], IsUsedRow), [rows[n]], f);
      assert [rows[n]][..0] == [];
    }
  }

  /** Rows whose available is on hand less reserved sum the same way. */
  lemma {:induction false} AvailableSum(rows: seq<StockReportRow>)
    requires forall i | 0 <= i < |rows| :: rows[i].available == rows[i].onHand - rows[i].reserved
    ensures SumInt(rows, AvailableOf) == SumInt(rows, OnHandOf) - SumInt(rows, ReservedOf)
    decreases |rows|
  {
    if |rows| > 0 {
      AvailableSum(rows[..|rows| - 1]);
    }
  }

  /**
   * Every row of a stock report is an entry of a summary of the report's
   * branch (of any branch when the branch is not named or not known) whose
   * item is a live good, showing that good's description, the entry's
   * condition, on hand and reserved, and available = on hand - reserved;
   * every such entry has its row.  The rows are ordered by item code, then
   * condition.  A branch id that names no branch gives the all-branches
   * report.  The report fails only when two live goods share a code.
   */
  lemma StockReportRows(now: Instant, branches: seq<Branch>, summaries: seq<InventorySummaryDocument>,
                        items: seq<Item>, branchId: Option<string>)
    ensures var r := GetStockReport(now, branches, summaries, items, branchId);
            && (r.Ok? <==> DistinctItemCodes(GoodItems(items)))
            && (r.Ok? ==>
                  var report := r.value;
                  var branch := ReportBranch(branches, branchId);
                  var code := if branch.Some? then Some(branch.value.code) else None;
                  var scoped := SummariesOfBranch(summaries, code);
                  && report.branchCode == code
                  && (branch.None? ==> scoped == summaries)
                  && |report.rows| == GoodsEntryCount(scoped, GoodItems(items))
                  && multiset(report.rows) == multiset(BuildRows(scoped, GoodItems(items)))
                  && SortedBy(report.rows, RowLe)
                  && (forall row :: row in report.rows <==>
                        exists i, j :: IsEntryRow(scoped, GoodItems(items), row, i, j))
                  && (forall row | row in report.rows :: WellFormedRow(row)))
  {
    var r := GetStockReport(now, branches, summaries, items, branchId);
    if r.Ok? {
      var branch := ReportBranch(branches, branchId);
      var code := if branch.Some? then Some(branch.value.code) else None;
      var goods := GoodItems(items);
      var scoped := SummariesOfBranch(summaries, code);
      var rows := BuildRows(scoped, goods);
      RowLeTotalPreorder();
      SortBySorted(rows, RowLe);
      assert r.value.rows == SortBy(rows, RowLe);
      assert r.value.branchCode == code;
      BuildRowsCount(scoped, goods);
      forall row ensures (row in r.value.rows <==> exists i, j :: IsEntryRow(scoped, goods, row, i, j))
                         && (row in r.value.rows ==> WellFormedRow(row)) {
        SortedRowListed(scoped, goods, row);
      }
    }
  }

  /** A row is in the sorted rows exactly when it is an entry row of the summaries; every such row is well formed. */
  lemma SortedRowListed(scoped: seq<InventorySummaryDocument>, goods: seq<Item>, row: StockReportRow)
    ensures row in SortBy(BuildRows(scoped, goods), RowLe) <==> exists i, j :: IsEntryRow(scoped, goods, row, i, j)
    ensures row in SortBy(BuildRows(scoped, goods), RowLe) ==> WellFormedRow(row)
  {
    var rows := BuildRows(scoped, goods);
    var sorted := SortBy(rows, RowLe);
    assert row in sorted <==> row in multiset(sorted);
    if row in rows {
      var i, j := BuildRowsSound(scoped, goods, row);
    }
    if exists i, j :: IsEntryRow(scoped, goods, row, i, j) {
      var i, j :| IsEntryRow(scoped, goods, row, i, j);
      BuildRowsComplete(scoped, goods, row, i, j);
    }
  }

  /**
   * Totals of well-formed rows: the New and Used totals add up to the
   * total, available is on hand less reserved at every level, and the
   * totals are those of any reordering of the rows.
   */
  lemma {:induction false} RowTotals(rows: seq<StockReportRow>, shown: seq<StockReportRow>)
    requires forall i | 0 <= i < |rows| :: WellFormedRow(rows[i])
    requires multiset(shown) == multiset(rows)
    ensures var t := Totals(rows);
            && t.totalOnHand == t.newOnHand + t.usedOnHand
            && t.totalReserved == t.newReserved + t.usedReserved
            && t.totalAvailable == t.newAvailable + t.usedAvailable
            && t.newAvailable == t.newOnHand - t.newReserved
            && t.usedAvailable == t.usedOnHand - t.usedReserved
            && t.totalAvailable == t.totalOnHand - t.totalReserved
            && t.totalOnHand == SumInt(shown, OnHandOf)
            && t.totalReserved == SumInt(shown, ReservedOf)
            && t.totalAvailable == SumInt(shown, AvailableOf)
  {
    SplitByCondition(rows, OnHandOf);
    SplitByCondition(rows, ReservedOf);
    SplitByCondition(rows, AvailableOf);
    AvailableSum(rows);
    var newRows := Filter(rows, IsNewRow);
    var usedRows := Filter(rows, IsUsedRow);
    assert forall i | 0 <= i < |newRows| :: newRows[i] in rows;
    assert forall i | 0 <= i < |usedRows| :: usedRows[i] in rows;
    AvailableSum(newRows);
    AvailableSum(usedRows);
    SumIntPermutation(rows, shown, OnHandOf);
    SumIntPermutation(rows, shown, ReservedOf);
    SumIntPermutation(rows, shown, AvailableOf);
  }

  /**
   * The stock report's totals: for each of on hand, reserved and available,
   * the total is the New total plus the Used total and the sum over the
   * rows shown; available totals are on hand totals less reserved totals;
   * and each on hand and reserved total is that figure of the goods' stock
   * entries in the report's scope, of the condition the total is for.
   */
  lemma StockReportTotalsAdd(now: Instant, branches: seq<Branch>, summaries: seq<InventorySummaryDocument>,
                             items: seq<Item>, branchId: Option<string>)
    requires GetStockReport(now, branches, summaries, items, branchId).Ok?
    ensures var report := GetStockReport(now, branches, summaries, items, branchId).value;
            var t := report.totals;
            && t.totalOnHand == t.newOnHand + t.usedOnHand
            && t.totalReserved == t.newReserved + t.usedReserved
            && t.totalAvailable == t.newAvailable + t.usedAvailable
            && t.newAvailable == t.newOnHand - t.newReserved
            && t.usedAvailable == t.usedOnHand - t.usedReserved
            && t.totalAvailable == t.totalOnHand - t.totalReserved
            && t.totalOnHand == SumInt(report.rows, OnHandOf)
            && t.totalReserved == SumInt(report.rows, ReservedOf)
            && t.totalAvailable == SumInt(report.rows, AvailableOf)
            && var branch := ReportBranch(branches, branchId);
               var scoped := SummariesOfBranch(summaries, if branch.Some? then Some(branch.value.code) else None);
               var goods := GoodItems(items);
               && t.totalOnHand == GoodsStock(scoped, goods, EntryOnHand)
               && t.totalReserved == GoodsStock(scoped, goods, EntryReserved)
               && t.newOnHand == GoodsStock(scoped, goods, NewOnHand)
               && t.newReserved == GoodsStock(scoped, goods, NewReserved)
               && t.usedOnHand == GoodsStock(scoped, goods, UsedOnHand)
               && t.usedReserved == GoodsStock(scoped, goods, UsedReserved)
  {
    var branch := ReportBranch(branches, branchId);
    var code := if branch.Some? then Some(branch.value.code) else None;
    var scoped := SummariesOfBranch(summaries, code);
    var goods := GoodItems(items);
    var rows := BuildRows(scoped, goods);
    var report := GetStockReport(now, branches, summaries, items, branchId).value;
    assert report.rows == SortBy(rows, RowLe) && report.totals == Totals(rows);
    StockReportRows(now, branches, summaries, items, branchId);
    forall i | 0 <= i < |rows| ensures WellFormedRow(rows[i]) {
      assert rows[i] in multiset(report.rows);
    }
    RowTotals(rows, report.rows);
    TotalsOfStock(scoped, goods);
  }

  /** The totals of the rows built from some summaries are the goods' stock figures of those summaries. */
  lemma TotalsOfStock(scoped: seq<InventorySummaryDocument>, goods: seq<Item>)
    ensures var t := Totals(BuildRows(scoped, goods));
            && t.totalOnHand == GoodsStock(scoped, goods, EntryOnHand)
            && t.totalReserved == GoodsStock(scoped, goods, EntryReserved)
            && t.newOnHand == GoodsStock(scoped, goods, NewOnHand)
            && t.newReserved == GoodsStock(scoped, goods, NewReserved)
            && t.usedOnHand == GoodsStock(scoped, goods, UsedOnHand)
            && t.usedReserved == GoodsStock(scoped, goods, UsedReserved)
  {
    var rows := BuildRows(scoped, goods);
    BuildRowsSum(scoped, goods, EntryOnHand, OnHandOf);
    BuildRowsSum(scoped, goods, EntryReserved, ReservedOf);
    var newOnHand := (r: StockReportRow) => if IsNewRow(r) then r.onHand else 0;
    var newReserved := (r: StockReportRow) => if IsNewRow(r) then r.reserved else 0;
    var usedOnHand := (r: StockReportRow) => if IsUsedRow(r) then r.onHand else 0;
    var usedReserved := (r: StockReportRow) => if IsUsedRow(r) then r.reserved else 0;
    SumIntFilter(rows, IsNewRow, OnHandOf, newOnHand);
    SumIntFilter(rows, IsNewRow, ReservedOf, newReserved);
    SumIntFilter(rows, IsUsedRow, OnHandOf, usedOnHand);
    SumIntFilter(rows, IsUsedRow, ReservedOf, usedReserved);
    BuildRowsSum(scoped, goods, NewOnHand, newOnHand);
    BuildRowsSum(scoped, goods, NewReserved, newReserved);
    BuildRowsSum(scoped, goods, UsedOnHand, usedOnHand);
    BuildRowsSum(scoped, goods, UsedReserved, usedReserved);
  }

  // ---------------------------------------------------------------------
  // Invoices
  // ---------------------------------------------------------------------

  datatype InvoiceLine = InvoiceLine(
    itemCode: string,
    description: string,
    condition: Option<string>,
    quantity: int,
    unitPrice: real,
    currency: string,
    lineTotal: real,
    isTaxable: bool,
    appliesShopFee: bool)

  datatype InvoiceTotals = InvoiceTotals(
    subtotal: real,
    taxableBase: real,
    salesTaxRate: real,
    salesTaxAmount: real,
    shopFeeBase: real,
    shopFeeRate: real,
    shopFeeAmount: real,
    grandTotal: real,
    amountPaid: real,
    amountDue: real)

  datatype Invoice = Invoice(
    invoiceNumber: string,
    invoiceDateUtc: Instant,
    branchCode: string,
    branchName: string,
    paymentMethod: string,
    customerName: Option<string>,
    customerPhone: Option<string>,
    serviceRep: string,
    notes: Option<string>,
    lines: seq<InvoiceLine>,
    totals: InvoiceTotals,
    generatedAtUtc: Instant)

  function LineTotalOf(l: InvoiceLine): real { l.lineTotal }
  predicate IsTaxableLine(l: InvoiceLine) { l.isTaxable }
  predicate AppliesShopFeeLine(l: InvoiceLine) { l.appliesShopFee }

  /** CalculateInvoiceTotals; nothing is paid, and the amount due is filled in by the caller. */
  function CalculateInvoiceTotals(lines: seq<InvoiceLine>): InvoiceTotals
  {
    var subtotal := SumReal(lines, LineTotalOf);
    var taxableBase := SumReal(Filter(lines, IsTaxableLine), LineTotalOf);
    var shopFeeBase := SumReal(Filter(lines, AppliesShopFeeLine), LineTotalOf);
    var salesTax := taxableBase * SalesTaxRate;
    var shopFee := shopFeeBase * ShopFeeRate;
    InvoiceTotals(subtotal, taxableBase, SalesTaxRate, salesTax, shopFeeBase, ShopFeeRate, shopFee,
                  subtotal + salesTax + shopFee, 0.0, 0.0)
  }

  /** The totals an invoice shows: the amount due is the grand total less the amount paid. */
  function InvoiceTotalsFor(lines: seq<InvoiceLine>): InvoiceTotals
  {
    var t := CalculateInvoiceTotals(lines);
    t.(amountDue := t.grandTotal - t.amountPaid)
  }

  /**
   * For lines with no negative total: both bases lie between 0 and the
   * subtotal, so the grand total lies between the subtotal and 108% of it;
   * with nothing paid the whole grand total is due.
   */
  lemma InvoiceTotalsBounds(lines: seq<InvoiceLine>)
    requires forall i | 0 <= i < |lines| :: lines[i].lineTotal >= 0.0
    ensures var t := InvoiceTotalsFor(lines);
            && 0.0 <= t.taxableBase <= t.subtotal
            && 0.0 <= t.shopFeeBase <= t.subtotal
            && t.salesTaxAmount == t.taxableBase * 0.07 && t.shopFeeAmount == t.shopFeeBase * 0.01
            && t.subtotal <= t.grandTotal <= t.subtotal * 1.08
            && t.amountPaid == 0.0 && t.amountDue == t.grandTotal
  {
    SumRealFilterBounded(lines, IsTaxableLine, LineTotalOf);
    SumRealFilterBounded(lines, AppliesShopFeeLine, LineTotalOf);
  }

  /** Every line taxed and charged the fee: the grand total is 108% of the subtotal; neither: it is the subtotal. */
  lemma InvoiceTotalsFlags(lines: seq<InvoiceLine>)
    ensures (forall i | 0 <= i < |lines| :: lines[i].isTaxable && lines[i].appliesShopFee) ==>
              InvoiceTotalsFor(lines).grandTotal == InvoiceTotalsFor(lines).subtotal * 1.08
    ensures (forall i | 0 <= i < |lines| :: !lines[i].isTaxable && !lines[i].appliesShopFee) ==>
              InvoiceTotalsFor(lines).grandTotal == InvoiceTotalsFor(lines).subtotal
  {
    if forall i | 0 <= i < |lines| :: lines[i].isTaxable && lines[i].appliesShopFee {
      FilterAll(lines, IsTaxableLine);
      FilterAll(lines, AppliesShopFeeLine);
    }
    if forall i | 0 <= i < |lines| :: !lines[i].isTaxable && !lines[i].appliesShopFee {
      FilterNone(lines, IsTaxableLine);
      FilterNone(lines, AppliesShopFeeLine);
    }
  }

  /** The totals of an invoice are the sums of the totals of any split of its lines. */
  lemma InvoiceTotalsAdditive(a: seq<InvoiceLine>, b: seq<InvoiceLine>)
    ensures var (ta, tb, t) := (InvoiceTotalsFor(a), InvoiceTotalsFor(b), InvoiceTotalsFor(a + b));
            && t.subtotal == ta.subtotal + tb.subtotal
            && t.taxableBase == ta.taxableBase + tb.taxableBase
            && t.shopFeeBase == ta.shopFeeBase + tb.shopFeeBase
            && t.grandTotal == ta.grandTotal + tb.grandTotal
  {
    SumRealAppend(a, b, LineTotalOf);
    FilterAppend(a, b, IsTaxableLine);
    FilterAppend(a, b, AppliesShopFeeLine);
    SumRealAppend(Filter(a, IsTaxableLine), Filter(b, IsTaxableLine), LineTotalOf);
    SumRealAppend(Filter(a, AppliesShopFeeLine), Filter(b, AppliesShopFeeLine), LineTotalOf);
  }

  function SaleInvoiceLine(l: SaleLine): InvoiceLine
  {
    InvoiceLine(l.itemCode, l.description,
                if l.condition.Some? then Some(ConditionName(l.condition.value)) else None,
                l.quantity, l.unitPrice, CurrencyName(l.currency), l.LineTotal(), l.isTaxable, l.appliesShopFee)
  }

  function SaleInvoiceLines(ls: seq<SaleLine>): (r: seq<InvoiceLine>)
    ensures |r| == |ls|
    ensures forall i | 0 <= i < |ls| :: r[i] == SaleInvoiceLine(ls[i])
  {
    seq(|ls|, i requires 0 <= i < |ls| => SaleInvoiceLine(ls[i]))
  }

  lemma {:induction false} SaleInvoiceSubtotal(ls: seq<SaleLine>)
    ensures SumReal(SaleInvoiceLines(ls), LineTotalOf) == SumSaleLineTotals(ls)
    decreases |ls|
  {
    if |ls| > 0 {
      SaleInvoiceSubtotal(ls[..|ls| - 1]);
      assert SaleInvoiceLines(ls)[..|ls| - 1] == SaleInvoiceLines(ls[..|ls| - 1]);
    }
  }

  /** GetSaleInvoiceAsync: the sale as the store returns it, at its branch, served by the caller. */
  function GetSaleInvoice(user: CurrentUser, now: Instant, sales: map<string, SaleDocument>, branches: seq<Branch>,
                          saleId: string): Result<Invoice>
  {
    if saleId !in sales then Err(InvalidOperation)
    else
      var sale := SaleMapper.ToEntity(sales[saleId]);
      match BranchById(branches, sale.branchId)
      case None => Err(InvalidOperation)
      case Some(branch) =>
        var lines := SaleInvoiceLines(sale.lines);
        Ok(Invoice(sale.saleNumber, sale.saleDateUtc, branch.code, branch.name, PaymentMethodName(sale.paymentMethod),
                   sale.customerName, sale.customerPhone, user.username, sale.notes, lines,
                   InvoiceTotalsFor(lines), now))
  }

  /**
   * A sale invoice exists exactly when the sale and its branch do.  It has
   * one line per sale line and the subtotal is the sum of the line totals.
   * A stored sale keeps neither its payment method nor its lines' tax and
   * fee flags, so every sale invoice reads "Cash" and charges tax and fee on
   * every line: the grand total is 108% of the subtotal, all of it due.
   */
  lemma SaleInvoiceOutcome(user: CurrentUser, now: Instant, sales: map<string, SaleDocument>, branches: seq<Branch>,
                           saleId: string)
    ensures var r := GetSaleInvoice(user, now, sales, branches, saleId);
            && (r.Ok? <==> saleId in sales && BranchById(branches, sales[saleId].branchId).Some?)
            && (r.Err? ==> r.error == InvalidOperation)
            && (r.Ok? ==>
                  var sale := SaleMapper.ToEntity(sales[saleId]);
                  && |r.value.lines| == |sales[saleId].lines|
                  && r.value.invoiceNumber == sale.saleNumber
                  && r.value.branchCode == BranchById(branches, sale.branchId).value.code
                  && r.value.serviceRep == user.username
                  && r.value.paymentMethod == "Cash"
                  && r.value.totals.subtotal == SumSaleLineTotals(sale.lines)
                  && r.value.totals.grandTotal == r.value.totals.subtotal * 1.08
                  && r.value.totals.amountDue == r.value.totals.grandTotal)
  {
    var r := GetSaleInvoice(user, now, sales, branches, saleId);
    if r.Ok? {
      var sale := SaleMapper.ToEntity(sales[saleId]);
      SaleInvoiceSubtotal(sale.lines);
      InvoiceTotalsFlags(SaleInvoiceLines(sale.lines));
    }
  }

  /** A transaction line on an invoice: transactions have no description, so the item code stands in. */
  function TransactionInvoiceLine(l: InventoryTransactionLineDocument): InvoiceLine
  {
    InvoiceLine(l.itemCode, l.itemCode, Some(ConditionName(l.condition)), l.quantity, l.unitPrice,
                CurrencyName(l.currency), l.lineTotal, l.isTaxable, l.appliesShopFee)
  }

  function TransactionInvoiceLines(ls: seq<InventoryTransactionLineDocument>): (r: seq<InvoiceLine>)
    ensures |r| == |ls|
    ensures forall i | 0 <= i < |ls| :: r[i] == TransactionInvoiceLine(ls[i])
  {
    seq(|ls|, i requires 0 <= i < |ls| => TransactionInvoiceLine(ls[i]))
  }

  /** GetTransactionInvoiceAsync: the transaction at the branch its code names, with no customer. */
  function GetTransactionInvoice(user: CurrentUser, now: Instant, transactions: map<string, InventoryTransactionDocument>,
                                 branches: seq<Branch>, transactionId: string): Result<Invoice>
  {
    if transactionId !in transactions then Err(InvalidOperation)
    else
      var t := transactions[transactionId];
      match BranchByCode(branches, t.branchCode)
      case None => Err(InvalidOperation)
      case Some(branch) =>
        var lines := TransactionInvoiceLines(t.lines);
        Ok(Invoice(t.transactionNumber, t.transactionDateUtc, branch.code, branch.name,
                   if t.paymentMethod.Some? then PaymentMethodName(t.paymentMethod.value) else "N/A",
                   None, None, user.username, t.notes, lines, InvoiceTotalsFor(lines), now))
  }

  /**
   * A transaction invoice exists exactly when the transaction and the
   * branch with its code do.  Each line shows its item code as the
   * description and its recorded total; the invoice has no customer, reads
   * "N/A" when the transaction has no payment method, and its totals are
   * those of its lines with each line's own tax and fee flags.
   */
  lemma TransactionInvoiceOutcome(user: CurrentUser, now: Instant,
                                  transactions: map<string, InventoryTransactionDocument>,
                                  branches: seq<Branch>, transactionId: string)
    ensures var r := GetTransactionInvoice(user, now, transactions, branches, transactionId);
            && (r.Ok? <==> transactionId in transactions
                           && BranchByCode(branches, transactions[transactionId].branchCode).Some?)
            && (r.Err? ==> r.error == InvalidOperation)
            && (r.Ok? ==>
                  var t := transactions[transactionId];
                  && r.value.invoiceNumber == t.transactionNumber
                  && r.value.branchCode == t.branchCode
                  && |r.value.lines| == |t.lines|
                  && (forall i | 0 <= i < |t.lines| ::
                        r.value.lines[i].description == t.lines[i].itemCode
                        && r.value.lines[i].lineTotal == t.lines[i].lineTotal)
                  && r.value.customerName.None? && r.value.customerPhone.None?
                  && (r.value.paymentMethod == "N/A" <==> t.paymentMethod.None?)
                  && r.value.totals == InvoiceTotalsFor(TransactionInvoiceLines(t.lines)))
  {
  }

  // ---------------------------------------------------------------------
  // Inventory movements
  // ---------------------------------------------------------------------

  datatype MovementLine = MovementLine(
    itemCode: string,
    condition: string,
    quantity: int,
    unitPrice: real,
    currency: string,
    lineTotal: real)

  datatype MovementTransaction = MovementTransaction(
    transactionNumber: string,
    branchCode: string,
    transactionType: string,
    status: string,
    transactionDateUtc: Instant,
    committedAtUtc: Option<Instant>,
    notes: Option<string>,
    lines: seq<MovementLine>)

  datatype MovementsReport = MovementsReport(
    generatedAtUtc: Instant,
    fromDateUtc: Option<Instant>,
    toDateUtc: Option<Instant>,
    branchCode: Option<string>,
    branchName: Option<string>,
    transactionType: Option<string>,
    status: Option<string>,
    transactions: seq<MovementTransaction>,
    totalCount: nat)

  /** A type filter: empty or not a type name means no filter. */
  function ParseTransactionType(s: Option<string>): (r: Option<TransactionType>)
    ensures r.Some? ==> s == Some(TransactionTypeName(r.value))
    ensures forall t: TransactionType :: s == Some(TransactionTypeName(t)) ==> r == Some(t)
  {
    if IsNullOrEmpty(s) then None
    else if s.value == "In" then Some(In)
    else if s.value == "Out" then Some(Out)
    else if s.value == "Adjust" then Some(Adjust)
    else None
  }

  /** A status filter: empty or not a status name means no filter. */
  function ParseTransactionStatus(s: Option<string>): (r: Option<TransactionStatus>)
    ensures r.Some? ==> s == Some(TransactionStatusName(r.value))
    ensures forall t: TransactionStatus :: s == Some(TransactionStatusName(t)) ==> r == Some(t)
  {
    if IsNullOrEmpty(s) then None
    else if s.value == "Draft" then Some(Draft)
    else if s.value == "Committed" then Some(Committed)
    else if s.value == "Cancelled" then Some(Cancelled)
    else None
  }

  /**
   * The transaction search's filters.  The period is matched against the
   * creation time of the record, not the transaction date.
   */
  predicate MatchesSearch(t: InventoryTransactionDocument, branchCode: Option<string>, from: Option<Instant>,
                          to: Option<Instant>, transactionType: Option<TransactionType>,
                          status: Option<TransactionStatus>)
  {
    && (IsNullOrEmpty(branchCode) || t.branchCode == branchCode.value)
    && (from.None? || t.createdAtUtc >= from.value)
    && (to.None? || t.createdAtUtc <= to.value)
    && (transactionType.None? || t.transactionType == transactionType.value)
    && (status.None? || t.status == status.value)
  }

  /** The search returns the newest records first. */
  predicate NewestCreatedFirst(a: InventoryTransactionDocument, b: InventoryTransactionDocument)
  {
    a.createdAtUtc >= b.createdAtUtc
  }

  /** The stored records that match the search, in stored order. */
  function Matching(transactions: seq<InventoryTransactionDocument>, branchCode: Option<string>,
                    from: Option<Instant>, to: Option<Instant>,
                    transactionType: Option<TransactionType>, status: Option<TransactionStatus>)
    : seq<InventoryTransactionDocument>
  {
    Filter(transactions, (t: InventoryTransactionDocument) =>
             MatchesSearch(t, branchCode, from, to, transactionType, status))
  }

  /** SearchAsync of the transaction store, without paging. */
  function SearchTransactions(transactions: seq<InventoryTransactionDocument>, branchCode: Option<string>,
                              from: Option<Instant>, to: Option<Instant>,
                              transactionType: Option<TransactionType>, status: Option<TransactionStatus>)
    : seq<InventoryTransactionDocument>
  {
    SortBy(Matching(transactions, branchCode, from, to, transactionType, status), NewestCreatedFirst)
  }

  /** How many stored records match the search, each stored record counted once. */
  function MatchCount(transactions: seq<InventoryTransactionDocument>, branchCode: Option<string>,
                      from: Option<Instant>, to: Option<Instant>,
                      transactionType: Option<TransactionType>, status: Option<TransactionStatus>): nat
  {
    if |transactions| == 0 then 0
    else MatchCount(transactions[..|transactions| - 1], branchCode, from, to, transactionType, status)
         + (if MatchesSearch(transactions[|transactions| - 1], branchCode, from, to, transactionType, status) then 1 else 0)
  }

  /** The search finds one record per matching stored record. */
  lemma {:induction false} MatchingCount(transactions: seq<InventoryTransactionDocument>, branchCode: Option<string>,
                                         from: Option<Instant>, to: Option<Instant>,
                                         transactionType: Option<TransactionType>, status: Option<TransactionStatus>)
    ensures |Matching(transactions, branchCode, from, to, transactionType, status)|
            == MatchCount(transactions, branchCode, from, to, transactionType, status)
    decreases |transactions|
  {
    if |transactions| > 0 {
      MatchingCount(transactions[..|transactions| - 1], branchCode, from, to, transactionType, status);
    }
  }

  /** A search returns exactly the matching records. */
  lemma SearchTransactionsMembers(transactions: seq<InventoryTransactionDocument>, branchCode: Option<string>,
                                  from: Option<Instant>, to: Option<Instant>,
                                  transactionType: Option<TransactionType>, status: Option<TransactionStatus>)
    ensures forall t :: t in SearchTransactions(transactions, branchCode, from, to, transactionType, status) <==>
                        t in transactions && MatchesSearch(t, branchCode, from, to, transactionType, status)
  {
    var p := (t: InventoryTransactionDocument) => MatchesSearch(t, branchCode, from, to, transactionType, status);
    var found := SearchTransactions(transactions, branchCode, from, to, transactionType, status);
    forall t ensures t in found <==> t in transactions && p(t) {
      assert t in found <==> t in multiset(found);
      if t in transactions && p(t) {
        var i :| 0 <= i < |transactions| && transactions[i] == t;
      }
    }
  }

  function MovementOf(l: InventoryTransactionLineDocument): MovementLine
  {
    MovementLine(l.itemCode, ConditionName(l.condition), l.quantity, l.unitPrice, CurrencyName(l.currency), l.lineTotal)
  }

  function Movement(t: InventoryTransactionDocument): MovementTransaction
  {
    MovementTransaction(t.transactionNumber, t.branchCode, TransactionTypeName(t.transactionType),
                        TransactionStatusName(t.status), t.transactionDateUtc, t.committedAtUtc, t.notes,
                        seq(|t.lines|, i requires 0 <= i < |t.lines| => MovementOf(t.lines[i])))
  }

  /** Movements ordered by transaction date, then by transaction number (ordinal). */
  predicate MovementLe(a: MovementTransaction, b: MovementTransaction)
  {
    a.transactionDateUtc < b.transactionDateUtc
    || (a.transactionDateUtc == b.transactionDateUtc && StringLe(a.transactionNumber, b.transactionNumber))
  }

  lemma MovementLeTotalPreorder()
    ensures TotalPreorder(MovementLe)
  {
    forall a: MovementTransaction, b: MovementTransaction ensures MovementLe(a, b) || MovementLe(b, a) {
      StringLeTotal(a.transactionNumber, b.transactionNumber);
    }
    forall a: MovementTransaction, b: MovementTransaction, c: MovementTransaction | MovementLe(a, b) && MovementLe(b, c)
      ensures MovementLe(a, c)
    {
      if a.transactionDateUtc == b.transactionDateUtc == c.transactionDateUtc {
        StringLeTransitive(a.transactionNumber, b.transactionNumber, c.transactionNumber);
      }
    }
  }

  /** GetInventoryMovementsAsync. */
  function Movements(found: seq<InventoryTransactionDocument>): (movements: seq<MovementTransaction>)
    ensures |movements| == |found| && forall i | 0 <= i < |found| :: movements[i] == Movement(found[i])
  {
    seq(|found|, i requires 0 <= i < |found| => Movement(found[i]))
  }

  function GetInventoryMovements(now: Instant, transactions: seq<InventoryTransactionDocument>, branches: seq<Branch>,
                                 fromDate: Option<Instant>, toDate: Option<Instant>, branchCode: Option<string>,
                                 transactionType: Option<string>, status: Option<string>): MovementsReport
  {
    var found := SearchTransactions(transactions, branchCode, fromDate, toDate,
                                    ParseTransactionType(transactionType), ParseTransactionStatus(status));
    var movements := Movements(found);
    var branchName := if IsNullOrEmpty(branchCode) then None
                      else match BranchByCode(branches, branchCode.value)
                           case None => None
                           case Some(b) => Some(b.name);
    MovementsReport(now, fromDate, toDate, branchCode, branchName, transactionType, status,
                    SortBy(movements, MovementLe), |movements|)
  }

  /**
   * The movements report lists exactly the transactions of the branch (all
   * branches when none is named) created in the period and of the type and
   * status asked for, a filter that does not parse being dropped; they are
   * ordered by date then number, and the count is the number listed.
   */
  lemma MovementsOutcome(now: Instant, transactions: seq<InventoryTransactionDocument>, branches: seq<Branch>,
                         fromDate: Option<Instant>, toDate: Option<Instant>, branchCode: Option<string>,
                         transactionType: Option<string>, status: Option<string>)
    ensures var report := GetInventoryMovements(now, transactions, branches, fromDate, toDate, branchCode,
                                                transactionType, status);
            var (ty, st) := (ParseTransactionType(transactionType), ParseTransactionStatus(status));
            && report.totalCount == |report.transactions|
            && report.totalCount == MatchCount(transactions, branchCode, fromDate, toDate, ty, st)
            && SortedBy(report.transactions, MovementLe)
            && (forall m :: m in report.transactions <==>
                  exists t | t in transactions :: MatchesSearch(t, branchCode, fromDate, toDate, ty, st) && m == Movement(t))
            && (ty.None? ==> forall t | t in transactions && MatchesSearch(t, branchCode, fromDate, toDate, None, st) ::
                  Movement(t) in report.transactions)
  {
    var ty := ParseTransactionType(transactionType);
    var st := ParseTransactionStatus(status);
    var found := SearchTransactions(transactions, branchCode, fromDate, toDate, ty, st);
    var movements := Movements(found);
    MovementLeTotalPreorder();
    SortBySorted(movements, MovementLe);
    MovementsListed(transactions, branchCode, fromDate, toDate, ty, st);
    MatchingCount(transactions, branchCode, fromDate, toDate, ty, st);
    var report := GetInventoryMovements(now, transactions, branches, fromDate, toDate, branchCode, transactionType, status);
    assert report.transactions == SortBy(movements, MovementLe) && report.totalCount == |movements|;
    forall m ensures m in report.transactions <==> m in movements {
      assert m in report.transactions <==> m in multiset(report.transactions);
    }
    if ty.None? {
      forall t | t in transactions && MatchesSearch(t, branchCode, fromDate, toDate, None, st)
        ensures Movement(t) in report.transactions
      {
        assert Movement(t) in movements;
      }
    }
  }

  /** The movements of a search are exactly those of the matching transactions. */
  lemma MovementsListed(transactions: seq<InventoryTransactionDocument>, branchCode: Option<string>,
                        fromDate: Option<Instant>, toDate: Option<Instant>,
                        ty: Option<TransactionType>, st: Option<TransactionStatus>)
    ensures var movements := Movements(SearchTransactions(transactions, branchCode, fromDate, toDate, ty, st));
            forall m :: m in movements <==>
              exists t | t in transactions :: MatchesSearch(t, branchCode, fromDate, toDate, ty, st) && m == Movement(t)
  {
    var found := SearchTransactions(transactions, branchCode, fromDate, toDate, ty, st);
    var movements := Movements(found);
    SearchTransactionsMembers(transactions, branchCode, fromDate, toDate, ty, st);
    forall m | m in movements
      ensures exists t | t in transactions :: MatchesSearch(t, branchCode, fromDate, toDate, ty, st) && m == Movement(t)
    {
      var i :| 0 <= i < |movements| && movements[i] == m;
      assert found[i] in found && m == Movement(found[i]);
    }
    forall t | t in transactions && MatchesSearch(t, branchCode, fromDate, toDate, ty, st)
      ensures Movement(t) in movements
    {
      assert t in found;
      var i :| 0 <= i < |found| && found[i] == t;
      assert movements[i] == Movement(t);
    }
  }

}
