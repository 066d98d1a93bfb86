/**
 * The dashboard: committed sales and committed inventory transactions of a
 * period, as totals and counts (sales are sales plus Out transactions,
 * purchases are In transactions, Adjust transactions count for nothing),
 * today's figures, a per-branch breakdown and the ten most recent sales
 * and purchases.
 *
 * Transactions are read as their stored documents; sales through the sale
 * mapper.  The clock is the parameter now.
 */
module DashboardService {
  import opened Common
  import opened Documents
  import opened MasterData
  import opened SaleLines
  import opened Sales
  import opened Sequences
  import SaleMapper
  import ReportService

  /** 100-nanosecond ticks in a day. */
  const TicksPerDay: int := 864_000_000_000

  /** How many recent activities the dashboard shows. */
  const RecentActivityLimit: nat := 10

  // ---------------------------------------------------------------------
  // Scope
  // ---------------------------------------------------------------------

  /**
   * ValidateBranchAccessForQuery as written: a non-Admin's branch is taken
   * from the user's branch id, which is also what a requested branch code
   * is compared with, and the id is returned as the branch code to query.
   */
  function QueryScopeAsWritten(user: CurrentUser, branchCode: Option<string>): (r: Result<Option<string>>)
    ensures user.role == Admin ==> r == Ok(branchCode)
    ensures user.role != Admin ==>
              (r.Ok? <==> !IsNullOrEmpty(user.branchId) && (IsNullOrEmpty(branchCode) || branchCode == user.branchId))
    ensures user.role != Admin && r.Ok? ==> r.value == user.branchId
    ensures r.Err? ==> r.error == UnauthorizedAccess
  {
    if user.role == Admin then Ok(branchCode)
    else if IsNullOrEmpty(user.branchId) then Err(UnauthorizedAccess)
    else if !IsNullOrEmpty(branchCode) && branchCode.value != user.branchId.value then Err(UnauthorizedAccess)
    else Ok(user.branchId)
  }

  /**
   * The branch check corrected: the branch code a dashboard query reads is
   * an Admin's argument, none meaning every branch; for anyone else their
   * own branch code, and asking for another branch is refused.
   */
  function QueryScope(user: CurrentUser, branchCode: Option<string>): (r: Result<Option<string>>)
    ensures user.role == Admin ==> r == Ok(branchCode)
    ensures user.role != Admin ==>
              (r.Ok? <==> !IsNullOrEmpty(user.branchCode) && (IsNullOrEmpty(branchCode) || branchCode == user.branchCode))
    ensures user.role != Admin && r.Ok? ==> r.value == user.branchCode
    ensures r.Err? ==> r.error == UnauthorizedAccess
  {
    if user.role == Admin then Ok(branchCode)
    else if IsNullOrEmpty(user.branchCode) then Err(UnauthorizedAccess)
    else if !IsNullOrEmpty(branchCode) && branchCode.value != user.branchCode.value then Err(UnauthorizedAccess)
    else Ok(user.branchCode)
  }

  /** The committed transactions of the scope created in the period, newest first. */
  function ScopedTransactions(transactions: seq<InventoryTransactionDocument>, scope: Option<string>,
                              start: Instant, end: Instant): seq<InventoryTransactionDocument>
  {
    ReportService.SearchTransactions(transactions, scope, Some(start), Some(end), None, Some(Committed))
  }

  /** The branch id the sales are searched by: the id of the branch with the scope's code, if any. */
  function SalesBranchId(branches: seq<Branch>, scope: Option<string>): Option<string>
  {
    if IsNullOrEmpty(scope) then None
    else match BranchByCode(branches, scope.value)
         case None => None
         case Some(b) => Some(b.id)
  }

  predicate SaleMatches(s: Sale, branchId: Option<string>, start: Instant, end: Instant)
  {
    && (IsNullOrEmpty(branchId) || s.branchId == branchId.value)
    && start <= s.saleDateUtc <= end
  }

  predicate NewestSaleFirst(a: Sale, b: Sale)
  {
    a.saleDateUtc >= b.saleDateUtc
  }

  predicate IsCommittedSale(s: Sale)
  {
    s.status == Committed
  }

  /** The stored sales as read back. */
  function SaleEntities(sales: seq<SaleDocument>): seq<Sale>
  {
    seq(|sales|, i requires 0 <= i < |sales| => SaleMapper.ToEntity(sales[i]))
  }

  /** The sale search: the sales of the branch id (all when none) dated in the period. */
  function SalesInPeriod(all: seq<Sale>, branchId: Option<string>, start: Instant, end: Instant): (r: seq<Sale>)
    ensures forall s | s in r :: s in all && SaleMatches(s, branchId, start, end)
    ensures forall i | 0 <= i < |all| && SaleMatches(all[i], branchId, start, end) :: all[i] in r
  {
    Filter(all, (s: Sale) => SaleMatches(s, branchId, start, end))
  }

  /** The committed sales of the scope's branch dated in the period, newest first. */
  function ScopedSales(sales: seq<SaleDocument>, branches: seq<Branch>, scope: Option<string>,
                       start: Instant, end: Instant): seq<Sale>
  {
    var found := SortBy(SalesInPeriod(SaleEntities(sales), SalesBranchId(branches, scope), start, end), NewestSaleFirst);
    Filter(found, IsCommittedSale)
  }

  // ---------------------------------------------------------------------
  // Summary
  // ---------------------------------------------------------------------

  datatype DashboardSummary = DashboardSummary(
    salesTotal: real,
    purchasesTotal: real,
    netTotal: real,
    salesToday: real,
    purchasesToday: real,
    totalTransactions: nat,
    salesTransactions: nat,
    purchaseTransactions: nat,
    currency: Currency,
    startDate: Instant,
    endDate: Instant)

  predicate IsIn(t: InventoryTransactionDocument) { t.transactionType == In }
  predicate IsOut(t: InventoryTransactionDocument) { t.transactionType == Out }

  function LineTotalOf(l: InventoryTransactionLineDocument): real { l.lineTotal }

  function TransactionAmount(t: InventoryTransactionDocument): real
  {
    SumReal(t.lines, LineTotalOf)
  }

  function SaleAmount(s: Sale): real
  {
    SumSaleLineTotals(s.lines)
  }

  /** The first day of now: midnight before it. */
  function TodayStart(now: Instant): Instant
  {
    now - now % TicksPerDay
  }

  /** The last tick of the day that starts at todayStart. */
  function TodayEnd(todayStart: Instant): Instant
  {
    todayStart + TicksPerDay - 1
  }

  /**
   * The currency shown: that of the first line of the first sale, else of
   * the first line of the first transaction, else USD.
   */
  function FirstCurrency(sales: seq<Sale>, transactions: seq<InventoryTransactionDocument>): Currency
  {
    if |sales| > 0 && |sales[0].lines| > 0 then sales[0].lines[0].currency
    else if |transactions| > 0 && |transactions[0].lines| > 0 then transactions[0].lines[0].currency
    else USD
  }

  /** CalculateSummaryAsync; the period's bounds are filled in by the caller. */
  function CalculateSummary(transactions: seq<InventoryTransactionDocument>, sales: seq<Sale>,
                            todayStart: Instant, todayEnd: Instant): DashboardSummary
  {
    var outs := Filter(transactions, IsOut);
    var ins := Filter(transactions, IsIn);
    var salesTotal := SumReal(sales, SaleAmount) + SumReal(outs, TransactionAmount);
    var purchasesTotal := SumReal(ins, TransactionAmount);
    var todaySales := Filter(sales, (s: Sale) => todayStart <= s.saleDateUtc <= todayEnd);
    var todayOuts := Filter(outs, (t: InventoryTransactionDocument) => todayStart <= t.transactionDateUtc <= todayEnd);
    var todayIns := Filter(transactions, (t: InventoryTransactionDocument) =>
                             IsIn(t) && todayStart <= t.transactionDateUtc <= todayEnd);
    var salesToday := SumReal(todaySales, SaleAmount) + SumReal(todayOuts, TransactionAmount);
    var purchasesToday := SumReal(todayIns, TransactionAmount);
    DashboardSummary(salesTotal, purchasesTotal, salesTotal - purchasesTotal, salesToday, purchasesToday,
                     |sales| + |ins| + |outs|, |sales| + |outs|, |ins|,
                     FirstCurrency(sales, transactions), 0, 0)
  }

  lemma {:induction false} SaleAmountNonNegative(lines: seq<SaleLine>)
    requires forall i | 0 <= i < |lines| :: lines[i].quantity >= 0 && lines[i].unitPrice >= 0.0
    ensures SumSaleLineTotals(lines) >= 0.0
    decreases |lines|
  {
    if |lines| > 0 {
      SaleAmountNonNegative(lines[..|lines| - 1]);
    }
  }

  lemma {:induction false} FilterConjunction<T>(s: seq<T>, p: T -> bool, q: T -> bool, pq: T -> bool)
    requires forall x :: pq(x) == (p(x) && q(x))
    ensures Filter(s, pq) == Filter(Filter(s, p), q)
    decreases |s|
  {
    if |s| > 0 {
      FilterConjunction(s[..|s| - 1], p, q, pq);
    }
  }

  /** Stock sold and bought at no negative price. */
  predicate NonNegativeAmounts(transactions: seq<InventoryTransactionDocument>, sales: seq<Sale>)
  {
    && (forall t | t in transactions :: forall i | 0 <= i < |t.lines| :: t.lines[i].lineTotal >= 0.0)
    && (forall s | s in sales :: forall i | 0 <= i < |s.lines| :: s.lines[i].quantity >= 0 && s.lines[i].unitPrice >= 0.0)
  }

  /**
   * The summary's figures: net is sales less purchases; sales count sales
   * and Out transactions, purchases In transactions, and the transaction
   * count is both.  With no negative amounts today's sales and purchases
   * are part of the period's.
   */
  lemma SummaryFigures(transactions: seq<InventoryTransactionDocument>, sales: seq<Sale>,
                       todayStart: Instant, todayEnd: Instant)
    ensures var d := CalculateSummary(transactions, sales, todayStart, todayEnd);
            && d.netTotal == d.salesTotal - d.purchasesTotal
            && d.salesTransactions == |sales| + |Filter(transactions, IsOut)|
            && d.purchaseTransactions == |Filter(transactions, IsIn)|
            && d.totalTransactions == d.salesTransactions + d.purchaseTransactions
            && (NonNegativeAmounts(transactions, sales) ==>
                  && 0.0 <= d.salesToday <= d.salesTotal
                  && 0.0 <= d.purchasesToday <= d.purchasesTotal)
  {
    if NonNegativeAmounts(transactions, sales) {
      var outs := Filter(transactions, IsOut);
      var ins := Filter(transactions, IsIn);
      forall s | s in sales ensures SaleAmount(s) >= 0.0 {
        SaleAmountNonNegative(s.lines);
      }
      forall t | t in transactions ensures TransactionAmount(t) >= 0.0 {
        SumRealFilterBounded(t.lines, (l: InventoryTransactionLineDocument) => true, LineTotalOf);
      }
      var today := (s: Sale) => todayStart <= s.saleDateUtc <= todayEnd;
      var todayT := (t: InventoryTransactionDocument) => todayStart <= t.transactionDateUtc <= todayEnd;
      var inToday := (t: InventoryTransactionDocument) => IsIn(t) && todayStart <= t.transactionDateUtc <= todayEnd;
      SumRealFilterBounded(sales, today, SaleAmount);
      SumRealFilterBounded(outs, todayT, TransactionAmount);
      SumRealFilterBounded(ins, todayT, TransactionAmount);
      FilterConjunction(transactions, IsIn, todayT, inToday);
    }
  }

  /** An Adjust transaction changes no total and no count. */
  lemma SummaryIgnoresAdjust(transactions: seq<InventoryTransactionDocument>, adjust: InventoryTransactionDocument,
                             sales: seq<Sale>, todayStart: Instant, todayEnd: Instant)
    requires adjust.transactionType == Adjust
    ensures var (d, e) := (CalculateSummary(transactions, sales, todayStart, todayEnd),
                           CalculateSummary(transactions + [adjust], sales, todayStart, todayEnd));
            && e.salesTotal == d.salesTotal && e.purchasesTotal == d.purchasesTotal && e.netTotal == d.netTotal
            && e.salesToday == d.salesToday && e.purchasesToday == d.purchasesToday
            && e.totalTransactions == d.totalTransactions && e.salesTransactions == d.salesTransactions
            && e.purchaseTransactions == d.purchaseTransactions
  {
    var all := transactions + [adjust];
    assert all[..|all| - 1] == transactions;
  }

  // ---------------------------------------------------------------------
  // Branch breakdown
  // ---------------------------------------------------------------------

  datatype BranchBreakdown = BranchBreakdown(
    branchCode: string,
    branchName: string,
    salesTotal: real,
    purchasesTotal: real,
    netTotal: real,
    salesTransactionCount: nat,
    purchaseTransactionCount: nat,
    currency: Currency)

  /** A branch's name by its code, or the key itself when no branch has that code. */
  function BranchNameOr(branches: seq<Branch>, key: string): string
  {
    match BranchByCode(branches, key)
    case None => key
    case Some(b) => b.name
  }

  /**
   * The key a sale is grouped under: the code of its branch, found by the
   * sale's branch id, or the id itself when no branch has it.
   */
  function SaleBranchKey(branches: seq<Branch>, s: Sale): (key: string)
    ensures BranchById(branches, s.branchId).Some? ==> key == BranchById(branches, s.branchId).value.code
  {
    match BranchById(branches, s.branchId)
    case None => s.branchId
    case Some(b) => b.code
  }

  /**
   * The keys the breakdown groups by: the keys of the sales, then the
   * branch codes of the transactions, each once.
   */
  function BreakdownKeys(transactions: seq<InventoryTransactionDocument>, sales: seq<Sale>, saleKey: Sale -> string)
    : seq<string>
  {
    Distinct(SaleKeys(sales, saleKey) + TransactionCodes(transactions))
  }

  function SaleKeys(sales: seq<Sale>, saleKey: Sale -> string): (keys: seq<string>)
    ensures |keys| == |sales| && forall i | 0 <= i < |sales| :: keys[i] == saleKey(sales[i])
  {
    seq(|sales|, i requires 0 <= i < |sales| => saleKey(sales[i]))
  }

  function TransactionCodes(transactions: seq<InventoryTransactionDocument>): (codes: seq<string>)
    ensures |codes| == |transactions| && forall i | 0 <= i < |transactions| :: codes[i] == transactions[i].branchCode
  {
    seq(|transactions|, i requires 0 <= i < |transactions| => transactions[i].branchCode)
  }

  /** The breakdown row of one key: the sales with that key, the transactions with that branch code. */
  function BranchRow(branches: seq<Branch>, transactions: seq<InventoryTransactionDocument>, sales: seq<Sale>,
                     saleKey: Sale -> string, key: string): BranchBreakdown
  {
    var branchSales := Filter(sales, (s: Sale) => saleKey(s) == key);
    var branchTransactions := Filter(transactions, (t: InventoryTransactionDocument) => t.branchCode == key);
    var ins := Filter(branchTransactions, IsIn);
    var outs := Filter(branchTransactions, IsOut);
    var salesTotal := SumReal(branchSales, SaleAmount) + SumReal(outs, TransactionAmount);
    var purchasesTotal := SumReal(ins, TransactionAmount);
    BranchBreakdown(key, BranchNameOr(branches, key), salesTotal, purchasesTotal, salesTotal - purchasesTotal,
                    |branchSales| + |outs|, |ins|, FirstCurrency(branchSales, branchTransactions))
  }

  predicate HigherSalesFirst(a: BranchBreakdown, b: BranchBreakdown)
  {
    a.salesTotal >= b.salesTotal
  }

  /** One row per key, in the order of the keys. */
  function BranchRows(branches: seq<Branch>, transactions: seq<InventoryTransactionDocument>, sales: seq<Sale>,
                      saleKey: Sale -> string): seq<BranchBreakdown>
  {
    var keys := BreakdownKeys(transactions, sales, saleKey);
    seq(|keys|, i requires 0 <= i < |keys| => BranchRow(branches, transactions, sales, saleKey, keys[i]))
  }

  /** The breakdown over a grouping of the sales: one row per key, highest sales first. */
  function BreakdownBy(branches: seq<Branch>, transactions: seq<InventoryTransactionDocument>, sales: seq<Sale>,
                       saleKey: Sale -> string): seq<BranchBreakdown>
  {
    SortBy(BranchRows(branches, transactions, sales, saleKey), HigherSalesFirst)
  }

  function SaleBranchId(s: Sale): string { s.branchId }

  /**
   * CalculateBranchBreakdownAsync as written: sales are grouped by their
   * branch id, transactions by their branch code, and both kinds of key
   * are shown as a branch code, highest sales first.
   */
  function CalculateBranchBreakdownAsWritten(branches: seq<Branch>, transactions: seq<InventoryTransactionDocument>,
                                             sales: seq<Sale>): (rows: seq<BranchBreakdown>)
    ensures SortedBy(rows, HigherSalesFirst)
    ensures forall s | s in sales :: exists r | r in rows :: r.branchCode == s.branchId
    ensures forall t | t in transactions :: exists r | r in rows :: r.branchCode == t.branchCode
    ensures forall r | r in rows :: (exists s | s in sales :: s.branchId == r.branchCode)
                                 || (exists t | t in transactions :: t.branchCode == r.branchCode)
  {
    BreakdownCoversGroups(branches, transactions, sales, SaleBranchId);
    BreakdownOrdered(branches, transactions, sales, SaleBranchId);
    BreakdownBy(branches, transactions, sales, SaleBranchId)
  }

  /** The breakdown corrected: every sale is grouped under its branch's code. */
  function CalculateBranchBreakdown(branches: seq<Branch>, transactions: seq<InventoryTransactionDocument>,
                                    sales: seq<Sale>): seq<BranchBreakdown>
  {
    BreakdownBy(branches, transactions, sales, (s: Sale) => SaleBranchKey(branches, s))
  }

  /** The breakdown's rows are those of the keys, whatever their order. */
  lemma BreakdownRowsOfKeys(branches: seq<Branch>, transactions: seq<InventoryTransactionDocument>, sales: seq<Sale>,
                            saleKey: Sale -> string)
    ensures var rows := BreakdownBy(branches, transactions, sales, saleKey);
            var keys := BreakdownKeys(transactions, sales, saleKey);
            && (forall r | r in rows :: r.branchCode in keys && r == BranchRow(branches, transactions, sales, saleKey, r.branchCode))
            && (forall k | k in keys :: exists r | r in rows :: r.branchCode == k)
  {
    var keys := BreakdownKeys(transactions, sales, saleKey);
    var unsorted := BranchRows(branches, transactions, sales, saleKey);
    var rows := BreakdownBy(branches, transactions, sales, saleKey);
    forall r | r in rows ensures r.branchCode in keys && r == BranchRow(branches, transactions, sales, saleKey, r.branchCode) {
      assert r in multiset(unsorted);
      var i :| 0 <= i < |unsorted| && unsorted[i] == r;
    }
    forall k | k in keys ensures exists r | r in rows :: r.branchCode == k {
      var i :| 0 <= i < |keys| && keys[i] == k;
      assert unsorted[i] in multiset(rows);
    }
  }

  /** The breakdown has one row per key, ordered by sales, highest first. */
  lemma BreakdownOrdered(branches: seq<Branch>, transactions: seq<InventoryTransactionDocument>, sales: seq<Sale>,
                         saleKey: Sale -> string)
    ensures var rows := BreakdownBy(branches, transactions, sales, saleKey);
            && SortedBy(rows, HigherSalesFirst)
            && |rows| == |BreakdownKeys(transactions, sales, saleKey)|
  {
    SortBySorted(BranchRows(branches, transactions, sales, saleKey), HigherSalesFirst);
  }

  /** No two rows of the breakdown have the same key. */
  lemma BreakdownKeysDistinct(branches: seq<Branch>, transactions: seq<InventoryTransactionDocument>, sales: seq<Sale>,
                              saleKey: Sale -> string)
    ensures var rows := BreakdownBy(branches, transactions, sales, saleKey);
            forall i, j | 0 <= i < j < |rows| :: rows[i].branchCode != rows[j].branchCode
  {
    var keys := BreakdownKeys(transactions, sales, saleKey);
    var unsorted := BranchRows(branches, transactions, sales, saleKey);
    var key := (r: BranchBreakdown) => r.branchCode;
    forall i, j | 0 <= i < j < |unsorted| ensures key(unsorted[i]) != key(unsorted[j]) {
      assert unsorted[i].branchCode == keys[i] && unsorted[j].branchCode == keys[j];
    }
    SortByKeepsDistinct(unsorted, HigherSalesFirst, key);
    var rows := SortBy(unsorted, HigherSalesFirst);
    forall i, j | 0 <= i < j < |rows| ensures rows[i].branchCode != rows[j].branchCode {
      assert key(rows[i]) != key(rows[j]);
    }
  }

  /** Each row adds up its key's sales and transactions; its net is sales less purchases. */
  lemma BreakdownRowFigures(branches: seq<Branch>, transactions: seq<InventoryTransactionDocument>, sales: seq<Sale>,
                            saleKey: Sale -> string)
    ensures forall r | r in BreakdownBy(branches, transactions, sales, saleKey) ::
              && r == BranchRow(branches, transactions, sales, saleKey, r.branchCode)
              && r.netTotal == r.salesTotal - r.purchasesTotal
  {
    BreakdownRowsOfKeys(branches, transactions, sales, saleKey);
  }

  /**
   * Every sale's key and every transaction's branch code has a row, and
   * every row's key is one of them.
   */
  lemma BreakdownCoversGroups(branches: seq<Branch>, transactions: seq<InventoryTransactionDocument>, sales: seq<Sale>,
                              saleKey: Sale -> string)
    ensures var rows := BreakdownBy(branches, transactions, sales, saleKey);
            && (forall s | s in sales :: exists r | r in rows :: r.branchCode == saleKey(s))
            && (forall t | t in transactions :: exists r | r in rows :: r.branchCode == t.branchCode)
            && (forall r | r in rows :: (exists s | s in sales :: saleKey(s) == r.branchCode)
                                     || (exists t | t in transactions :: t.branchCode == r.branchCode))
  {
    var keys := BreakdownKeys(transactions, sales, saleKey);
    var ids := SaleKeys(sales, saleKey);
    var codes := TransactionCodes(transactions);
    BreakdownRowsOfKeys(branches, transactions, sales, saleKey);
    forall s | s in sales ensures saleKey(s) in keys {
      var j :| 0 <= j < |sales| && sales[j] == s;
      assert (ids + codes)[j] == saleKey(s);
    }
    forall t | t in transactions ensures t.branchCode in keys {
      var j :| 0 <= j < |transactions| && transactions[j] == t;
      assert (ids + codes)[|ids| + j] == t.branchCode;
    }
    forall k | k in keys ensures (exists s | s in sales :: saleKey(s) == k) || (exists t | t in transactions :: t.branchCode == k) {
      assert k in ids + codes;
      if k in ids {
        var j :| 0 <= j < |ids| && ids[j] == k;
        assert sales[j] in sales;
      } else {
        var j :| 0 <= j < |codes| && codes[j] == k;
        assert transactions[j] in transactions;
      }
    }
  }

  /**
   * When every sale's branch id and every transaction's branch code names
   * a stored branch, each row of the breakdown is a stored branch's code,
   * named after that branch, and no branch has two rows.
   */
  lemma BreakdownOneRowPerBranch(branches: seq<Branch>, transactions: seq<InventoryTransactionDocument>, sales: seq<Sale>)
    requires forall s | s in sales :: BranchById(branches, s.branchId).Some?
    requires forall t | t in transactions :: BranchByCode(branches, t.branchCode).Some?
    ensures var rows := CalculateBranchBreakdown(branches, transactions, sales);
            && (forall r | r in rows :: BranchByCode(branches, r.branchCode).Some?
                                     && r.branchName == BranchByCode(branches, r.branchCode).value.name)
            && (forall i, j | 0 <= i < j < |rows| :: rows[i].branchCode != rows[j].branchCode)
  {
    var saleKey := (s: Sale) => SaleBranchKey(branches, s);
    var rows := CalculateBranchBreakdown(branches, transactions, sales);
    BreakdownCoversGroups(branches, transactions, sales, saleKey);
    BreakdownKeysDistinct(branches, transactions, sales, saleKey);
    BreakdownRowsOfKeys(branches, transactions, sales, saleKey);
    forall r | r in rows ensures BranchByCode(branches, r.branchCode).Some? {
      if exists s | s in sales :: saleKey(s) == r.branchCode {
        var s :| s in sales && saleKey(s) == r.branchCode;
        var b := BranchById(branches, s.branchId).value;
        assert b in branches && b.code == r.branchCode;
        var k :| 0 <= k < |branches| && branches[k] == b;
      }
    }
  }

  // ---------------------------------------------------------------------
  // Recent activity
  // ---------------------------------------------------------------------

  datatype RecentActivityItem = RecentActivityItem(
    id: string,
    transactionNumber: string,
    kind: string,
    status: string,
    amount: real,
    currency: Currency,
    branchCode: string,
    branchName: string,
    transactionDateUtc: Instant)

  function FirstLineCurrency(lines: seq<SaleLine>): Currency
  {
    if |lines| > 0 then lines[0].currency else USD
  }

  /** A sale as an activity; its branch is shown by id. */
  function SaleActivity(branches: seq<Branch>, s: Sale): RecentActivityItem
  {
    RecentActivityItem(s.id, s.saleNumber, "Sale", TransactionStatusName(s.status), SaleAmount(s),
                       FirstLineCurrency(s.lines), s.branchId, BranchNameOr(branches, s.branchId), s.saleDateUtc)
  }

  function PurchaseActivity(branches: seq<Branch>, t: InventoryTransactionDocument): RecentActivityItem
  {
    RecentActivityItem(t.id, t.transactionNumber, "Purchase", TransactionStatusName(t.status), TransactionAmount(t),
                       if |t.lines| > 0 then t.lines[0].currency else USD,
                       t.branchCode, BranchNameOr(branches, t.branchCode), t.transactionDateUtc)
  }

  predicate NewestActivityFirst(a: RecentActivityItem, b: RecentActivityItem)
  {
    a.transactionDateUtc >= b.transactionDateUtc
  }

  /** Every sale, then every In transaction, as activities. */
  function Activities(branches: seq<Branch>, transactions: seq<InventoryTransactionDocument>, sales: seq<Sale>)
    : seq<RecentActivityItem>
  {
    var ins := Filter(transactions, IsIn);
    seq(|sales|, i requires 0 <= i < |sales| => SaleActivity(branches, sales[i]))
    + seq(|ins|, i requires 0 <= i < |ins| => PurchaseActivity(branches, ins[i]))
  }

  /** GetRecentActivityAsync: the ten newest activities. */
  function RecentActivity(branches: seq<Branch>, transactions: seq<InventoryTransactionDocument>, sales: seq<Sale>)
    : seq<RecentActivityItem>
  {
    Take(SortBy(Activities(branches, transactions, sales), NewestActivityFirst), RecentActivityLimit)
  }

  /**
   * Recent activity shows the ten newest of the sales and In transactions
   * (all of them when there are fewer), newest first; each shown item is
   * one of them, and any one not shown is no newer than every shown item.
   */
  lemma RecentActivityTop(branches: seq<Branch>, transactions: seq<InventoryTransactionDocument>, sales: seq<Sale>)
    ensures var all := Activities(branches, transactions, sales);
            var shown := RecentActivity(branches, transactions, sales);
            && |all| == |sales| + |Filter(transactions, IsIn)|
            && |shown| == (if |all| < RecentActivityLimit then |all| else RecentActivityLimit)
            && SortedBy(shown, NewestActivityFirst)
            && (forall a | a in shown :: a in all)
            && (forall a | a in all && a !in shown ::
                  forall b | b in shown :: b.transactionDateUtc >= a.transactionDateUtc)
  {
    var all := Activities(branches, transactions, sales);
    var sorted := SortBy(all, NewestActivityFirst);
    var shown := RecentActivity(branches, transactions, sales);
    SortBySorted(all, NewestActivityFirst);
    forall a | a in shown ensures a in all {
      assert a in sorted;
      assert a in multiset(sorted);
    }
    forall a | a in all && a !in shown ensures forall b | b in shown :: b.transactionDateUtc >= a.transactionDateUtc {
      assert a in multiset(sorted);
      var m :| 0 <= m < |sorted| && sorted[m] == a;
      assert m >= |shown|;
      forall b | b in shown ensures b.transactionDateUtc >= a.transactionDateUtc {
        var i :| 0 <= i < |shown| && shown[i] == b;
        assert sorted[i] == b;
      }
    }
  }

  // ---------------------------------------------------------------------
  // The dashboard
  // ---------------------------------------------------------------------

  datatype DashboardData = DashboardData(
    summary: DashboardSummary,
    branchBreakdown: seq<BranchBreakdown>,
    recentActivity: seq<RecentActivityItem>)

  /** The dashboard of a scope: the period's committed transactions and sales, summarised three ways. */
  function DashboardFor(now: Instant, transactions: seq<InventoryTransactionDocument>, sales: seq<SaleDocument>,
                        branches: seq<Branch>, start: Instant, end: Instant, scope: Option<string>): DashboardData
  {
    var txs := ScopedTransactions(transactions, scope, start, end);
    var committed := ScopedSales(sales, branches, scope, start, end);
    var todayStart := TodayStart(now);
    var summary := CalculateSummary(txs, committed, todayStart, TodayEnd(todayStart));
    DashboardData(summary.(startDate := start, endDate := end),
                  CalculateBranchBreakdown(branches, txs, committed),
                  RecentActivity(branches, txs, committed))
  }

  /**
   * The dashboard as written: the breakdown groups sales by branch id; the
   * summary and the recent activity are those of the corrected dashboard.
   */
  function DashboardForAsWritten(now: Instant, transactions: seq<InventoryTransactionDocument>, sales: seq<SaleDocument>,
                                 branches: seq<Branch>, start: Instant, end: Instant, scope: Option<string>): (d: DashboardData)
    ensures var fixed := DashboardFor(now, transactions, sales, branches, start, end, scope);
            && d.summary == fixed.summary && d.recentActivity == fixed.recentActivity
            && d.branchBreakdown == CalculateBranchBreakdownAsWritten(branches, ScopedTransactions(transactions, scope, start, end),
                                                                      ScopedSales(sales, branches, scope, start, end))
  {
    var txs := ScopedTransactions(transactions, scope, start, end);
    var committed := ScopedSales(sales, branches, scope, start, end);
    DashboardFor(now, transactions, sales, branches, start, end, scope)
      .(branchBreakdown := CalculateBranchBreakdownAsWritten(branches, txs, committed))
  }

  /**
   * GetDashboardDataAsync with the branch check and the breakdown corrected:
   * a period that ends before it starts is refused, then the branch check;
   * the map from branch code to name cannot be built when two branches
   * share a code.
   */
  function GetDashboardData(user: CurrentUser, now: Instant, transactions: seq<InventoryTransactionDocument>,
                            sales: seq<SaleDocument>, branches: seq<Branch>, start: Instant, end: Instant,
                            branchCode: Option<string>): Result<DashboardData>
  {
    if end < start then Err(InvalidArgument)
    else match QueryScope(user, branchCode)
         case Err(e) => Err(e)
         case Ok(scope) =>
           if !DistinctBranchCodes(branches) then Err(InvalidArgument)
           else Ok(DashboardFor(now, transactions, sales, branches, start, end, scope))
  }

  /** GetDashboardDataAsync as written: its branch check and its breakdown key by branch id. */
  function GetDashboardDataAsWritten(user: CurrentUser, now: Instant, transactions: seq<InventoryTransactionDocument>,
                                     sales: seq<SaleDocument>, branches: seq<Branch>, start: Instant, end: Instant,
                                     branchCode: Option<string>): Result<DashboardData>
  {
    if end < start then Err(InvalidArgument)
    else match QueryScopeAsWritten(user, branchCode)
         case Err(e) => Err(e)
         case Ok(scope) =>
           if !DistinctBranchCodes(branches) then Err(InvalidArgument)
           else Ok(DashboardForAsWritten(now, transactions, sales, branches, start, end, scope))
  }

  /**
   * The dashboard is refused exactly when the period ends before it starts
   * or two branches share a code (InvalidArgument), or the branch check
   * fails (UnauthorizedAccess); otherwise its summary covers the period
   * and its figures are those of the scope's committed sales and
   * transactions.
   */
  lemma DashboardOutcome(user: CurrentUser, now: Instant, transactions: seq<InventoryTransactionDocument>,
                         sales: seq<SaleDocument>, branches: seq<Branch>, start: Instant, end: Instant,
                         branchCode: Option<string>)
    ensures var r := GetDashboardData(user, now, transactions, sales, branches, start, end, branchCode);
            && (r.Ok? <==> start <= end && QueryScope(user, branchCode).Ok? && DistinctBranchCodes(branches))
            && (r.Err? ==> r.error in {InvalidArgument, UnauthorizedAccess})
            && (r.Err? && r.error == UnauthorizedAccess <==> start <= end && QueryScope(user, branchCode).Err?)
            && (r.Ok? ==>
                  var scope := QueryScope(user, branchCode).value;
                  var txs := ScopedTransactions(transactions, scope, start, end);
                  var committed := ScopedSales(sales, branches, scope, start, end);
                  && r.value.summary.startDate == start && r.value.summary.endDate == end
                  && r.value.summary.salesTotal == SumReal(committed, SaleAmount) + SumReal(Filter(txs, IsOut), TransactionAmount)
                  && r.value.summary.purchasesTotal == SumReal(Filter(txs, IsIn), TransactionAmount)
                  && r.value.branchBreakdown == CalculateBranchBreakdown(branches, txs, committed)
                  && r.value.recentActivity == RecentActivity(branches, txs, committed))
  {
  }

  /**
   * The dashboard as written is refused in the same cases as the corrected
   * one, with the branch check as written; when it is given, its figures are
   * those of that check's scope and its breakdown groups sales by branch id.
   */
  lemma DashboardAsWrittenOutcome(user: CurrentUser, now: Instant, transactions: seq<InventoryTransactionDocument>,
                                  sales: seq<SaleDocument>, branches: seq<Branch>, start: Instant, end: Instant,
                                  branchCode: Option<string>)
    ensures var r := GetDashboardDataAsWritten(user, now, transactions, sales, branches, start, end, branchCode);
            && (r.Ok? <==> start <= end && QueryScopeAsWritten(user, branchCode).Ok? && DistinctBranchCodes(branches))
            && (r.Err? ==> r.error in {InvalidArgument, UnauthorizedAccess})
            && (r.Err? && r.error == UnauthorizedAccess <==> start <= end && QueryScopeAsWritten(user, branchCode).Err?)
            && (r.Ok? ==>
                  var scope := QueryScopeAsWritten(user, branchCode).value;
                  var txs := ScopedTransactions(transactions, scope, start, end);
                  var committed := ScopedSales(sales, branches, scope, start, end);
                  && r.value.summary.startDate == start && r.value.summary.endDate == end
                  && r.value.summary.salesTotal == SumReal(committed, SaleAmount) + SumReal(Filter(txs, IsOut), TransactionAmount)
                  && r.value.summary.purchasesTotal == SumReal(Filter(txs, IsIn), TransactionAmount)
                  && r.value.branchBreakdown == CalculateBranchBreakdownAsWritten(branches, txs, committed)
                  && r.value.recentActivity == RecentActivity(branches, txs, committed))
  {
  }

  /**
   * The sales a dashboard counts are exactly the stored sales that read
   * back committed, dated in the period and, when the scope names a known
   * branch, of that branch's id; newest first.
   */
  lemma ScopedSalesMembers(sales: seq<SaleDocument>, branches: seq<Branch>, scope: Option<string>,
                           start: Instant, end: Instant)
    ensures var found := ScopedSales(sales, branches, scope, start, end);
            && SortedBy(found, NewestSaleFirst)
            && (forall s | s in found :: SaleMatches(s, SalesBranchId(branches, scope), start, end) && s.status == Committed)
            && (forall s | s in SaleEntities(sales) && SaleMatches(s, SalesBranchId(branches, scope), start, end)
                           && s.status == Committed :: s in found)
  {
    var all := SaleEntities(sales);
    var branchId := SalesBranchId(branches, scope);
    var matching := SalesInPeriod(all, branchId, start, end);
    var sorted := SortBy(matching, NewestSaleFirst);
    var found := Filter(sorted, IsCommittedSale);
    SortBySorted(matching, NewestSaleFirst);
    FilterKeepsSorted(sorted, IsCommittedSale, NewestSaleFirst);
    forall s | s in found ensures SaleMatches(s, branchId, start, end) {
      assert s in multiset(sorted);
    }
    forall s | s in all && SaleMatches(s, branchId, start, end) && s.status == Committed ensures s in found {
      var i :| 0 <= i < |all| && all[i] == s;
      assert s in multiset(sorted);
      var k :| 0 <= k < |sorted| && sorted[k] == s;
    }
  }

  /**
   * A non-Admin's dashboard reads only their branch: every transaction it
   * counts has their branch code, every sale the id of the branch with that
   * code, and both lie in the period and are committed.  A period that ends
   * before it starts is refused.
   */
  lemma DashboardStaysInBranch(user: CurrentUser, now: Instant, transactions: seq<InventoryTransactionDocument>,
                               sales: seq<SaleDocument>, branches: seq<Branch>, start: Instant, end: Instant,
                               branchCode: Option<string>)
    requires user.role != Admin && user.branchCode.Some? && user.branchCode.value != ""
    requires BranchByCode(branches, user.branchCode.value).Some? && BranchByCode(branches, user.branchCode.value).value.id != ""
    ensures end < start ==> GetDashboardData(user, now, transactions, sales, branches, start, end, branchCode)
                            == Err(InvalidArgument)
    ensures var scope := QueryScope(user, branchCode);
            scope.Ok? ==>
              && (forall t | t in ScopedTransactions(transactions, scope.value, start, end) ::
                    t.branchCode == user.branchCode.value && t.status == Committed
                    && start <= t.createdAtUtc <= end)
              && (forall s | s in ScopedSales(sales, branches, scope.value, start, end) ::
                    s.branchId == BranchByCode(branches, user.branchCode.value).value.id
                    && s.status == Committed && start <= s.saleDateUtc <= end)
  {
    var scope := QueryScope(user, branchCode);
    if scope.Ok? {
      assert scope.value == user.branchCode;
      var b := BranchByCode(branches, user.branchCode.value).value;
      assert SalesBranchId(branches, scope.value) == Some(b.id);
      ReportService.SearchTransactionsMembers(transactions, scope.value, Some(start), Some(end), None, Some(Committed));
      ScopedSalesMembers(sales, branches, scope.value, start, end);
      forall s | s in ScopedSales(sales, branches, scope.value, start, end)
        ensures s.branchId == b.id && s.status == Committed && start <= s.saleDateUtc <= end
      {
        assert SaleMatches(s, Some(b.id), start, end);
      }
      forall t | t in ScopedTransactions(transactions, scope.value, start, end)
        ensures t.branchCode == user.branchCode.value && t.status == Committed && start <= t.createdAtUtc <= end
      {
        assert ReportService.MatchesSearch(t, scope.value, Some(start), Some(end), None, Some(Committed));
      }
    }
  }

  // Branch "BR1" has the id "b1"; an Out transaction of that branch and a
  // sale of branch "BR2", both in the period [0, 10].

  const ExampleBranches := [Branch("b1", "BR1", "Main"), Branch("b2", "BR2", "North")]
  const ExampleSaleLine := SaleLineDocument(None, "i1", "T1", "Tire", Good, Some(New), 1, 100.0, USD, None)
  const ExampleSale := SaleDocument("s1", "BR2-0000001", "b2", 5, [ExampleSaleLine], None, None, None, Committed,
                                    Some(5), Some("other"), 5, "other", None, None)
  const ExampleLine := InventoryTransactionLineDocument("l1", "i1", "T1", New, 1, 50.0, USD, true, true,
                                                        Manual, "Seller", "seller", 50.0, None, None, 5)
  const ExampleOut := InventoryTransactionDocument("t1", "OUT-1", "BR1", Out, Committed, 5, None, None, Some(5),
                                                   Some("seller"), [ExampleLine], 5, "seller", None, None)

  /** As written the scope is the branch id: no transaction code matches it, and no branch code either. */
  lemma ExampleScopedAsWritten()
    ensures ScopedTransactions([ExampleOut], Some("b1"), 0, 10) == []
    ensures ScopedSales([ExampleSale], ExampleBranches, Some("b1"), 0, 10) == [SaleMapper.ToEntity(ExampleSale)]
  {
    var entity := SaleMapper.ToEntity(ExampleSale);
    assert SalesBranchId(ExampleBranches, Some("b1")) == None;
    assert SaleEntities([ExampleSale]) == [entity];
    assert SalesInPeriod([entity], None, 0, 10) == [entity];
  }

  /** Scoped by the branch code, the branch's own transaction counts and the other branch's sale does not. */
  lemma ExampleScoped()
    ensures ScopedTransactions([ExampleOut], Some("BR1"), 0, 10) == [ExampleOut]
    ensures ScopedSales([ExampleSale], ExampleBranches, Some("BR1"), 0, 10) == []
  {
    var entity := SaleMapper.ToEntity(ExampleSale);
    assert SalesBranchId(ExampleBranches, Some("BR1")) == Some("b1");
    assert SaleEntities([ExampleSale]) == [entity];
    assert SalesInPeriod([entity], Some("b1"), 0, 10) == [];
  }

  /**
   * With the branch check as written, a non-Admin whose branch id is not
   * their branch code, nor any branch's code, is refused when asking for
   * their own branch code; asking for no branch, their dashboard counts
   * none of their branch's transactions and every committed sale of the
   * period, whatever its branch.
   */
  lemma DashboardAsWrittenCrossesBranches(user: CurrentUser, transactions: seq<InventoryTransactionDocument>,
                                          sales: seq<SaleDocument>, branches: seq<Branch>, start: Instant, end: Instant)
    requires user.role != Admin && user.branchId.Some? && user.branchId.value != ""
    requires user.branchCode.Some? && user.branchCode.value != "" && user.branchCode.value != user.branchId.value
    requires BranchByCode(branches, user.branchId.value).None?
    ensures QueryScopeAsWritten(user, user.branchCode) == Err(UnauthorizedAccess)
    ensures QueryScopeAsWritten(user, None) == Ok(user.branchId)
    ensures forall t | t in ScopedTransactions(transactions, user.branchId, start, end) ::
              t.branchCode != user.branchCode.value
    ensures forall s | s in SaleEntities(sales) && start <= s.saleDateUtc <= end && s.status == Committed ::
              s in ScopedSales(sales, branches, user.branchId, start, end)
  {
    ReportService.SearchTransactionsMembers(transactions, user.branchId, Some(start), Some(end), None, Some(Committed));
    ScopedSalesMembers(sales, branches, user.branchId, start, end);
    assert SalesBranchId(branches, user.branchId) == None;
  }

  /**
   * As written, a branch whose id is not a branch code and which has both
   * a sale and a transaction in the period gets two breakdown rows: one
   * keyed and named by its id, one keyed by its code.
   */
  lemma BreakdownAsWrittenSplitsBranch(branches: seq<Branch>, transactions: seq<InventoryTransactionDocument>,
                                       sales: seq<Sale>, b: Branch)
    requires b in branches && BranchByCode(branches, b.id).None?
    requires exists s | s in sales :: s.branchId == b.id
    requires exists t | t in transactions :: t.branchCode == b.code
    ensures var rows := CalculateBranchBreakdownAsWritten(branches, transactions, sales);
            && (exists r | r in rows :: r.branchCode == b.id && r.branchName == b.id)
            && (exists r | r in rows :: r.branchCode == b.code)
            && b.id != b.code
  {
    var rows := CalculateBranchBreakdownAsWritten(branches, transactions, sales);
    BreakdownCoversGroups(branches, transactions, sales, SaleBranchId);
    BreakdownRowFigures(branches, transactions, sales, SaleBranchId);
    var s :| s in sales && s.branchId == b.id;
    assert SaleBranchId(s) == b.id;
    var r :| r in rows && r.branchCode == b.id;
    assert r.branchName == BranchNameOr(branches, b.id);
    var k :| 0 <= k < |branches| && branches[k] == b;
  }
}
